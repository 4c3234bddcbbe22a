/** The receiver of forwarded events: a queue of accepted nonces and an index that always agrees with it. */
module ForwardingVerifier {
  import opened Basics
  import opened ReplayWindow

  class ForwardingVerifier {
    const limits: Limits
    var acceptedNonces: seq<Entry>
    var acceptedNonceSet: map<Nonce, u64>

    ghost predicate Valid()
      reads this
    {
      && limits.Valid()
      && |acceptedNonces| <= limits.capacity
      && Agree(acceptedNonces, acceptedNonceSet)
    }

    /** Each nonce is queued once, and the index has exactly the queued ones with their times. */
    static ghost predicate Agree(queue: seq<Entry>, index: map<Nonce, u64>) {
      && (forall i, j :: 0 <= i < j < |queue| ==> queue[i].nonce != queue[j].nonce)
      && index.Keys == Nonces(queue)
      && (forall i :: 0 <= i < |queue| ==> queue[i].nonce in index && index[queue[i].nonce] == queue[i].at)
    }

    static lemma PopKeepsAgreement(queue: seq<Entry>, index: map<Nonce, u64>)
      requires queue != [] && Agree(queue, index)
      ensures Agree(queue[1..], index - {queue[0].nonce})
    {
      forall nonce
        ensures nonce in Nonces(queue[1..]) <==> nonce in Nonces(queue) && nonce != queue[0].nonce
      {
        assert queue == [queue[0]] + queue[1..];
        if nonce in Nonces(queue[1..]) {
          var i :| 0 <= i < |queue[1..]| && queue[1..][i].nonce == nonce;
          assert queue[i + 1].nonce == nonce;
        }
      }
    }

    static lemma PushKeepsAgreement(queue: seq<Entry>, index: map<Nonce, u64>, entry: Entry)
      requires Agree(queue, index) && entry.nonce !in index
      ensures Agree(queue + [entry], index[entry.nonce := entry.at])
    {
      assert Nonces(queue + [entry]) == Nonces(queue) + {entry.nonce};
      forall i | 0 <= i < |queue|
        ensures queue[i].nonce != entry.nonce
      {
        assert queue[i].nonce in index;
      }
    }

    constructor WithLimits(replayWindow: u64, nonceCapacity: nat)
      ensures Valid() && acceptedNonces == []
      ensures limits == Limits(replayWindow, if nonceCapacity < 1 then 1 else nonceCapacity)
    {
      limits := Limits(replayWindow, if nonceCapacity < 1 then 1 else nonceCapacity);
      acceptedNonces := [];
      acceptedNonceSet := map[];
    }

    method VerifyPayload(message: Message, now: u64) returns (failure: Option<ProtocolError>)
      requires Valid()
      modifies this
      ensures Valid()
      ensures (acceptedNonces, failure) == Verify(old(acceptedNonces), message, now, limits)
    {
      failure := Check(message, now, limits);
      if failure.Some? {
        return;
      }
      PruneNonces(now);
      if message.nonce in acceptedNonceSet {
        return Some(ReplayedNonce);
      }
      ghost var pruned := acceptedNonces;
      while |acceptedNonces| >= limits.capacity
        invariant Agree(acceptedNonces, acceptedNonceSet)
        invariant |acceptedNonces| <= |pruned| && acceptedNonces == pruned[|pruned| - |acceptedNonces|..]
        invariant |pruned| > |acceptedNonces| ==> |acceptedNonces| >= limits.capacity - 1
        invariant message.nonce !in acceptedNonceSet
        decreases |acceptedNonces|
      {
        PopFront();
      }
      assert acceptedNonces == Trim(pruned, limits.capacity);
      PushKeepsAgreement(acceptedNonces, acceptedNonceSet, Entry(message.nonce, now));
      acceptedNonces := acceptedNonces + [Entry(message.nonce, now)];
      acceptedNonceSet := acceptedNonceSet[message.nonce := now];
    }

    method PruneNonces(now: u64)
      requires Valid()
      modifies this
      ensures Valid() && acceptedNonces == Prune(old(acceptedNonces), now, limits)
    {
      while acceptedNonces != [] && SaturatingSub(now, acceptedNonces[0].at) > limits.window
        invariant Valid()
        invariant Prune(acceptedNonces, now, limits) == Prune(old(acceptedNonces), now, limits)
        decreases |acceptedNonces|
      {
        PopFront();
      }
    }

    method PopFront()
      requires acceptedNonces != [] && Agree(acceptedNonces, acceptedNonceSet)
      modifies this
      ensures acceptedNonces == old(acceptedNonces)[1..] && Agree(acceptedNonces, acceptedNonceSet)
      ensures acceptedNonceSet == old(acceptedNonceSet) - {old(acceptedNonces)[0].nonce}
    {
      PopKeepsAgreement(acceptedNonces, acceptedNonceSet);
      var front := acceptedNonces[0];
      acceptedNonces := acceptedNonces[1..];
      acceptedNonceSet := acceptedNonceSet - {front.nonce};
    }
  }
}
