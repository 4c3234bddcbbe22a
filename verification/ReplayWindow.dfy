/** The replay window of the forwarding protocol: which messages a receiver accepts over time. */
module ReplayWindow {
  import opened Basics

  type Nonce = string

  /**
   A decoded message. Whether its version, instance, shape, code and event pass is decided by the
   message and the receiver's secret alone; the checks before and after the time check are kept apart.
   */
  datatype Message = Message(
    nonce: Nonce,
    sentAt: u64,
    beforeTime: Option<ProtocolError>,
    afterTime: Option<ProtocolError>)

  datatype ProtocolError =
    | TooLarge
    | Malformed
    | UnsupportedVersion
    | WrongInstance
    | InvalidInstanceId
    | InvalidNonce
    | Expired
    | InvalidMac
    | InvalidEvent
    | ReplayedNonce

  datatype Entry = Entry(nonce: Nonce, at: u64)

  datatype Limits = Limits(window: u64, capacity: nat) {
    predicate Valid() { capacity >= 1 }
  }

  function AbsDiff(a: u64, b: u64): u64 {
    if a < b then b - a else a - b
  }

  function Check(message: Message, now: u64, limits: Limits): Option<ProtocolError> {
    if message.beforeTime.Some? then message.beforeTime
    else if AbsDiff(now, message.sentAt) > limits.window then Some(Expired)
    else message.afterTime
  }

  predicate IsOld(entry: Entry, now: u64, limits: Limits) {
    SaturatingSub(now, entry.at) > limits.window
  }

  /** Forget old entries from the front up to the first that is not. */
  function Prune(queue: seq<Entry>, now: u64, limits: Limits): seq<Entry> {
    if queue != [] && IsOld(queue[0], now, limits) then Prune(queue[1..], now, limits) else queue
  }

  lemma {:induction false} PruneIsSuffix(queue: seq<Entry>, now: u64, limits: Limits) returns (cut: nat)
    ensures cut <= |queue| && Prune(queue, now, limits) == queue[cut..]
    ensures cut < |queue| ==> !IsOld(queue[cut], now, limits)
    ensures forall i :: 0 <= i < cut ==> IsOld(queue[i], now, limits)
  {
    cut := 0;
    if queue != [] && IsOld(queue[0], now, limits) {
      var rest := PruneIsSuffix(queue[1..], now, limits);
      cut := rest + 1;
      assert queue[cut..] == queue[1..][rest..];
      assert forall i :: 1 <= i < cut ==> queue[i] == queue[1..][i - 1];
    } else {
      assert queue[0..] == queue;
    }
  }

  /** Leave room for one more. */
  function Trim(queue: seq<Entry>, capacity: nat): seq<Entry>
    requires capacity >= 1
  {
    if |queue| >= capacity then queue[|queue| - (capacity - 1)..] else queue
  }

  function Nonces(queue: seq<Entry>): set<Nonce> {
    set entry | entry in queue :: entry.nonce
  }

  /** The queue and the verdict after one message; a rejected message leaves at most a pruned queue. */
  function Verify(queue: seq<Entry>, message: Message, now: u64, limits: Limits): (seq<Entry>, Option<ProtocolError>)
    requires limits.Valid()
  {
    var failure := Check(message, now, limits);
    if failure.Some? then (queue, failure)
    else
      var pruned := Prune(queue, now, limits);
      if message.nonce in Nonces(pruned) then (pruned, Some(ReplayedNonce))
      else (Trim(pruned, limits.capacity) + [Entry(message.nonce, now)], None)
  }

  predicate Accepts(queue: seq<Entry>, message: Message, now: u64, limits: Limits)
    requires limits.Valid()
  {
    Verify(queue, message, now, limits).1.None?
  }

  // ---- Runs ----

  datatype Call = Call(message: Message, now: u64)

  function Run(queue: seq<Entry>, calls: seq<Call>, limits: Limits): seq<Entry>
    requires limits.Valid()
    decreases |calls|
  {
    if calls == [] then queue
    else Run(Verify(queue, calls[0].message, calls[0].now, limits).0, calls[1..], limits)
  }

  /** How many of the calls are accepted. */
  function Acceptances(queue: seq<Entry>, calls: seq<Call>, limits: Limits): nat
    requires limits.Valid()
    decreases |calls|
  {
    if calls == [] then 0
    else
      (if Accepts(queue, calls[0].message, calls[0].now, limits) then 1 else 0)
      + Acceptances(Verify(queue, calls[0].message, calls[0].now, limits).0, calls[1..], limits)
  }

  /** The entry is in the queue with `since` entries after it. */
  ghost predicate Held(queue: seq<Entry>, entry: Entry, since: nat) {
    since < |queue| && queue[|queue| - 1 - since] == entry
  }

  lemma PruneHolds(queue: seq<Entry>, entry: Entry, since: nat, now: u64, limits: Limits)
    requires Held(queue, entry, since) && !IsOld(entry, now, limits)
    ensures Held(Prune(queue, now, limits), entry, since) && entry in Prune(queue, now, limits)
  {
    var cut := PruneIsSuffix(queue, now, limits);
    assert cut <= |queue| - 1 - since;
    assert queue[cut..][|queue| - 1 - since - cut] == entry;
  }

  lemma VerifyHolds(queue: seq<Entry>, entry: Entry, since: nat, call: Call, limits: Limits)
    requires limits.Valid() && Held(queue, entry, since) && !IsOld(entry, call.now, limits)
    requires Accepts(queue, call.message, call.now, limits) ==> since + 1 < limits.capacity
    ensures var (after, failure) := Verify(queue, call.message, call.now, limits);
            Held(after, entry, if failure.None? then since + 1 else since)
    ensures call.message.nonce == entry.nonce ==> !Accepts(queue, call.message, call.now, limits)
  {
    PruneHolds(queue, entry, since, call.now, limits);
  }

  lemma {:induction false} RunHolds(queue: seq<Entry>, entry: Entry, since: nat, calls: seq<Call>, limits: Limits)
    requires limits.Valid() && Held(queue, entry, since)
    requires forall call :: call in calls ==> !IsOld(entry, call.now, limits)
    requires since + Acceptances(queue, calls, limits) < limits.capacity
    ensures Held(Run(queue, calls, limits), entry, since + Acceptances(queue, calls, limits))
    decreases |calls|
  {
    if calls != [] {
      var (after, failure) := Verify(queue, calls[0].message, calls[0].now, limits);
      VerifyHolds(queue, entry, since, calls[0], limits);
      RunHolds(after, entry, if failure.None? then since + 1 else since, calls[1..], limits);
    }
  }

  /**
   A nonce is accepted twice only when more than the window has passed or at least as many others
   as the receiver remembers were accepted in between, provided no call between saw a later clock.
   */
  lemma AcceptedTwice(queue: seq<Entry>, first: Call, between: seq<Call>, second: Call, limits: Limits)
    requires limits.Valid() && first.message.nonce == second.message.nonce
    requires forall call :: call in between ==> call.now <= second.now
    requires Accepts(queue, first.message, first.now, limits)
    requires var after := Verify(queue, first.message, first.now, limits).0;
             Accepts(Run(after, between, limits), second.message, second.now, limits)
    ensures var after := Verify(queue, first.message, first.now, limits).0;
            || SaturatingSub(second.now, first.now) > limits.window
            || Acceptances(after, between, limits) >= limits.capacity
  {
    var after := Verify(queue, first.message, first.now, limits).0;
    var entry := Entry(first.message.nonce, first.now);
    assert Held(after, entry, 0);
    if !IsOld(entry, second.now, limits) && Acceptances(after, between, limits) < limits.capacity {
      RunHolds(after, entry, 0, between, limits);
      var reached := Run(after, between, limits);
      PruneHolds(reached, entry, Acceptances(after, between, limits), second.now, limits);
    }
  }

  /** So a message dated no later than its acceptance is never accepted again without such overflow. */
  lemma HonestDateNeverReplays(
    queue: seq<Entry>, message: Message, at: u64, between: seq<Call>, again: u64, limits: Limits)
    requires limits.Valid() && message.sentAt <= at
    requires forall call :: call in between ==> call.now <= again
    requires Accepts(queue, message, at, limits)
    requires var after := Verify(queue, message, at, limits).0;
             Acceptances(after, between, limits) < limits.capacity
    ensures var after := Verify(queue, message, at, limits).0;
            !Accepts(Run(after, between, limits), message, again, limits)
  {
    var after := Verify(queue, message, at, limits).0;
    if Accepts(Run(after, between, limits), message, again, limits) {
      AcceptedTwice(queue, Call(message, at), between, Call(message, again), limits);
    }
  }

  // ---- Dates in the future ----

  /** Under a clock that never runs backwards the queue is in order of time. */
  ghost predicate Chronological(queue: seq<Entry>, now: u64) {
    && (forall i, j :: 0 <= i < j < |queue| ==> queue[i].at <= queue[j].at)
    && (forall i :: 0 <= i < |queue| ==> queue[i].at <= now)
  }

  lemma SuffixIsChronological(queue: seq<Entry>, cut: nat, now: u64, later: u64)
    requires cut <= |queue| && Chronological(queue, now) && now <= later
    ensures Chronological(queue[cut..], later)
  {
  }

  lemma AppendIsChronological(queue: seq<Entry>, entry: Entry)
    requires Chronological(queue, entry.at)
    ensures Chronological(queue + [entry], entry.at)
  {
  }

  lemma VerifyKeepsChronological(queue: seq<Entry>, message: Message, now: u64, earlier: u64, limits: Limits)
    requires limits.Valid() && Chronological(queue, earlier) && earlier <= now
    ensures Chronological(Verify(queue, message, now, limits).0, now)
  {
    var cut := PruneIsSuffix(queue, now, limits);
    SuffixIsChronological(queue, 0, earlier, now);
    SuffixIsChronological(queue, cut, earlier, now);
    assert queue[0..] == queue;
    var pruned := Prune(queue, now, limits);
    if |pruned| >= limits.capacity {
      SuffixIsChronological(pruned, |pruned| - (limits.capacity - 1), now, now);
    }
    AppendIsChronological(Trim(pruned, limits.capacity), Entry(message.nonce, now));
  }

  /** Then pruning leaves exactly the entries within the window. */
  lemma PruneKeepsExactly(queue: seq<Entry>, now: u64, limits: Limits)
    requires Chronological(queue, now)
    ensures forall entry :: entry in Prune(queue, now, limits) <==> entry in queue && !IsOld(entry, now, limits)
  {
    var cut := PruneIsSuffix(queue, now, limits);
    assert queue == queue[..cut] + queue[cut..];
    forall entry | entry in queue[cut..]
      ensures !IsOld(entry, now, limits)
    {
      var i :| cut <= i < |queue| && queue[i] == entry;
    }
  }

  lemma AllAreForgotten(queue: seq<Entry>, at: u64, now: u64, limits: Limits)
    requires Chronological(queue, at) && now - at > limits.window
    ensures Prune(queue, now, limits) == []
  {
    var cut := PruneIsSuffix(queue, now, limits);
    assert forall i :: 0 <= i < |queue| ==> IsOld(queue[i], now, limits);
  }

  lemma StillRemembered(queue: seq<Entry>, message: Message, at: u64, again: u64, limits: Limits)
    requires limits.Valid() && Accepts(queue, message, at, limits) && at <= again
    requires Accepts(Verify(queue, message, at, limits).0, message, again, limits)
    ensures again - at > limits.window && again - message.sentAt <= limits.window
  {
    var after := Verify(queue, message, at, limits).0;
    var entry := Entry(message.nonce, at);
    assert Held(after, entry, 0);
    if again - at <= limits.window {
      PruneHolds(after, entry, 0, again, limits);
    }
  }

  /**
   An accepted message that comes again next, still in date, is refused as a replay within the window
   and, under a clock that had not run back, only then.
   */
  lemma RefusedExactly(queue: seq<Entry>, message: Message, at: u64, again: u64, limits: Limits)
    requires limits.Valid() && Accepts(queue, message, at, limits) && Check(message, again, limits).None?
    ensures var after := Verify(queue, message, at, limits).0;
            var refused := Verify(after, message, again, limits).1 == Some(ReplayedNonce);
            && (SaturatingSub(again, at) <= limits.window ==> refused)
            && (Chronological(queue, at) ==> (refused <==> SaturatingSub(again, at) <= limits.window))
  {
    var after := Verify(queue, message, at, limits).0;
    assert Held(after, Entry(message.nonce, at), 0);
    if SaturatingSub(again, at) <= limits.window {
      PruneHolds(after, Entry(message.nonce, at), 0, again, limits);
    } else if Chronological(queue, at) {
      VerifyKeepsChronological(queue, message, at, at, limits);
      AllAreForgotten(after, at, again, limits);
    }
  }

  lemma ForgottenThen(queue: seq<Entry>, message: Message, at: u64, limits: Limits)
    requires limits.Valid() && Chronological(queue, at) && Accepts(queue, message, at, limits)
    requires message.sentAt > at && at + limits.window < U64_MAX
    ensures Accepts(Verify(queue, message, at, limits).0, message, at + limits.window + 1, limits)
  {
    var after := Verify(queue, message, at, limits).0;
    VerifyKeepsChronological(queue, message, at, at, limits);
    AllAreForgotten(after, at, at + limits.window + 1, limits);
  }

  /**
   Sent again right away, an accepted message is accepted a second time at some later moment exactly
   if it was dated after its first acceptance (and the clock can still pass the window).
   */
  lemma ReplayableExactly(queue: seq<Entry>, message: Message, at: u64, limits: Limits)
    requires limits.Valid() && Chronological(queue, at) && Accepts(queue, message, at, limits)
    ensures var after := Verify(queue, message, at, limits).0;
            (exists again: u64 :: at <= again && Accepts(after, message, again, limits))
            <==> (message.sentAt > at && at + limits.window < U64_MAX)
  {
    var after := Verify(queue, message, at, limits).0;
    if message.sentAt > at && at + limits.window < U64_MAX {
      ForgottenThen(queue, message, at, limits);
      assert Accepts(after, message, at + limits.window + 1, limits);
    }
    forall again: u64 | at <= again && Accepts(after, message, again, limits)
      ensures message.sentAt > at && at + limits.window < U64_MAX
    {
      StillRemembered(queue, message, at, again, limits);
    }
  }

  // ---- What is accepted ----

  /** The date differs from the clock by no more than the window, either way. */
  predicate InDate(message: Message, now: u64, limits: Limits) {
    now <= message.sentAt + limits.window && message.sentAt <= now + limits.window
  }

  /** The nonce was accepted within the window. */
  predicate IsKnown(queue: seq<Entry>, nonce: Nonce, now: u64, limits: Limits) {
    exists entry :: entry in queue && entry.nonce == nonce && now <= entry.at + limits.window
  }

  predicate PassesTheOtherChecks(message: Message) {
    message.beforeTime.None? && message.afterTime.None?
  }

  /**
   Under a clock that has not run back a message is accepted exactly if it passes the other checks, is
   dated within the window before or after, and its nonce was not accepted within the window. One that
   passes the other checks is refused as expired exactly if it is dated outside the window, and as a
   replay if its nonce is the reason.
   */
  lemma AcceptedExactly(queue: seq<Entry>, message: Message, now: u64, limits: Limits)
    requires limits.Valid() && Chronological(queue, now)
    ensures var known := IsKnown(queue, message.nonce, now, limits);
            var verdict := Verify(queue, message, now, limits).1;
            && (verdict.None? <==> PassesTheOtherChecks(message) && InDate(message, now, limits) && !known)
            && (PassesTheOtherChecks(message) ==>
                  && (verdict == Some(Expired) <==> !InDate(message, now, limits))
                  && (verdict == Some(ReplayedNonce) <==> InDate(message, now, limits) && known))
  {
    PruneKeepsExactly(queue, now, limits);
  }

  /** Whatever the clock did, a message accepted is dated within the window before or after. */
  lemma AcceptedIsInDate(queue: seq<Entry>, message: Message, now: u64, limits: Limits)
    requires limits.Valid() && Accepts(queue, message, now, limits)
    ensures PassesTheOtherChecks(message) && InDate(message, now, limits)
  {
  }

  /** The failure of an earlier check hides those of later ones. */
  lemma ChecksInOrder(queue: seq<Entry>, message: Message, now: u64, limits: Limits)
    requires limits.Valid() && !PassesTheOtherChecks(message)
    ensures Verify(queue, message, now, limits)
            == (queue,
                if message.beforeTime.Some? then message.beforeTime
                else if !InDate(message, now, limits) then Some(Expired)
                else message.afterTime)
  {
  }

  // ---- What is remembered ----

  /**
   What is remembered after an acceptance ends with the new nonce; before it stand, in their order, the
   newest of the entries within the window, as many as there is room for.
   */
  lemma RemembersTheNewest(queue: seq<Entry>, message: Message, now: u64, limits: Limits) returns (kept: nat)
    requires limits.Valid() && Chronological(queue, now) && Accepts(queue, message, now, limits)
    ensures var after := Verify(queue, message, now, limits).0;
            && kept <= |queue| && after == queue[|queue| - kept..] + [Entry(message.nonce, now)]
            && |after| <= limits.capacity
            && (forall entry :: entry in queue[|queue| - kept..] ==> now <= entry.at + limits.window)
            && (|after| < limits.capacity ==>
                  forall entry :: entry in queue && now <= entry.at + limits.window ==> entry in after)
  {
    PruneKeepsExactly(queue, now, limits);
    var cut := PruneIsSuffix(queue, now, limits);
    var pruned := queue[cut..];
    var trimmed := Trim(pruned, limits.capacity);
    kept := |trimmed|;
    assert trimmed == queue[|queue| - kept..];
    forall entry | entry in trimmed
      ensures entry in pruned
    {
    }
  }
}
