/** The table of titles being resolved; each method is what happens under one holding of its lock. */
module TitleDispatch {
  import opened Basics
  import opened SessionTypes
  import opened TitleModel

  class TitleDispatch {
    var closed: bool
    var pending: Pending

    constructor ()
      ensures !closed && pending == map[]
    {
      closed := false;
      pending := map[];
    }

    /** Enter every wanted card that is not there yet, as far as there is room. */
    method Schedule(cards: seq<Notification>, only: Option<EventKey>, providers: set<ProviderId>, next: Token)
      returns (spawned: map<Token, Notification>, unused: Token)
      modifies this
      ensures closed == old(closed)
      ensures Admission(pending, spawned, unused) ==
              if closed then Admission(old(pending), map[], next)
              else Admit(Admission(Prune(old(pending), UnreadIds(cards)), map[], next), cards, only, providers)
    {
      spawned, unused := map[], next;
      if closed {
        return;
      }
      var unread := CollectUnread(cards);
      pending := map id | id in pending && id in unread :: pending[id];
      ghost var start := Admission(pending, map[], next);
      assert cards[0..] == cards;
      for i := 0 to |cards|
        invariant !closed
        invariant Admit(Admission(pending, spawned, unused), cards[i..], only, providers) ==
                  Admit(start, cards, only, providers)
      {
        var card := cards[i];
        assert cards[i..][0] == card && cards[i..][1..] == cards[i + 1..];
        if !card.state.Unread?
           || (only.Some? && only.value != EventKey(card.provider, card.event))
           || card.provider !in providers
           || card.id in pending
           || |pending| >= MAX_PENDING_TITLES
        {
          continue;
        }
        pending := pending[card.id := unused];
        spawned := spawned[unused := card];
        unused := unused + 1;
      }
    }

    static method CollectUnread(cards: seq<Notification>) returns (unread: set<NotificationId>)
      ensures unread == UnreadIds(cards)
    {
      unread := {};
      for i := 0 to |cards|
        invariant unread == UnreadIds(cards[..i])
      {
        assert cards[..i + 1] == cards[..i] + [cards[i]];
        if cards[i].state.Unread? {
          unread := unread + {cards[i].id};
        }
      }
      assert cards[..|cards|] == cards;
    }

    /** Whether the worker still owns the entry; an owner without a title gives it up. */
    method Take(id: NotificationId, token: Token, title: Option<string>) returns (goesOn: bool)
      modifies this
      ensures closed == old(closed)
      ensures goesOn == (id in old(pending) && old(pending)[id] == token && title.Some?)
      ensures pending == if title.None? then Release(old(pending), id, token) else old(pending)
    {
      if id !in pending || pending[id] != token {
        return false;
      }
      if title.None? {
        pending := pending - {id};
        return false;
      }
      goesOn := true;
    }

    method Finish(id: NotificationId, token: Token)
      modifies this
      ensures closed == old(closed) && pending == Release(old(pending), id, token)
    {
      if id in pending && pending[id] == token {
        pending := pending - {id};
      }
    }

    method Close()
      modifies this
      ensures closed && pending == old(pending)
    {
      closed := true;
    }

    /** Hand over all entries so that their workers can be awaited. */
    method Drain() returns (drained: Pending)
      modifies this
      ensures closed == old(closed) && pending == map[] && drained == old(pending)
    {
      drained := pending;
      pending := map[];
    }

    method Reopen() returns (aborted: Pending)
      modifies this
      ensures !closed && pending == map[] && aborted == old(pending)
    {
      closed := false;
      aborted := pending;
      pending := map[];
    }
  }
}
