/**
 The order in which the events of a session arrive does not matter once the latest of them
 finishes a turn: that event alone decides what the session and its card show.
 */
module DeliveryOrder {
  import opened Basics
  import opened SessionTypes
  import opened ReducerModel
  import opened ReducerInvariant
  import opened AttentionCards

  datatype Delivery = Delivery(event: Event, at: u64, token: nat)

  function After(s: State, d: Delivery): State
    requires d.event.Valid()
  {
    ReduceAt(s, d.event, d.at, d.token).state
  }

  ghost predicate ValidDeliveries(ds: seq<Delivery>) {
    forall i :: 0 <= i < |ds| ==> ds[i].event.Valid()
  }

  ghost function DeliverAll(s: State, ds: seq<Delivery>): State
    requires ValidDeliveries(ds)
    decreases |ds|
  {
    if ds == [] then s else DeliverAll(After(s, ds[0]), ds[1..])
  }

  /** Events not delivered before: no pending delivery is remembered or already has a card. */
  ghost predicate Unseen(s: State, ds: seq<Delivery>) {
    forall i :: 0 <= i < |ds| ==>
      ds[i].event.Key() !in s.recentSet && ds[i].event.CardId() !in s.notifications
  }

  ghost predicate DistinctEvents(ds: seq<Delivery>) {
    forall i, j :: 0 <= i < j < |ds| ==> ds[i].event.Key() != ds[j].event.Key()
  }

  /** Events of the session are turn events, none later than `last`; other sessions are arbitrary. */
  ghost predicate AtMostLast(ds: seq<Delivery>, key: SessionKey, last: Event) {
    forall i :: 0 <= i < |ds| && ds[i].event.Owner() == key ==>
      ds[i].event.IsTurnEvent() && ds[i].event.Order().AtMost(last.Order())
  }

  // ---- One delivery ----

  /** Transitions do not look at the remembered deliveries. */
  lemma ApplyIgnoresRecent(s: State, ids: seq<EventKey>, keys: set<EventKey>, event: Event)
    requires event.Valid()
    ensures ApplyEvent(s.(recentIds := ids, recentSet := keys), event).0
            == ApplyEvent(s, event).0.(recentIds := ids, recentSet := keys)
    ensures ApplyEvent(s.(recentIds := ids, recentSet := keys), event).1 == ApplyEvent(s, event).1
    ensures ApplyEvent(s, event).0.notifications == s.notifications
  {
  }

  lemma DeliverShape(s: State, d: Delivery)
    requires d.event.Valid() && d.event.Key() !in s.recentSet
    ensures var (applied, transition) := ApplyEvent(s, d.event);
            && After(s, d).sessions == applied.sessions
            && After(s, d).notifications ==
                 (if transition.changed then SettledCards(s, d.event, transition, d.token) else s.notifications)
            && After(s, d).recentSet == RememberEvent(s, d.event.Key()).recentSet
  {
    var remembered := RememberEvent(s, d.event.Key());
    ApplyIgnoresRecent(s, remembered.recentIds, remembered.recentSet, d.event);
    var (applied, transition) := ApplyEvent(remembered, d.event);
    if transition.changed {
      SettleShape(applied, d.event, transition, d.at, d.token);
    }
  }

  lemma SettledCardIds(s: State, event: Event, transition: Transition, token: nat)
    ensures SettledCards(s, event, transition, token).Keys <= s.notifications.Keys + {event.CardId()}
  {
  }

  lemma DeliverGrows(s: State, d: Delivery)
    requires d.event.Valid() && d.event.Key() !in s.recentSet
    ensures After(s, d).recentSet <= s.recentSet + {d.event.Key()}
    ensures After(s, d).notifications.Keys <= s.notifications.Keys + {d.event.CardId()}
  {
    DeliverShape(s, d);
    SettledCardIds(s, d.event, ApplyEvent(s, d.event).1, d.token);
  }

  lemma DeliverKeepsUnseen(s: State, ds: seq<Delivery>)
    requires ds != [] && ValidDeliveries(ds) && Unseen(s, ds) && DistinctEvents(ds)
    ensures Unseen(After(s, ds[0]), ds[1..]) && DistinctEvents(ds[1..])
  {
    DeliverGrows(s, ds[0]);
    forall i | 0 <= i < |ds[1..]|
      ensures ds[1..][i].event.Key() !in After(s, ds[0]).recentSet
      ensures ds[1..][i].event.CardId() !in After(s, ds[0]).notifications
    {
      assert ds[1..][i] == ds[i + 1];
      assert ds[0].event.Key() != ds[i + 1].event.Key();
    }
  }

  // ---- Before and after the last event ----

  ghost predicate CardsBefore(s: State, key: SessionKey, last: Event) {
    forall id :: id in s.notifications && s.notifications[id].Owner() == key ==>
      s.notifications[id].Order().Before(last.Order())
  }

  ghost predicate RecordBefore(session: SessionRecord, last: Event) {
    && session.Order().Before(last.Order())
    && (forall turn :: turn in session.turns ==> session.turns[turn].Order().Before(last.Order()))
    && (forall turn :: turn in session.retired ==> turn in session.turns)
  }

  /** Everything known about the session precedes the last event. */
  ghost predicate Awaiting(s: State, key: SessionKey, last: Event) {
    && CardsBefore(s, key, last)
    && (key in s.sessions ==> RecordBefore(s.sessions[key], last))
  }

  function TerminalPhase(kind: EventKind): SessionPhase
    requires kind.IsTerminal()
  {
    if kind.TurnCompleted? then Completed else SessionPhase.Failed
  }

  /** The session and its card show exactly the last event. */
  ghost predicate ShowsLast(s: State, key: SessionKey, last: Delivery)
    requires last.event.IsTurnEvent() && last.event.kind.IsTerminal()
  {
    var event := last.event;
    && key in s.sessions
    && var session := s.sessions[key];
    && session.current == event.turn
    && !session.ended
    && session.updatedAt == event.occurredAt
    && event.turn.value in session.turns
    && session.turns[event.turn.value] == TurnRecord(TerminalPhase(event.kind), event.occurredAt, event.id)
    && event.CardId() in s.notifications
    && s.notifications[event.CardId()] == NewCard(event, TurnNotification(event.kind).value, last.token)
  }

  /** The cards of one session are the same in both maps. */
  ghost predicate SameCards(
    a: map<NotificationId, Notification>, b: map<NotificationId, Notification>, key: SessionKey)
  {
    && (forall id :: id in a && a[id].Owner() == key ==> id in b && b[id] == a[id])
    && (forall id :: id in b && b[id].Owner() == key ==> id in a && b[id] == a[id])
  }

  lemma ForeignInsert(
    cards: map<NotificationId, Notification>, event: Event, kind: NotificationKind, token: nat, key: SessionKey)
    requires event.Owner() != key
    ensures SameCards(cards, InsertNotification(cards, event, kind, token).0, key)
  {
  }

  lemma ForeignCards(s: State, event: Event, transition: Transition, token: nat, key: SessionKey)
    requires event.Owner() != key
    ensures SameCards(s.notifications, SettledCards(s, event, transition, token), key)
  {
    var resolved :=
      if transition.resolveAttention then ResolveAttention(s.notifications, event.Owner(), event.turn)
      else s.notifications;
    assert SameCards(s.notifications, resolved, key);
    if transition.notification.Some? {
      ForeignInsert(resolved, event, transition.notification.value, token, key);
    }
  }

  lemma ForeignDelivery(s: State, d: Delivery, key: SessionKey)
    requires SessionsOk(s.sessions) && d.event.Valid() && d.event.Key() !in s.recentSet && d.event.Owner() != key
    ensures var after := After(s, d);
            && (key in after.sessions <==> key in s.sessions)
            && (key in s.sessions ==> after.sessions[key] == s.sessions[key])
            && SameCards(s.notifications, after.notifications, key)
  {
    DeliverShape(s, d);
    ApplyKeepsSessions(s, d.event);
    ForeignCards(s, d.event, ApplyEvent(s, d.event).1, d.token, key);
  }

  lemma EarlierRecord(s: State, event: Event, last: Event)
    requires event.IsTurnEvent() && event.Order().Before(last.Order())
    requires event.Owner() in s.sessions ==> RecordBefore(s.sessions[event.Owner()], last)
    requires event.Owner() in s.sessions ==> SessionOk(event.Owner(), s.sessions[event.Owner()])
    ensures RecordBefore(ApplyTurnEvent(s, event).0.sessions[event.Owner()], last)
  {
    var session := if event.Owner() in s.sessions then s.sessions[event.Owner()] else NewSession(event);
    if session.current.Some? {
      WithoutElements(session.retired, session.current.value);
      var ids := Without(session.retired, session.current.value) + [session.current.value];
      forall turn | turn in Newest(ids, MAX_RETIRED_TURNS)
        ensures turn in session.turns
      {
        assert turn in ids;
        assert turn == session.current.value || turn in Elements(Without(session.retired, session.current.value));
      }
    }
  }

  lemma EarlierCards(s: State, event: Event, transition: Transition, token: nat, key: SessionKey, last: Event)
    requires CardsBefore(s, key, last) && event.Order().Before(last.Order())
    ensures CardsBefore(s.(notifications := SettledCards(s, event, transition, token)), key, last)
  {
    var resolved :=
      if transition.resolveAttention then ResolveAttention(s.notifications, event.Owner(), event.turn)
      else s.notifications;
    if transition.notification.Some? {
      var cards := InsertNotification(resolved, event, transition.notification.value, token).0;
      forall id | id in cards && cards[id].Owner() == key
        ensures cards[id].Order().Before(last.Order())
      {
        InsertedCard(resolved, event, transition.notification.value, token, id);
      }
    }
  }

  lemma EarlierDelivery(s: State, d: Delivery, last: Event)
    requires Inv(s) && d.event.IsTurnEvent() && d.event.Key() !in s.recentSet
    requires d.event.Order().Before(last.Order())
    requires Awaiting(s, d.event.Owner(), last)
    ensures Awaiting(After(s, d), d.event.Owner(), last)
  {
    DeliverShape(s, d);
    EarlierRecord(s, d.event, last);
    var (_, transition) := ApplyTurnEvent(s, d.event);
    EarlierCards(s, d.event, transition, d.token, d.event.Owner(), last);
  }

  lemma LastRecord(s: State, last: Event)
    requires last.IsTurnEvent() && last.kind.IsTerminal()
    requires last.Owner() in s.sessions ==> RecordBefore(s.sessions[last.Owner()], last)
    ensures var (after, transition) := ApplyTurnEvent(s, last);
            && transition == Transition(true, TurnNotification(last.kind), true)
            && var session := after.sessions[last.Owner()];
               session.current == last.turn && !session.ended && session.updatedAt == last.occurredAt
               && last.turn.value in session.turns
               && session.turns[last.turn.value] == TurnRecord(TerminalPhase(last.kind), last.occurredAt, last.id)
  {
  }

  lemma LastCard(s: State, last: Event, token: nat)
    requires last.IsTurnEvent() && last.kind.IsTerminal() && last.CardId() !in s.notifications
    requires CardsBefore(s, last.Owner(), last)
    ensures var cards := SettledCards(s, last, Transition(true, TurnNotification(last.kind), true), token);
            last.CardId() in cards && cards[last.CardId()] == NewCard(last, TurnNotification(last.kind).value, token)
  {
    var resolved := ResolveAttention(s.notifications, last.Owner(), last.turn);
    assert !HasNewerCard(resolved, last);
  }

  lemma LastDelivery(s: State, last: Delivery)
    requires Inv(s) && last.event.IsTurnEvent() && last.event.kind.IsTerminal()
    requires last.event.Key() !in s.recentSet && last.event.CardId() !in s.notifications
    requires Awaiting(s, last.event.Owner(), last.event)
    ensures ShowsLast(After(s, last), last.event.Owner(), last)
  {
    DeliverShape(s, last);
    LastRecord(s, last.event);
    LastCard(s, last.event, last.token);
  }

  lemma LateRecord(s: State, event: Event, last: Delivery)
    requires event.IsTurnEvent() && last.event.IsTurnEvent() && last.event.kind.IsTerminal()
    requires event.Order().Before(last.event.Order()) && event.Owner() == last.event.Owner()
    requires ShowsLast(s, event.Owner(), last)
    ensures var session := ApplyTurnEvent(s, event).0.sessions[event.Owner()];
            && session.current == last.event.turn && session.updatedAt == last.event.occurredAt && !session.ended
            && last.event.turn.value in session.turns
            && session.turns[last.event.turn.value] == s.sessions[event.Owner()].turns[last.event.turn.value]
  {
  }

  lemma LateDelivery(s: State, d: Delivery, last: Delivery)
    requires Inv(s) && d.event.IsTurnEvent() && d.event.Key() !in s.recentSet
    requires last.event.IsTurnEvent() && last.event.kind.IsTerminal()
    requires d.event.Order().Before(last.event.Order()) && d.event.Owner() == last.event.Owner()
    requires ShowsLast(s, d.event.Owner(), last)
    ensures ShowsLast(After(s, d), d.event.Owner(), last)
  {
    DeliverShape(s, d);
    LateRecord(s, d.event, last);
    var (_, transition) := ApplyTurnEvent(s, d.event);
    var resolved :=
      if transition.resolveAttention then ResolveAttention(s.notifications, d.event.Owner(), d.event.turn)
      else s.notifications;
    var id := last.event.CardId();
    assert resolved[id] == s.notifications[id];
    assert HasNewerCard(resolved, d.event);
  }

  // ---- All deliveries ----

  ghost predicate OnTrack(s: State, ds: seq<Delivery>, last: Delivery)
    requires last.event.IsTurnEvent() && last.event.kind.IsTerminal()
  {
    if last in ds then Awaiting(s, last.event.Owner(), last.event)
    else ShowsLast(s, last.event.Owner(), last) && forall d :: d in ds ==> d.event.Key() != last.event.Key()
  }

  lemma LaterKeysDiffer(ds: seq<Delivery>)
    requires ds != [] && DistinctEvents(ds)
    ensures forall d :: d in ds[1..] ==> d.event.Key() != ds[0].event.Key()
  {
    forall d | d in ds[1..]
      ensures d.event.Key() != ds[0].event.Key()
    {
      var i :| 0 <= i < |ds[1..]| && ds[1..][i] == d;
      assert ds[i + 1] == d;
    }
  }

  lemma StaysOnTrack(s: State, ds: seq<Delivery>, last: Delivery)
    requires Inv(s) && ds != [] && ValidDeliveries(ds) && Unseen(s, ds) && DistinctEvents(ds)
    requires last.event.IsTurnEvent() && last.event.kind.IsTerminal()
    requires AtMostLast(ds, last.event.Owner(), last.event)
    requires OnTrack(s, ds, last)
    ensures OnTrack(After(s, ds[0]), ds[1..], last)
  {
    var d := ds[0];
    LaterKeysDiffer(ds);
    assert ds == [d] + ds[1..];
    if d == last {
      LastDelivery(s, last);
    } else if d.event.Owner() != last.event.Owner() {
      ForeignDelivery(s, d, last.event.Owner());
    } else {
      assert d.event.Key() != last.event.Key();
      if last in ds {
        EarlierDelivery(s, d, last.event);
      } else {
        LateDelivery(s, d, last);
      }
    }
  }

  lemma {:induction false} LastWins(s: State, ds: seq<Delivery>, last: Delivery)
    requires Inv(s) && ValidDeliveries(ds) && Unseen(s, ds) && DistinctEvents(ds)
    requires last.event.IsTurnEvent() && last.event.kind.IsTerminal()
    requires AtMostLast(ds, last.event.Owner(), last.event)
    requires OnTrack(s, ds, last)
    ensures ShowsLast(DeliverAll(s, ds), last.event.Owner(), last)
    ensures Inv(DeliverAll(s, ds))
    decreases |ds|
  {
    if ds != [] {
      DeliverKeepsInv(s, ds[0].event, ds[0].at, ds[0].token);
      DeliverKeepsUnseen(s, ds);
      StaysOnTrack(s, ds, last);
      LastWins(After(s, ds[0]), ds[1..], last);
    }
  }

  /**
   A session not seen before, any turn events of it interleaved with any events of other sessions,
   all distinct; the greatest event of the session finishes a turn. Whatever the order of arrival
   and the acceptance times, session and card show exactly that event.
   */
  lemma LatestTerminalEventDecides(s: State, ds: seq<Delivery>, last: Delivery)
    requires Inv(s) && ValidDeliveries(ds) && Unseen(s, ds) && DistinctEvents(ds) && last in ds
    requires last.event.IsTurnEvent() && last.event.kind.IsTerminal()
    requires last.event.Owner() !in s.sessions
    requires AtMostLast(ds, last.event.Owner(), last.event)
    ensures var after := DeliverAll(s, ds);
            var key := last.event.Owner();
            && key in after.sessions
            && after.sessions[key].Phase() == TerminalPhase(last.event.kind)
            && after.sessions[key].current == last.event.turn
            && after.sessions[key].updatedAt == last.event.occurredAt
            && (forall id :: id in after.notifications && after.notifications[id].Owner() == key
                  <==> id == last.event.CardId())
            && after.notifications[last.event.CardId()]
                 == NewCard(last.event, TurnNotification(last.event.kind).value, last.token)
  {
    LastWins(s, ds, last);
  }

  /** Two arrival orders of the same deliveries end in the same visible session and the same card. */
  lemma ArrivalOrderIrrelevant(s: State, ds: seq<Delivery>, es: seq<Delivery>, last: Delivery)
    requires Inv(s) && ValidDeliveries(ds) && Unseen(s, ds) && DistinctEvents(ds) && last in ds
    requires multiset(es) == multiset(ds) && ValidDeliveries(es)
    requires last.event.IsTurnEvent() && last.event.kind.IsTerminal()
    requires last.event.Owner() !in s.sessions
    requires AtMostLast(ds, last.event.Owner(), last.event)
    ensures var key := last.event.Owner();
            var a, b := DeliverAll(s, ds), DeliverAll(s, es);
            && key in a.sessions && key in b.sessions
            && a.sessions[key].Phase() == b.sessions[key].Phase()
            && a.sessions[key].current == b.sessions[key].current
            && a.sessions[key].updatedAt == b.sessions[key].updatedAt
            && (forall id :: id in a.notifications && a.notifications[id].Owner() == key <==>
                             id in b.notifications && b.notifications[id].Owner() == key)
            && (forall id :: id in a.notifications && a.notifications[id].Owner() == key ==>
                             a.notifications[id] == b.notifications[id])
  {
    assert forall d :: d in es <==> d in multiset(es);
    assert forall d :: d in ds <==> d in multiset(ds);
    forall i | 0 <= i < |es|
      ensures es[i] in ds
    {
      assert es[i] in multiset(es);
    }
    assert DistinctEvents(es) by { PermutedDistinct(ds, es); }
    LatestTerminalEventDecides(s, ds, last);
    LatestTerminalEventDecides(s, es, last);
  }

  lemma PermutedDistinct(ds: seq<Delivery>, es: seq<Delivery>)
    requires DistinctEvents(ds) && multiset(es) == multiset(ds)
    ensures DistinctEvents(es)
  {
    forall i, j | 0 <= i < j < |es|
      ensures es[i].event.Key() != es[j].event.Key()
    {
      assert es[i] in multiset(es) && es[j] in multiset(es);
      var k :| 0 <= k < |ds| && ds[k] == es[i];
      var l :| 0 <= l < |ds| && ds[l] == es[j];
      if k == l {
        TwiceCounted(es, i, j);
        OnceCounted(ds, k);
      }
    }
  }

  lemma TwiceCounted(es: seq<Delivery>, i: nat, j: nat)
    requires i < j < |es| && es[i] == es[j]
    ensures multiset(es)[es[i]] >= 2
  {
    assert es == es[..j] + es[j..];
    assert es[i] == es[..j][i] && es[j] == es[j..][0];
    assert es[i] in multiset(es[..j]) && es[i] in multiset(es[j..]);
  }

  lemma OnceCounted(ds: seq<Delivery>, k: nat)
    requires k < |ds| && DistinctEvents(ds)
    ensures multiset(ds)[ds[k]] == 1
  {
    assert ds == ds[..k] + [ds[k]] + ds[k + 1..];
    assert ds[k] !in ds[..k] && ds[k] !in ds[k + 1..];
  }
}
