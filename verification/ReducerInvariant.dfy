/** What every operation of the reducer keeps, over every run. */
module ReducerInvariant {
  import opened Basics
  import opened SessionTypes
  import opened ReducerModel

  // ---- The invariant ----

  ghost predicate SessionOk(key: SessionKey, session: SessionRecord) {
    && session.Key() == key
    && (session.current.Some? ==> session.current.value in session.turns)
    && Distinct(session.retired)
    && |session.retired| <= MAX_RETIRED_TURNS
  }

  ghost predicate SessionsOk(sessions: map<SessionKey, SessionRecord>) {
    forall key :: key in sessions ==> SessionOk(key, sessions[key])
  }

  /** Cards sit under their own identity, and a session has at most one of them. */
  ghost predicate CardsOk(cards: map<NotificationId, Notification>) {
    && (forall id :: id in cards ==> cards[id].id == id)
    && (forall id, other :: id in cards && other in cards && cards[id].Owner() == cards[other].Owner()
          ==> id == other)
  }

  ghost predicate CardsOwned(cards: map<NotificationId, Notification>, sessions: map<SessionKey, SessionRecord>) {
    forall id :: id in cards ==> cards[id].Owner() in sessions
  }

  ghost predicate RecentOk(s: State) {
    && Distinct(s.recentIds)
    && Elements(s.recentIds) == s.recentSet
    && |s.recentIds| <= MAX_RECENT_EVENT_IDS
  }

  ghost predicate Inv(s: State) {
    SessionsOk(s.sessions) && CardsOk(s.notifications) && CardsOwned(s.notifications, s.sessions) && RecentOk(s)
  }

  /** No unresolved attention card speaks of a turn recorded as completed or failed. */
  ghost predicate AttentionOpen(s: State) {
    forall id :: id in s.notifications && s.notifications[id].IsUnresolvedAttention() ==>
      var card := s.notifications[id];
      card.Owner() in s.sessions ==>
        var session := s.sessions[card.Owner()];
        card.turn.Some? && card.turn.value in session.turns ==> !session.turns[card.turn.value].phase.IsTerminal()
  }

  /** No unresolved attention card belongs to an ended session. */
  ghost predicate EndedQuiet(s: State) {
    forall id :: id in s.notifications && s.notifications[id].IsUnresolvedAttention() ==>
      s.notifications[id].Owner() in s.sessions ==> !s.sessions[s.notifications[id].Owner()].ended
  }

  // ---- Operations and runs ----

  datatype Op =
    | Deliver(event: Event, at: u64, token: nat)
    | Dismiss(id: NotificationId, now: u64)
    | Tick(now: u64)
    | Remind(startedAt: u64)
    | Title(original: Notification, title: string)
  {
    predicate Valid() { Deliver? ==> event.Valid() }
  }

  function Do(s: State, op: Op): State
    requires op.Valid()
  {
    match op
    case Deliver(event, at, token) => ReduceAt(s, event, at, token).state
    case Dismiss(id, now) => Acknowledge(s, id, now).state
    case Tick(now) => Advance(s, now).state
    case Remind(startedAt) => RestartActivityReminder(s, startedAt)
    case Title(original, title) => UpdateTitle(s, original, title).0
  }

  ghost predicate ValidOps(ops: seq<Op>) {
    forall i :: 0 <= i < |ops| ==> ops[i].Valid()
  }

  ghost function Run(s: State, ops: seq<Op>): State
    requires ValidOps(ops)
    decreases |ops|
  {
    if ops == [] then s else Run(Do(s, ops[0]), ops[1..])
  }

  // ---- Bounded queues ----

  lemma {:induction false} WithoutElements<T>(s: seq<T>, x: T)
    ensures Elements(Without(s, x)) == Elements(s) - {x}
    ensures |Without(s, x)| <= |s|
    ensures x in s ==> |Without(s, x)| < |s|
    ensures x !in s ==> Without(s, x) == s
    ensures Distinct(s) ==> Distinct(Without(s, x))
  {
    if s != [] {
      WithoutElements(s[1..], x);
      assert s == [s[0]] + s[1..];
      assert Elements(s) == {s[0]} + Elements(s[1..]);
      var rest := Without(s[1..], x);
      if s[0] != x {
        assert Elements([s[0]] + rest) == {s[0]} + Elements(rest);
        if Distinct(s) {
          assert forall i :: 0 <= i < |rest| ==> rest[i] in Elements(rest);
          assert forall y :: y in Elements(rest) ==> y in s[1..];
          assert s[0] !in s[1..];
        }
      }
    }
  }

  lemma DistinctSplit<T>(s: seq<T>, n: nat)
    requires Distinct(s) && n <= |s|
    ensures Distinct(s[n..])
    ensures Elements(s[n..]) == Elements(s) - Elements(s[..n])
  {
    forall x
      ensures x in s[n..] <==> x in s && x !in s[..n]
    {
      if x in s[n..] {
        var j :| 0 <= j < |s| - n && s[n..][j] == x;
        assert s[n + j] == x;
      }
    }
  }

  /** Moving an element to the back of a distinct queue. */
  lemma Requeued<T>(s: seq<T>, x: T)
    requires Distinct(s)
    ensures Distinct(Without(s, x) + [x])
    ensures Elements(Without(s, x) + [x]) == Elements(s) + {x}
  {
    WithoutElements(s, x);
    var base := Without(s, x);
    assert Elements(base + [x]) == Elements(base) + {x};
    forall i | 0 <= i < |base|
      ensures base[i] != x
    {
      assert base[i] in Elements(base);
    }
  }

  /** Appending to a distinct bounded queue keeps it distinct and bounded. */
  lemma QueueAppend<T>(s: seq<T>, x: T, limit: nat)
    requires Distinct(s) && |s| <= limit && limit > 0
    ensures var ids := Without(s, x) + [x];
            var kept := Newest(ids, limit);
            && Distinct(kept) && 0 < |kept| <= limit && kept[|kept| - 1] == x
            && |kept| == (if |ids| <= limit then |ids| else limit)
            && Elements(kept) == Elements(s) + {x} - Elements(ids[..|ids| - |kept|])
  {
    Requeued(s, x);
    var ids := Without(s, x) + [x];
    var kept := Newest(ids, limit);
    DistinctSplit(ids, |ids| - |kept|);
    assert ids[|ids| - |kept|..] == kept;
    assert kept[|kept| - 1] == x;
  }

  lemma RememberKeepsRecent(s: State, key: EventKey)
    requires RecentOk(s)
    ensures RecentOk(RememberEvent(s, key))
    ensures key in RememberEvent(s, key).recentSet
  {
    QueueAppend(s.recentIds, key, MAX_RECENT_EVENT_IDS);
    WithoutElements(s.recentIds, key);
    var after := RememberEvent(s, key);
    assert key in after.recentIds;
    assert key in Elements(after.recentIds);
  }

  // ---- One event ----

  lemma RetiredStaysBounded(session: SessionRecord, turn: TurnId)
    requires Distinct(session.retired) && |session.retired| <= MAX_RETIRED_TURNS
    ensures Distinct(RememberRetired(session, turn).retired)
    ensures 0 < |RememberRetired(session, turn).retired| <= MAX_RETIRED_TURNS
    ensures var retired := RememberRetired(session, turn).retired; retired[|retired| - 1] == turn
    ensures |session.retired| < MAX_RETIRED_TURNS ==>
      Elements(RememberRetired(session, turn).retired) == Elements(session.retired) + {turn}
  {
    QueueAppend(session.retired, turn, MAX_RETIRED_TURNS);
    Requeued(session.retired, turn);
    WithoutElements(session.retired, turn);
  }

  ghost predicate ChangesOneSession(s: State, after: State, key: SessionKey) {
    && after == s.(sessions := after.sessions)
    && s.sessions.Keys <= after.sessions.Keys <= s.sessions.Keys + {key}
    && (forall other :: other in s.sessions && other != key ==> after.sessions[other] == s.sessions[other])
  }

  lemma ApplyTurnKeepsSessions(s: State, event: Event)
    requires event.IsTurnEvent() && SessionsOk(s.sessions)
    ensures var after := ApplyTurnEvent(s, event).0;
            SessionsOk(after.sessions) && ChangesOneSession(s, after, event.Owner()) && event.Owner() in after.sessions
  {
    var session := if event.Owner() in s.sessions then s.sessions[event.Owner()] else NewSession(event);
    if session.current.Some? {
      RetiredStaysBounded(session, session.current.value);
    }
    assert SessionOk(event.Owner(), ApplyTurnEvent(s, event).0.sessions[event.Owner()]);
  }

  lemma ApplySessionKeepsSessions(s: State, event: Event)
    requires event.kind.IsSessionScoped() && SessionsOk(s.sessions)
    ensures var after := ApplySessionEvent(s, event).0;
            SessionsOk(after.sessions) && ChangesOneSession(s, after, event.Owner()) && event.Owner() in after.sessions
  {
  }

  lemma ApplyKeepsSessions(s: State, event: Event)
    requires event.Valid() && SessionsOk(s.sessions)
    ensures var after := ApplyEvent(s, event).0;
            SessionsOk(after.sessions) && ChangesOneSession(s, after, event.Owner()) && event.Owner() in after.sessions
  {
    if event.IsTurnEvent() {
      ApplyTurnKeepsSessions(s, event);
    } else {
      ApplySessionKeepsSessions(s, event);
    }
  }

  lemma InsertKeepsCards(cards: map<NotificationId, Notification>, event: Event, kind: NotificationKind, token: nat)
    requires CardsOk(cards)
    ensures CardsOk(InsertNotification(cards, event, kind, token).0)
  {
  }

  lemma ResolveKeepsCards(cards: map<NotificationId, Notification>, key: SessionKey, turn: Option<TurnId>)
    requires CardsOk(cards)
    ensures CardsOk(ResolveAttention(cards, key, turn))
  {
    var after := ResolveAttention(cards, key, turn);
    assert forall id :: id in after ==> after[id].id == cards[id].id && after[id].Owner() == cards[id].Owner();
  }

  /** Settling touches only the cards and what the pet shows; the cards come from the two card edits. */
  ghost function SettledCards(s: State, event: Event, transition: Transition, token: nat)
    : map<NotificationId, Notification>
  {
    var resolved :=
      if transition.resolveAttention then ResolveAttention(s.notifications, event.Owner(), event.turn)
      else s.notifications;
    if transition.notification.Some?
    then InsertNotification(resolved, event, transition.notification.value, token).0
    else resolved
  }

  lemma SettleShape(s: State, event: Event, transition: Transition, at: u64, token: nat)
    ensures var after := Settle(s, event, transition, at, token);
            after == s.(notifications := SettledCards(s, event, transition, token),
                        presentation := after.presentation,
                        reminderUntil := after.reminderUntil)
  {
  }

  lemma SettledCardsOk(s: State, event: Event, transition: Transition, token: nat)
    requires CardsOk(s.notifications) && CardsOwned(s.notifications, s.sessions) && event.Owner() in s.sessions
    ensures CardsOk(SettledCards(s, event, transition, token))
    ensures CardsOwned(SettledCards(s, event, transition, token), s.sessions)
  {
    var resolved :=
      if transition.resolveAttention then ResolveAttention(s.notifications, event.Owner(), event.turn)
      else s.notifications;
    ResolveKeepsCards(s.notifications, event.Owner(), event.turn);
    assert CardsOk(resolved) && CardsOwned(resolved, s.sessions);
    if transition.notification.Some? {
      InsertKeepsCards(resolved, event, transition.notification.value, token);
    }
  }

  lemma DeliverKeepsInv(s: State, event: Event, at: u64, token: nat)
    requires Inv(s) && event.Valid()
    ensures Inv(ReduceAt(s, event, at, token).state)
  {
    if !IsDuplicate(s, event) {
      RememberKeepsRecent(s, event.Key());
      var remembered := RememberEvent(s, event.Key());
      ApplyKeepsSessions(remembered, event);
      var (applied, transition) := ApplyEvent(remembered, event);
      assert Inv(applied);
      if transition.changed {
        SettleShape(applied, event, transition, at, token);
        SettledCardsOk(applied, event, transition, token);
      }
    }
  }

  lemma OpKeepsInv(s: State, op: Op)
    requires Inv(s) && op.Valid()
    ensures Inv(Do(s, op))
  {
    if op.Deliver? {
      DeliverKeepsInv(s, op.event, op.at, op.token);
    }
  }

  /** Every state of every run is well formed. */
  lemma {:induction false} RunKeepsInv(s: State, ops: seq<Op>)
    requires Inv(s) && ValidOps(ops)
    ensures Inv(Run(s, ops))
    decreases |ops|
  {
    if ops != [] {
      OpKeepsInv(s, ops[0]);
      RunKeepsInv(Do(s, ops[0]), ops[1..]);
    }
  }
}
