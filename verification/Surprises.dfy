/** Short runs on which tempting claims about the reducer fail. */
module Surprises {
  import opened Basics
  import opened SessionTypes
  import opened ReducerModel
  import opened ReducerInvariant
  import opened AttentionCards
  import opened DeliveryOrder
  import opened PersistenceModel
  import opened RestoreNormalForm
  import opened DeliveryOnce
  import opened RetiredTurns
  import opened Restarts

  const KEY := SessionKey(0, 0)

  function TurnEvent(id: EventId, kind: EventKind, turn: TurnId, at: u64): Event {
    Event(id, 0, kind, 0, Some(turn), at, None, None)
  }

  lemma Deliver(s: State, d: Delivery)
    requires Inv(s) && d.event.Valid() && d.event.Key() !in s.recentSet
    ensures Inv(After(s, d))
    ensures After(s, d).sessions == ApplyEvent(s, d.event).0.sessions
    ensures After(s, d).recentSet <= s.recentSet + {d.event.Key()}
  {
    DeliverShape(s, d);
    DeliverGrows(s, d);
    DeliverKeepsInv(s, d.event, d.at, d.token);
  }

  lemma DeliverTurn(s: State, d: Delivery)
    requires Inv(s) && d.event.IsTurnEvent() && d.event.Key() !in s.recentSet
    ensures Inv(After(s, d))
    ensures After(s, d).sessions == ApplyTurnEvent(s, d.event).0.sessions
    ensures After(s, d).recentSet <= s.recentSet + {d.event.Key()}
  {
    Deliver(s, d);
  }

  /** A state in which nothing has happened. */
  ghost predicate Blank(s: State) {
    Inv(s) && s.sessions == map[] && s.notifications == map[] && s.recentSet == {}
  }

  // ---- An attention card on an ended session ----

  const ASKED := Delivery(TurnEvent(1, AttentionRequired, 1, 1), 1, 1)
  const ENDED := Delivery(Event(2, 0, SessionEnded, 0, Some(2), 2, None, None), 2, 2)

  lemma AskedOpensCard(start: State)
    requires Blank(start)
    ensures var asked := After(start, ASKED);
            && asked.recentSet <= {ASKED.event.Key()}
            && Inv(asked) && EndedQuiet(asked)
            && KEY in asked.sessions && asked.sessions[KEY].Order() == ASKED.event.Order()
            && ASKED.event.CardId() in asked.notifications
            && asked.notifications[ASKED.event.CardId()] == NewCard(ASKED.event, NotificationKind.Attention, 1)
  {
    DeliverTurn(start, ASKED);
    EndedQuietExactly(start, ASKED.event, ASKED.at, ASKED.token);
    DeliverShape(start, ASKED);
  }

  lemma EndedKeepsCard(start: State)
    requires Blank(start)
    ensures !EndedQuiet(After(After(start, ASKED), ENDED))
  {
    AskedOpensCard(start);
    EndedQuietExactly(After(start, ASKED), ENDED.event, ENDED.at, ENDED.token);
  }

  /** An ending that names turn 2 leaves the attention card of turn 1 on an ended session. */
  lemma EndedSessionMayKeepAttention()
    ensures !EndedQuiet(After(After(INITIAL, ASKED), ENDED))
  {
    EndedKeepsCard(INITIAL);
  }

  // ---- A saved state that does not restore ----

  const FIRST := Delivery(TurnEvent(1, TurnStarted, 1, 1), 1, 1)
  const SECOND := Delivery(TurnEvent(2, TurnStarted, 2, 2), 2, 2)
  const LATE := Delivery(TurnEvent(3, AttentionRequired, 1, 3), 3, 3)

  const RUNNING := TurnRecord(Active, 1, 1)
  const NEXT := TurnRecord(Active, 2, 2)
  const ONE_TURN := SessionRecord(0, 0, Some(1), map[1 := RUNNING], [], None, 1, 1, false)
  const TWO_TURNS := SessionRecord(0, 0, Some(2), map[1 := RUNNING, 2 := NEXT], [1], None, 2, 2, false)

  lemma FirstTurn(start: State)
    requires Blank(start)
    ensures var s := After(start, FIRST);
            Inv(s) && s.recentSet <= {FIRST.event.Key()} && s.sessions == map[KEY := ONE_TURN]
  {
    DeliverTurn(start, FIRST);
  }

  lemma SecondTurn(s: State)
    requires s.sessions == map[KEY := ONE_TURN]
    ensures ApplyTurnEvent(s, SECOND.event).0.sessions == map[KEY := TWO_TURNS]
  {
    assert Without<TurnId>([], 1) == [];
    assert RememberRetired(ONE_TURN, 1).retired == [1];
    assert ONE_TURN.turns[2 := NEXT] == TWO_TURNS.turns;
    assert ApplyTurnEvent(s, SECOND.event).0.sessions[KEY] == TWO_TURNS;
  }

  lemma LateTurn(s: State)
    requires s.sessions == map[KEY := TWO_TURNS]
    ensures var after := ApplyTurnEvent(s, LATE.event).0.sessions;
            after.Keys == {KEY} && after[KEY].current == Some(1) && after[KEY].retired == [1]
  {
  }

  function AfterLate(start: State): State {
    After(After(After(start, FIRST), SECOND), LATE)
  }

  lemma LateSession(start: State)
    requires Blank(start)
    ensures var late := AfterLate(start);
            && Inv(late) && late.sessions.Keys == {KEY}
            && late.sessions[KEY].current == Some(1) && late.sessions[KEY].retired == [1]
  {
    FirstTurn(start);
    var first := After(start, FIRST);
    DeliverTurn(first, SECOND);
    SecondTurn(first);
    var second := After(first, SECOND);
    DeliverTurn(second, LATE);
    LateTurn(second);
  }

  /** A session that is alone is kept. */
  lemma SessionIsKept(s: State, key: SessionKey)
    requires s.sessions.Keys == {key}
    ensures key in KeptKeys(s)
  {
    StrongestIsKept(s, key);
    KeptRanksSorted(s);
    assert KeptRanks(s)[0] in KeptRanks(s);
  }

  /** Turn 1, turn 2, then a late event of turn 1: what is saved afterwards cannot be restored. */
  lemma LateEventBlocksRestore(token: nat)
    ensures Inv(AfterLate(INITIAL)) && Restore(Persist(AfterLate(INITIAL)), token) == Err(RetiredCurrentTurn)
  {
    LateSession(INITIAL);
    var late := AfterLate(INITIAL);
    SessionIsKept(late, KEY);
    assert RetiresCurrent(late.sessions[KEY]);
    SaveRestoreNormalForm(late, token);
  }

  // ---- Runs of one session ----

  /** A state of that one session that remembers at most those events. */
  ghost predicate Holds(s: State, session: SessionRecord, ids: set<EventId>) {
    && s.sessions == map[KEY := session]
    && forall key :: key in s.recentSet ==> key.event in ids
  }

  /** The state in which the deliveries end; a step at a time, so that each can be looked at alone. */
  ghost predicate EndsIn(s: State, ds: seq<Delivery>, end: State) {
    if ds == [] then end == s
    else exists before :: EndsIn(s, AllButLast(ds), before) && Leads(before, Last(ds), end)
  }

  function AllButLast(ds: seq<Delivery>): seq<Delivery>
    requires ds != []
  {
    ds[..|ds| - 1]
  }

  function Last(ds: seq<Delivery>): Delivery
    requires ds != []
  {
    ds[|ds| - 1]
  }

  ghost predicate Leads(before: State, d: Delivery, end: State) {
    d.event.Valid() && end == After(before, d)
  }

  lemma {:induction false} EndsWell(s: State, ds: seq<Delivery>, end: State)
    requires Inv(s) && EndsIn(s, ds, end)
    ensures Inv(end)
    decreases |ds|
  {
    if ds != [] {
      var before :| EndsIn(s, AllButLast(ds), before) && Leads(before, Last(ds), end);
      EndsWell(s, AllButLast(ds), before);
      DeliverKeepsInv(before, Last(ds).event, Last(ds).at, Last(ds).token);
    }
  }

  lemma Continue(
    start: State, ds: seq<Delivery>, s: State, session: SessionRecord, ids: set<EventId>,
    d: Delivery, next: SessionRecord)
    returns (end: State)
    requires Inv(start) && EndsIn(start, ds, s) && Holds(s, session, ids)
    requires d.event.Valid() && d.event.id !in ids && Gives(session, d.event, next)
    ensures EndsIn(start, ds + [d], end) && Holds(end, next, ids + {d.event.id})
  {
    EndsWell(start, ds, s);
    end := After(s, d);
    Deliver(s, d);
    assert AllButLast(ds + [d]) == ds && Last(ds + [d]) == d;
    assert Leads(s, d, end);
  }

  /** Applied to a state of that one session, the event makes the session that. */
  ghost predicate Gives(session: SessionRecord, event: Event, next: SessionRecord)
    requires event.Valid()
  {
    forall s: State :: s.sessions == map[KEY := session] ==> ApplyEvent(s, event).0.sessions == map[KEY := next]
  }

  // ---- Events of one millisecond ----

  const STARTED_1 := Delivery(TurnEvent(1, TurnStarted, 1, 5), 5, 1)
  const STARTED_2 := Delivery(TurnEvent(9, TurnStarted, 2, 5), 5, 2)
  const RESOLVED_1 := Delivery(TurnEvent(3, AttentionResolved, 1, 5), 5, 3)
  const STARTED_3 := Delivery(TurnEvent(4, TurnStarted, 3, 5), 5, 4)

  const AT_1 := TurnRecord(Active, 5, 1)
  const AT_9 := TurnRecord(Active, 5, 9)
  const ONE := SessionRecord(0, 0, Some(1), map[1 := AT_1], [], None, 5, 1, false)
  const TWO := SessionRecord(0, 0, Some(2), map[1 := AT_1, 2 := AT_9], [1], None, 5, 9, false)
  const RESOLVED := TWO.(turns := map[1 := TurnRecord(Active, 5, 3), 2 := AT_9], lastEvent := 3)
  const PAST_3 := RESOLVED.(
    turns := RESOLVED.turns[3 := TurnRecord(Active, 5, 4)], retired := [1, 2], lastEvent := 4)

  const ONE_STARTED := [STARTED_1]
  const TWO_STARTED := ONE_STARTED + [STARTED_2]

  lemma StartOne(start: State) returns (s: State)
    requires Blank(start)
    ensures EndsIn(start, ONE_STARTED, s) && Holds(s, ONE, {1})
  {
    s := After(start, STARTED_1);
    Deliver(start, STARTED_1);
    assert AllButLast(ONE_STARTED) == [];
    assert EndsIn(start, [], start);
    assert Leads(start, STARTED_1, s);
  }

  lemma StartTwo()
    ensures Gives(ONE, STARTED_2.event, TWO)
  {
    assert Without<TurnId>([], 1) == [];
    assert RememberRetired(ONE, 1).retired == [1];
    assert ONE.turns[2 := AT_9] == TWO.turns;
    forall s: State | s.sessions == map[KEY := ONE]
      ensures ApplyEvent(s, STARTED_2.event).0.sessions == map[KEY := TWO]
    {
      assert ApplyEvent(s, STARTED_2.event).0.sessions[KEY] == TWO;
    }
  }

  /** The session's last event falls back to an earlier one of the same millisecond. */
  lemma ResolveOne()
    ensures Gives(TWO, RESOLVED_1.event, RESOLVED)
  {
    assert TWO.turns[1 := TurnRecord(Active, 5, 3)] == RESOLVED.turns;
    forall s: State | s.sessions == map[KEY := TWO]
      ensures ApplyEvent(s, RESOLVED_1.event).0.sessions == map[KEY := RESOLVED]
    {
      assert ApplyEvent(s, RESOLVED_1.event).0.sessions[KEY] == RESOLVED;
    }
  }

  lemma StartThree()
    ensures Gives(RESOLVED, STARTED_3.event, PAST_3) && RetiresCurrent(PAST_3)
  {
    assert Without<TurnId>([1], 2) == [1] by {
      assert [1][1..] == [];
    }
    assert RememberRetired(RESOLVED, 2).retired == [1, 2];
    forall s: State | s.sessions == map[KEY := RESOLVED]
      ensures ApplyEvent(s, STARTED_3.event).0.sessions == map[KEY := PAST_3]
    {
      assert ApplyEvent(s, STARTED_3.event).0.sessions[KEY] == PAST_3;
    }
  }

  lemma TakeTwo(start: State, ds: seq<Delivery>, s: State, ids: set<EventId>) returns (end: State)
    requires Inv(start) && EndsIn(start, ds, s) && Holds(s, ONE, ids) && STARTED_2.event.id !in ids
    ensures EndsIn(start, ds + [STARTED_2], end) && Holds(end, TWO, ids + {STARTED_2.event.id})
  {
    StartTwo();
    end := Continue(start, ds, s, ONE, ids, STARTED_2, TWO);
  }

  lemma Resolve(start: State, ds: seq<Delivery>, s: State, ids: set<EventId>) returns (end: State)
    requires Inv(start) && EndsIn(start, ds, s) && Holds(s, TWO, ids) && RESOLVED_1.event.id !in ids
    ensures EndsIn(start, ds + [RESOLVED_1], end) && Holds(end, RESOLVED, ids + {RESOLVED_1.event.id})
  {
    ResolveOne();
    end := Continue(start, ds, s, TWO, ids, RESOLVED_1, RESOLVED);
  }

  lemma TakeThree(start: State, ds: seq<Delivery>, s: State, ids: set<EventId>) returns (end: State)
    requires Inv(start) && EndsIn(start, ds, s) && Holds(s, RESOLVED, ids) && STARTED_3.event.id !in ids
    ensures EndsIn(start, ds + [STARTED_3], end) && Holds(end, PAST_3, ids + {STARTED_3.event.id})
  {
    StartThree();
    end := Continue(start, ds, s, RESOLVED, ids, STARTED_3, PAST_3);
  }

  lemma TwoStarted(start: State) returns (s: State)
    requires Blank(start)
    ensures EndsIn(start, TWO_STARTED, s) && Holds(s, TWO, {1} + {9})
  {
    var one := StartOne(start);
    s := TakeTwo(start, ONE_STARTED, one, {1});
  }

  const SAME_TIME := TWO_STARTED + [RESOLVED_1]

  lemma Resolved(start: State) returns (s: State)
    requires Blank(start)
    ensures EndsIn(start, SAME_TIME, s) && Holds(s, RESOLVED, {1} + {9} + {3})
  {
    var two := TwoStarted(start);
    s := Resolve(start, TWO_STARTED, two, {1} + {9});
  }

  lemma Past(start: State) returns (s: State)
    requires Blank(start)
    ensures EndsIn(start, SAME_TIME + [STARTED_3], s) && s.sessions == map[KEY := PAST_3]
  {
    var resolved := Resolved(start);
    s := TakeThree(start, SAME_TIME, resolved, {1} + {9} + {3});
  }

  lemma CannotRestore(s: State, session: SessionRecord, token: nat)
    requires Inv(s) && s.sessions == map[KEY := session] && RetiresCurrent(session)
    ensures Restore(Persist(s), token) == Err(RetiredCurrentTurn)
  {
    SessionIsKept(s, KEY);
    SaveRestoreNormalForm(s, token);
  }

  /** A new turn that does not take the place of the current one still retires it. */
  lemma NewTurnRetiresCurrent(token: nat) returns (s: State)
    ensures EndsIn(INITIAL, SAME_TIME + [STARTED_3], s)
    ensures Inv(s) && Restore(Persist(s), token) == Err(RetiredCurrentTurn)
  {
    s := Past(INITIAL);
    EndsWell(INITIAL, SAME_TIME + [STARTED_3], s);
    StartThree();
    CannotRestore(s, PAST_3, token);
  }

  // ---- An event applied again after a restart ----

  const CLOSED := Delivery(Event(10, 0, SessionEnded, 0, None, 5, None, None), 5, 5)
  const REOPENED := Delivery(Event(11, 0, SessionStarted, 0, None, 5, None, None), 5, 6)
  const STARTED_NEXT := Delivery(TurnEvent(12, TurnStarted, 3, 5), 5, 7)
  const RESOLVED_LATE := Delivery(TurnEvent(4, AttentionResolved, 1, 5), 5, 8)

  const SHUT := TWO.(ended := true, lastEvent := 10)
  const OPEN := TWO.(current := None, lastEvent := 11)
  const THREE := OPEN.(current := Some(3), turns := TWO.turns[3 := TurnRecord(Active, 5, 12)], lastEvent := 12)
  const BACK := THREE.(turns := THREE.turns[1 := TurnRecord(Active, 5, 4)], lastEvent := 4)

  lemma CloseAndReopen()
    ensures Gives(TWO, CLOSED.event, SHUT) && Gives(SHUT, REOPENED.event, OPEN)
  {
  }

  lemma StartNext()
    ensures Gives(OPEN, STARTED_NEXT.event, THREE)
  {
    forall s: State | s.sessions == map[KEY := OPEN]
      ensures ApplyEvent(s, STARTED_NEXT.event).0.sessions == map[KEY := THREE]
    {
      assert ApplyEvent(s, STARTED_NEXT.event).0.sessions[KEY] == THREE;
    }
  }

  lemma ResolveLate()
    ensures Gives(THREE, RESOLVED_LATE.event, BACK)
  {
    assert THREE.turns[1] == AT_1;
    forall s: State | s.sessions == map[KEY := THREE]
      ensures ApplyEvent(s, RESOLVED_LATE.event).0.sessions == map[KEY := BACK]
    {
      assert ApplyEvent(s, RESOLVED_LATE.event).0.sessions[KEY] == BACK;
    }
  }

  lemma Close(start: State, ds: seq<Delivery>, s: State, ids: set<EventId>) returns (end: State)
    requires Inv(start) && EndsIn(start, ds, s) && Holds(s, TWO, ids) && CLOSED.event.id !in ids
    ensures EndsIn(start, ds + [CLOSED], end) && Holds(end, SHUT, ids + {CLOSED.event.id})
  {
    CloseAndReopen();
    end := Continue(start, ds, s, TWO, ids, CLOSED, SHUT);
  }

  lemma Reopen(start: State, ds: seq<Delivery>, s: State, ids: set<EventId>) returns (end: State)
    requires Inv(start) && EndsIn(start, ds, s) && Holds(s, SHUT, ids) && REOPENED.event.id !in ids
    ensures EndsIn(start, ds + [REOPENED], end) && Holds(end, OPEN, ids + {REOPENED.event.id})
  {
    CloseAndReopen();
    end := Continue(start, ds, s, SHUT, ids, REOPENED, OPEN);
  }

  lemma TakeNext(start: State, ds: seq<Delivery>, s: State, ids: set<EventId>) returns (end: State)
    requires Inv(start) && EndsIn(start, ds, s) && Holds(s, OPEN, ids) && STARTED_NEXT.event.id !in ids
    ensures EndsIn(start, ds + [STARTED_NEXT], end) && Holds(end, THREE, ids + {STARTED_NEXT.event.id})
  {
    StartNext();
    end := Continue(start, ds, s, OPEN, ids, STARTED_NEXT, THREE);
  }

  lemma GoBack(start: State, ds: seq<Delivery>, s: State, ids: set<EventId>) returns (end: State)
    requires Inv(start) && EndsIn(start, ds, s) && Holds(s, THREE, ids) && RESOLVED_LATE.event.id !in ids
    ensures EndsIn(start, ds + [RESOLVED_LATE], end) && Holds(end, BACK, ids + {RESOLVED_LATE.event.id})
  {
    ResolveLate();
    end := Continue(start, ds, s, THREE, ids, RESOLVED_LATE, BACK);
  }

  const CLOSING := TWO_STARTED + [CLOSED]
  const REOPENING := CLOSING + [REOPENED]
  const GOING := REOPENING + [STARTED_NEXT]
  const GOING_BACK := GOING + [RESOLVED_LATE]

  lemma Closed(start: State) returns (s: State)
    requires Blank(start)
    ensures EndsIn(start, CLOSING, s) && Holds(s, SHUT, {1} + {9} + {10})
  {
    var two := TwoStarted(start);
    s := Close(start, TWO_STARTED, two, {1} + {9});
  }

  lemma Reopened(start: State) returns (s: State)
    requires Blank(start)
    ensures EndsIn(start, REOPENING, s) && Holds(s, OPEN, {1} + {9} + {10} + {11})
  {
    var shut := Closed(start);
    s := Reopen(start, CLOSING, shut, {1} + {9} + {10});
  }

  lemma NextStarted(start: State) returns (s: State)
    requires Blank(start)
    ensures EndsIn(start, GOING, s) && Holds(s, THREE, {1} + {9} + {10} + {11} + {12})
  {
    var open := Reopened(start);
    s := TakeNext(start, REOPENING, open, {1} + {9} + {10} + {11});
  }

  lemma GoneBack(start: State) returns (s: State)
    requires Blank(start)
    ensures EndsIn(start, GOING_BACK, s) && s.sessions == map[KEY := BACK]
  {
    var three := NextStarted(start);
    s := GoBack(start, GOING, three, {1} + {9} + {10} + {11} + {12});
  }

  /**
   The start of turn 2 was applied; after the session was ended, resumed, given turn 3 and moved back
   by a late event, a restart forgets turn 2 and applies its start once more.
   */
  lemma RestartAppliesAgain(token: nat, at: u64, token': nat) returns (s: State)
    ensures EndsIn(INITIAL, GOING_BACK, s)
    ensures Inv(s) && Absorbed(s, STARTED_2.event)
    ensures var restored := Restore(Persist(s), token);
            restored.Ok? && ReduceAt(restored.value, STARTED_2.event, at, token').outcome.Applied?
  {
    s := GoneBack(INITIAL);
    EndsWell(INITIAL, GOING_BACK, s);
    ForgetsTwo(s, token, at, token');
  }

  lemma BackIsRestorable(s: State, token: nat)
    requires Inv(s) && s.sessions == map[KEY := BACK]
    ensures KEY in KeptKeys(s)
    ensures Restore(Persist(s), token).Ok? && RestoredFrom(s, Restore(Persist(s), token).value)
  {
    SessionIsKept(s, KEY);
    assert !RetiresCurrent(BACK);
    KeptRanksSorted(s);
    SaveRestoreNormalForm(s, token);
  }

  lemma ForgetsTwo(s: State, token: nat, at: u64, token': nat)
    requires Inv(s) && s.sessions == map[KEY := BACK]
    ensures Absorbed(s, STARTED_2.event)
    ensures var restored := Restore(Persist(s), token);
            restored.Ok? && ReduceAt(restored.value, STARTED_2.event, at, token').outcome.Applied?
  {
    assert BACK.turns[2] == AT_9;
    BackIsRestorable(s, token);
    assert Forgotten(BACK, STARTED_2.event);
    ReplayAfterRestartExactly(s, Restore(Persist(s), token).value, STARTED_2.event, at, token');
  }

  // ---- A retired turn taken for a new one after a restart ----

  const AGAIN_1 := Delivery(TurnEvent(12, TurnStarted, 1, 5), 5, 7)

  const KEPT := TWO.(turns := map[2 := AT_9])
  const KEPT_SHUT := KEPT.(ended := true, lastEvent := 10)
  const KEPT_OPEN := KEPT.(current := None, lastEvent := 11)
  const TAKEN := KEPT_OPEN.(current := Some(1), turns := KEPT.turns[1 := TurnRecord(Active, 5, 12)], lastEvent := 12)

  lemma SessionRestores(s: State, session: SessionRecord, token: nat) returns (r: State)
    requires Inv(s) && s.sessions == map[KEY := session] && !RetiresCurrent(session)
    ensures Restore(Persist(s), token) == Ok(r) && Inv(r) && Holds(r, Trimmed(session), {})
  {
    AloneIsRestorable(s, session);
    SaveRestoreNormalForm(s, token);
    r := Restore(Persist(s), token).value;
    assert r.sessions == map[KEY := Trimmed(session)];
  }

  lemma AloneIsRestorable(s: State, session: SessionRecord)
    requires Inv(s) && s.sessions == map[KEY := session] && !RetiresCurrent(session)
    ensures KeptKeys(s) == {KEY} && !SavesRetiredCurrent(s)
  {
    SessionIsKept(s, KEY);
    KeptRanksKnown(s);
  }

  lemma RestartsKeeping(s: State, token: nat) returns (r: State)
    requires Inv(s) && s.sessions == map[KEY := TWO]
    ensures Restore(Persist(s), token) == Ok(r) && Inv(r) && Holds(r, KEPT, {})
  {
    r := SessionRestores(s, TWO, token);
    assert TWO.turns[2] == AT_9;
    assert Trimmed(TWO) == KEPT;
  }

  lemma KeptCloseAndReopen()
    ensures Gives(KEPT, CLOSED.event, KEPT_SHUT) && Gives(KEPT_SHUT, REOPENED.event, KEPT_OPEN)
  {
  }

  lemma TakeForNew()
    ensures Gives(KEPT_OPEN, AGAIN_1.event, TAKEN) && RetiresCurrent(TAKEN)
  {
    forall s: State | s.sessions == map[KEY := KEPT_OPEN]
      ensures ApplyEvent(s, AGAIN_1.event).0.sessions == map[KEY := TAKEN]
    {
      assert ApplyEvent(s, AGAIN_1.event).0.sessions[KEY] == TAKEN;
    }
  }

  lemma KeptClose(start: State, ds: seq<Delivery>, s: State, ids: set<EventId>) returns (end: State)
    requires Inv(start) && EndsIn(start, ds, s) && Holds(s, KEPT, ids) && CLOSED.event.id !in ids
    ensures EndsIn(start, ds + [CLOSED], end) && Holds(end, KEPT_SHUT, ids + {CLOSED.event.id})
  {
    KeptCloseAndReopen();
    end := Continue(start, ds, s, KEPT, ids, CLOSED, KEPT_SHUT);
  }

  lemma KeptReopen(start: State, ds: seq<Delivery>, s: State, ids: set<EventId>) returns (end: State)
    requires Inv(start) && EndsIn(start, ds, s) && Holds(s, KEPT_SHUT, ids) && REOPENED.event.id !in ids
    ensures EndsIn(start, ds + [REOPENED], end) && Holds(end, KEPT_OPEN, ids + {REOPENED.event.id})
  {
    KeptCloseAndReopen();
    end := Continue(start, ds, s, KEPT_SHUT, ids, REOPENED, KEPT_OPEN);
  }

  lemma TakeAgain(start: State, ds: seq<Delivery>, s: State, ids: set<EventId>) returns (end: State)
    requires Inv(start) && EndsIn(start, ds, s) && Holds(s, KEPT_OPEN, ids) && AGAIN_1.event.id !in ids
    ensures EndsIn(start, ds + [AGAIN_1], end) && Holds(end, TAKEN, ids + {AGAIN_1.event.id})
  {
    TakeForNew();
    end := Continue(start, ds, s, KEPT_OPEN, ids, AGAIN_1, TAKEN);
  }

  const TAKING := [CLOSED] + [REOPENED] + [AGAIN_1]

  lemma Taken(r: State) returns (end: State)
    requires Inv(r) && Holds(r, KEPT, {})
    ensures EndsIn(r, TAKING, end) && end.sessions == map[KEY := TAKEN]
  {
    assert EndsIn(r, [], r) && [] + [CLOSED] == [CLOSED];
    var shut := KeptClose(r, [], r, {});
    var open := KeptReopen(r, [CLOSED], shut, {} + {10});
    end := TakeAgain(r, [CLOSED] + [REOPENED], open, {} + {10} + {11});
  }

  /**
   Turns 1 and 2, a restart that drops the retired turn 1, then the session is ended and resumed: an
   event of turn 1 is taken for the first of a new turn, and what is saved then cannot be restored.
   */
  lemma RetiredTurnPassesForNew(token: nat, token': nat) returns (s: State, r: State, end: State)
    ensures EndsIn(INITIAL, TWO_STARTED, s)
    ensures Inv(s) && Restore(Persist(s), token) == Ok(r)
    ensures EndsIn(r, TAKING, end)
    ensures Inv(end) && Restore(Persist(end), token') == Err(RetiredCurrentTurn)
  {
    s := TwoStarted(INITIAL);
    EndsWell(INITIAL, TWO_STARTED, s);
    r := RestartsKeeping(s, token);
    end := Taken(r);
    EndsWell(r, TAKING, end);
    TakeForNew();
    CannotRestore(end, TAKEN, token');
  }
}
