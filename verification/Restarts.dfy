/** Lives of the reducer that mix operations with restarts from saved state. */
module Restarts {
  import opened Basics
  import opened SessionTypes
  import opened ReducerModel
  import opened ReducerInvariant
  import opened AttentionCards
  import opened DeliveryOnce
  import opened PersistenceModel
  import opened RestoreNormalForm
  import P = Presentation

  // ---- Whatever the disk holds, an accepted state is well formed ----

  lemma {:induction false} CheckedRetiredIsDistinct(retired: seq<TurnId>, current: Option<TurnId>, seen: seq<TurnId>)
    requires CheckRetired(retired, current, seen).None?
    ensures Distinct(retired) && forall turn :: turn in retired ==> turn !in seen && current != Some(turn)
    decreases |retired|
  {
    if retired != [] {
      CheckedRetiredIsDistinct(retired[1..], current, seen + [retired[0]]);
      FirstAndRest(retired);
      assert forall i :: 0 <= i < |retired[1..]| ==> retired[1..][i] in retired[1..];
    }
  }

  lemma RestoredSessionOk(p: PersistedSession)
    requires RestoreSession(p).Ok?
    ensures SessionOk(p.Key(), RestoreSession(p).value)
    ensures !RetiresCurrent(RestoreSession(p).value)
  {
    CheckedRetiredIsDistinct(p.retired, p.current, []);
  }

  lemma {:induction false} RestoredSessionsOk(ps: seq<PersistedSession>, sessions: map<SessionKey, SessionRecord>)
    requires SessionsOk(sessions) && RestoreSessions(ps, sessions).Ok?
    ensures SessionsOk(RestoreSessions(ps, sessions).value)
    decreases |ps|
  {
    if ps != [] {
      RestoredSessionOk(ps[0]);
      RestoredSessionsOk(ps[1..], sessions[ps[0].Key() := RestoreSession(ps[0]).value]);
    }
  }

  ghost predicate OwnersAre(cards: map<NotificationId, Notification>, owners: set<SessionKey>) {
    forall id :: id in cards ==> cards[id].Owner() in owners
  }

  lemma {:induction false} RestoredCardsOk(
    cards: seq<Notification>,
    sessions: map<SessionKey, SessionRecord>,
    restored: map<NotificationId, Notification>,
    owners: set<SessionKey>,
    token: nat)
    requires CardsOk(restored) && CardsOwned(restored, sessions) && OwnersAre(restored, owners)
    requires RestoreCards(cards, sessions, restored, owners, token).Ok?
    ensures var result := RestoreCards(cards, sessions, restored, owners, token).value;
            CardsOk(result) && CardsOwned(result, sessions)
    decreases |cards|
  {
    if cards != [] {
      var card := cards[0];
      RestoredCardsOk(cards[1..], sessions, restored[card.id := card.(incarnation := token)],
                      owners + {card.Owner()}, token + 1);
    }
  }

  /** Restoring accepts nothing ill formed, whatever was stored. */
  lemma RestoreYieldsInv(p: PersistedState, token: nat)
    requires Restore(p, token).Ok?
    ensures Inv(Restore(p, token).value)
  {
    RestoredSessionsOk(p.sessions, map[]);
    var sessions := RestoreSessions(p.sessions, map[]).value;
    RestoredCardsOk(p.notifications, sessions, map[], {}, token);
  }

  // ---- Lives ----

  datatype Happening = Live(op: Op) | Restart(token: nat) {
    predicate Valid() { Live? ==> op.Valid() }

    /** Not a delivery that ends a session in the name of one turn. */
    predicate EndsWholeSession() {
      Live? && op.Deliver? && op.event.kind.SessionEnded? ==> op.event.turn.None?
    }
  }

  /** A restart that the saved state does not survive leaves the reducer as it was. */
  ghost function Next(s: State, h: Happening): State
    requires Inv(s) && h.Valid()
  {
    match h
    case Live(op) => Do(s, op)
    case Restart(token) =>
      var restored := Restore(Persist(s), token);
      if restored.Ok? then restored.value else s
  }

  ghost predicate ValidLife(life: seq<Happening>) {
    forall i :: 0 <= i < |life| ==> life[i].Valid()
  }

  ghost predicate WholeEndings(life: seq<Happening>) {
    forall i :: 0 <= i < |life| ==> life[i].EndsWholeSession()
  }

  lemma NextKeepsInv(s: State, h: Happening)
    requires Inv(s) && h.Valid()
    ensures Inv(Next(s, h))
    ensures h.Restart? ==> Next(s, h) == s || RestoredFrom(s, Next(s, h))
  {
    match h
    case Live(op) => OpKeepsInv(s, op);
    case Restart(token) => SaveRestoreNormalForm(s, token);
  }

  ghost function Lived(s: State, life: seq<Happening>): State
    requires Inv(s) && ValidLife(life)
    decreases |life|
  {
    if life == [] then s
    else
      NextKeepsInv(s, life[0]);
      Lived(Next(s, life[0]), life[1..])
  }

  lemma RestoredCardOpen(s: State, r: State, id: NotificationId)
    requires Inv(s) && RestoredFrom(s, r) && id in r.notifications && CardOpen(s.notifications[id], s.sessions)
    ensures CardOpen(r.notifications[id], r.sessions)
  {
    RestoredCard(s, r, id);
  }

  lemma RestartKeepsAttentionOpen(s: State, r: State)
    requires Inv(s) && RestoredFrom(s, r) && AttentionOpen(s)
    ensures AttentionOpen(r)
  {
    OpenByCards(s);
    forall id | id in r.notifications && r.notifications[id].IsUnresolvedAttention()
      ensures CardOpen(r.notifications[id], r.sessions)
    {
      RestoredCard(s, r, id);
      RestoredCardOpen(s, r, id);
    }
    OpenByCards(r);
  }

  lemma RestartKeepsEndedQuiet(s: State, r: State)
    requires Inv(s) && RestoredFrom(s, r) && EndedQuiet(s)
    ensures EndedQuiet(r)
  {
    forall id | id in r.notifications && r.notifications[id].IsUnresolvedAttention()
      ensures !r.sessions[r.notifications[id].Owner()].ended
    {
      RestoredCard(s, r, id);
      assert s.notifications[id].IsUnresolvedAttention();
    }
  }

  lemma NextKeepsAttentionOpen(s: State, h: Happening)
    requires Inv(s) && AttentionOpen(s) && h.Valid()
    ensures AttentionOpen(Next(s, h))
  {
    match h
    case Live(op) => OpKeepsAttentionOpen(s, op);
    case Restart(token) =>
      NextKeepsInv(s, h);
      if Next(s, h) != s {
        RestartKeepsAttentionOpen(s, Next(s, h));
      }
  }

  lemma NextKeepsEndedQuiet(s: State, h: Happening)
    requires Inv(s) && EndedQuiet(s) && h.Valid() && h.EndsWholeSession()
    ensures EndedQuiet(Next(s, h))
  {
    match h
    case Live(op) => LiveKeepsEndedQuiet(s, op);
    case Restart(token) =>
      NextKeepsInv(s, h);
      if Next(s, h) != s {
        RestartKeepsEndedQuiet(s, Next(s, h));
      }
  }

  lemma LiveKeepsEndedQuiet(s: State, op: Op)
    requires Inv(s) && EndedQuiet(s) && op.Valid()
    requires op.Deliver? && op.event.kind.SessionEnded? ==> op.event.turn.None?
    ensures EndedQuiet(Do(s, op))
  {
    if op.Deliver? {
      EndedQuietExactly(s, op.event, op.at, op.token);
    }
  }

  /** Over operations and restarts in any order, the reducer keeps every structural promise. */
  lemma {:induction false} LifeKeepsEverything(s: State, life: seq<Happening>)
    requires Inv(s) && AttentionOpen(s) && ValidLife(life)
    ensures Inv(Lived(s, life)) && AttentionOpen(Lived(s, life))
    ensures EndedQuiet(s) && WholeEndings(life) ==> EndedQuiet(Lived(s, life))
    decreases |life|
  {
    if life != [] {
      NextKeepsInv(s, life[0]);
      NextKeepsAttentionOpen(s, life[0]);
      if EndedQuiet(s) && WholeEndings(life) {
        NextKeepsEndedQuiet(s, life[0]);
      }
      LifeKeepsEverything(Next(s, life[0]), life[1..]);
    }
  }

  // ---- What the pet shows, across restarts ----

  /** A process that restarts from saved state starts its clock anew. */
  ghost function ClockAfterNext(s: State, h: Happening, clock: u64): u64
    requires Inv(s) && h.Valid()
  {
    match h
    case Live(op) => P.ClockAfter(op, clock)
    case Restart(token) => if Restore(Persist(s), token).Ok? then 0 else clock
  }

  ghost predicate ForwardLife(s: State, life: seq<Happening>, clock: u64)
    requires Inv(s) && ValidLife(life)
    decreases |life|
  {
    life == [] ||
    (NextKeepsInv(s, life[0]);
     (life[0].Live? ==> clock <= P.ClockAfter(life[0].op, clock))
     && ForwardLife(Next(s, life[0]), life[1..], ClockAfterNext(s, life[0], clock)))
  }

  ghost function LifeClock(s: State, life: seq<Happening>, clock: u64): u64
    requires Inv(s) && ValidLife(life)
    decreases |life|
  {
    if life == [] then clock
    else
      NextKeepsInv(s, life[0]);
      LifeClock(Next(s, life[0]), life[1..], ClockAfterNext(s, life[0], clock))
  }

  lemma RestartIsNeverUnder(s: State, token: nat, now: u64)
    requires Keyed(s.notifications) && Restore(Persist(s), token).Ok?
    ensures P.NeverUnder(Restore(Persist(s), token).value, now)
  {
  }

  /** In no life, whatever the operations and restarts, does the pet show too little. */
  lemma {:induction false} LifeNeverUnder(s: State, life: seq<Happening>, clock: u64, now: u64)
    requires Inv(s) && ValidLife(life) && P.NeverUnder(s, clock)
    requires ForwardLife(s, life, clock) && LifeClock(s, life, clock) <= now
    ensures P.NeverUnder(Lived(s, life), now)
    decreases |life|
  {
    if life == [] {
      P.DesireWeakens(s, clock, now);
    } else {
      NextKeepsInv(s, life[0]);
      match life[0] {
        case Live(op) => P.OpKeepsNeverUnder(s, op, clock);
        case Restart(token) =>
          if Restore(Persist(s), token).Ok? {
            RestartIsNeverUnder(s, token, 0);
          }
      }
      LifeNeverUnder(Next(s, life[0]), life[1..], ClockAfterNext(s, life[0], clock), now);
    }
  }

  // ---- Replays across a restart ----

  /** The turn left the saved record, and the session's position does not rule the event out. */
  predicate Forgotten(session: SessionRecord, event: Event)
    requires event.turn.Some?
  {
    var turn := event.turn.value;
    && session.current != Some(turn)
    && !(session.current.Some? && turn in session.retired)
    && (event.id == session.lastEvent || session.Order().Before(event.Order()))
  }

  /**
   A turn event absorbed before the restart is applied again exactly when its session was cut on
   saving, or was kept but its turn is neither current nor remembered as retired and the session's
   position admits it.
   */
  lemma ReplayAfterRestartExactly(s: State, r: State, event: Event, at: u64, token: nat)
    requires Inv(s) && RestoredFrom(s, r) && r.recentSet == {}
    requires event.IsTurnEvent() && Absorbed(s, event)
    ensures ReduceAt(r, event, at, token).outcome.Applied?
            <==> event.Owner() !in KeptKeys(s) || Forgotten(s.sessions[event.Owner()], event)
  {
    var remembered := RememberEvent(r, event.Key());
    assert ReduceAt(r, event, at, token).outcome.Applied? == ApplyTurnEvent(remembered, event).1.changed;
    if event.Owner() in KeptKeys(s) {
      var session := s.sessions[event.Owner()];
      assert r.sessions[event.Owner()] == Trimmed(session);
      if session.current == event.turn {
        assert Absorbed(remembered, event);
      } else {
        assert event.turn.value !in Trimmed(session).turns;
      }
    } else {
      assert event.Owner() !in remembered.sessions;
    }
  }
}
