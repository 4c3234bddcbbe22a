/**
 When a delivery is accepted, and when it leaves a session whose current turn counts as retired, told
 from the state before it.
 */
module RetiredTurns {
  import opened Basics
  import opened SessionTypes
  import opened ReducerModel
  import opened ReducerInvariant
  import opened RestoreNormalForm
  import D = DeliveryEffects

  // ---- Which deliveries are accepted ----

  predicate AcceptsTurn(s: State, event: Event)
    requires event.IsTurnEvent()
  {
    event.Owner() in s.sessions ==>
      var session := s.sessions[event.Owner()];
      var turn := event.turn.value;
      if turn in session.turns then
        session.turns[turn].Order().Before(event.Order())
        && (session.turns[turn].phase.IsTerminal() ==> event.kind.IsTerminal())
      else
        !(session.current.Some? && turn in session.retired)
        && (event.id == session.lastEvent || session.Order().Before(event.Order()))
  }

  /** A start opens a new or ended session and an end closes a new or open one, if they come last. */
  predicate AcceptsBoundary(s: State, event: Event) {
    event.Owner() in s.sessions ==>
      && s.sessions[event.Owner()].Order().Before(event.Order())
      && s.sessions[event.Owner()].ended == event.kind.SessionStarted?
  }

  predicate Accepts(s: State, event: Event)
    requires event.Valid()
  {
    !IsDuplicate(s, event)
    && if event.kind.IsSessionScoped() then AcceptsBoundary(s, event) else AcceptsTurn(s, event)
  }

  lemma TurnChangesExactly(s: State, event: Event)
    requires SessionsOk(s.sessions) && event.IsTurnEvent()
    ensures ApplyTurnEvent(s, event).1.changed <==> AcceptsTurn(s, event)
  {
    if event.Owner() in s.sessions {
      assert SessionOk(event.Owner(), s.sessions[event.Owner()]);
    }
  }

  /** A delivery is applied exactly if its event is new where it counts and not out of date. */
  lemma AppliedExactly(s: State, event: Event, at: u64, token: nat)
    requires Inv(s) && event.Valid()
    ensures ReduceAt(s, event, at, token).outcome.Applied? <==> Accepts(s, event)
  {
    if !IsDuplicate(s, event) {
      var remembered := RememberEvent(s, event.Key());
      if event.kind.IsSessionScoped() {
        assert ApplySessionEvent(remembered, event).1.changed <==> AcceptsBoundary(s, event);
      } else {
        TurnChangesExactly(remembered, event);
      }
    }
  }

  // ---- Which of them leave a retired turn current ----

  /** Another turn is current and later than the event; ties fall to the turn identity. */
  predicate Stays(session: SessionRecord, event: Event)
    requires event.turn.Some?
  {
    && session.current.Some? && session.current.value in session.turns
    && session.current.value != event.turn.value
    && var current := session.turns[session.current.value].Order();
       event.Order().Before(current) || (event.Order() == current && event.turn.value < session.current.value)
  }

  /**
   A turn that is known and retired becomes current again; or a turn that is new comes too late to
   take the place of the current one, which it retires; or a retired turn is taken for a new one
   because the session was resumed without a current turn.
   */
  predicate Misplaces(session: SessionRecord, event: Event)
    requires event.turn.Some?
  {
    if event.turn.value in session.turns then
      if Stays(session, event) then RetiresCurrent(session) else event.turn.value in session.retired
    else
      Stays(session, event) || (session.current.None? && event.turn.value in session.retired)
  }

  lemma MisplacesExactly(s: State, event: Event)
    requires SessionsOk(s.sessions) && event.IsTurnEvent() && AcceptsTurn(s, event)
    requires event.Owner() in s.sessions
    ensures RetiresCurrent(ApplyTurnEvent(s, event).0.sessions[event.Owner()])
            <==> Misplaces(s.sessions[event.Owner()], event)
  {
    var key, turn := event.Owner(), event.turn.value;
    var session := s.sessions[key];
    assert SessionOk(key, session);
    TurnChangesExactly(s, event);
    if session.current.Some? && session.current.value != turn && turn !in session.turns {
      RetiredMembers(session, session.current.value, turn);
    }
  }

  lemma RetiredMembers(session: SessionRecord, turn: TurnId, other: TurnId)
    requires Distinct(session.retired) && |session.retired| <= MAX_RETIRED_TURNS
    ensures turn in RememberRetired(session, turn).retired
    ensures other != turn && other !in session.retired ==> other !in RememberRetired(session, turn).retired
  {
    QueueAppend(session.retired, turn, MAX_RETIRED_TURNS);
    var retired := RememberRetired(session, turn).retired;
    assert forall member :: member in retired <==> member in Elements(retired);
    assert forall member :: member in session.retired <==> member in Elements(session.retired);
  }

  /** What the delivery leaves of its session, told beforehand. */
  predicate LeavesRetired(s: State, event: Event)
    requires event.Valid()
  {
    && event.Owner() in s.sessions
    && match event.kind
       case SessionStarted => false
       case SessionEnded => RetiresCurrent(s.sessions[event.Owner()])
       case _ => Misplaces(s.sessions[event.Owner()], event)
  }

  /** The current turn of the event's session counts as retired after the delivery exactly if this says so. */
  lemma LeavesRetiredExactly(s: State, event: Event, at: u64, token: nat)
    requires Inv(s) && event.Valid() && Accepts(s, event)
    ensures var after := ReduceAt(s, event, at, token).state;
            && event.Owner() in after.sessions
            && (RetiresCurrent(after.sessions[event.Owner()]) <==> LeavesRetired(s, event))
  {
    AppliedExactly(s, event, at, token);
    D.AppliedShape(s, event, at, token);
    var remembered := RememberEvent(s, event.Key());
    if !event.kind.IsSessionScoped() && event.Owner() in s.sessions {
      MisplacesExactly(remembered, event);
    }
  }
}
