/** When an attention card may outlive the turn or the session it speaks of. */
module AttentionCards {
  import opened Basics
  import opened SessionTypes
  import opened ReducerModel
  import opened ReducerInvariant

  lemma InsertedCard(
    cards: map<NotificationId, Notification>, event: Event, kind: NotificationKind, token: nat, id: NotificationId)
    requires id in InsertNotification(cards, event, kind, token).0
    ensures var card := InsertNotification(cards, event, kind, token).0[id];
            card == NewCard(event, kind, token) || (id in cards && card == cards[id])
  {
  }

  /** An unresolved attention card after settling is either the new one or was unresolved before. */
  lemma SettledAttention(s: State, event: Event, transition: Transition, token: nat, id: NotificationId)
    requires id in SettledCards(s, event, transition, token)
    requires SettledCards(s, event, transition, token)[id].IsUnresolvedAttention()
    ensures var card := SettledCards(s, event, transition, token)[id];
            || (transition.notification == Some(NotificationKind.Attention)
                && card.Owner() == event.Owner() && card.turn == event.turn)
            || (id in s.notifications && card == s.notifications[id]
                && !Resolves(transition, event, card))
  {
    var resolved :=
      if transition.resolveAttention then ResolveAttention(s.notifications, event.Owner(), event.turn)
      else s.notifications;
    if transition.notification.Some? {
      InsertedCard(resolved, event, transition.notification.value, token, id);
    }
  }

  lemma TurnEventTouchesOneTurn(s: State, event: Event)
    requires event.IsTurnEvent()
    ensures var (after, transition) := ApplyTurnEvent(s, event);
            var key := event.Owner();
            && key in after.sessions
            && (transition.changed ==>
                  && event.turn.value in after.sessions[key].turns
                  && after.sessions[key].turns[event.turn.value].Order() == event.Order()
                  && after.sessions[key].turns[event.turn.value].phase.IsTerminal() == event.kind.IsTerminal()
                  && transition.notification == TurnNotification(event.kind)
                  && transition.resolveAttention == (event.kind.AttentionResolved? || event.kind.IsTerminal())
                  && !after.sessions[key].ended)
            && (forall turn :: turn != event.turn.value && turn in after.sessions[key].turns ==>
                  key in s.sessions && turn in s.sessions[key].turns
                  && after.sessions[key].turns[turn] == s.sessions[key].turns[turn])
  {
  }

  lemma SessionEventKeepsTurns(s: State, event: Event)
    requires event.kind.IsSessionScoped()
    ensures var after := ApplySessionEvent(s, event).0;
            var key := event.Owner();
            && (key in s.sessions ==> key in after.sessions && after.sessions[key].turns == s.sessions[key].turns)
            && (key !in s.sessions && key in after.sessions ==> after.sessions[key].turns == map[])
  {
  }

  ghost function SettledTransition(s: State, event: Event, at: u64, token: nat): State
    requires event.Valid()
  {
    var (applied, transition) := ApplyEvent(s, event);
    if transition.changed then Settle(applied, event, transition, at, token) else applied
  }

  predicate CardOpen(card: Notification, sessions: map<SessionKey, SessionRecord>) {
    card.Owner() in sessions && card.turn.Some? && card.turn.value in sessions[card.Owner()].turns
    ==> !sessions[card.Owner()].turns[card.turn.value].phase.IsTerminal()
  }

  lemma OpenByCards(s: State)
    ensures AttentionOpen(s) <==>
            forall id :: id in s.notifications && s.notifications[id].IsUnresolvedAttention()
                         ==> CardOpen(s.notifications[id], s.sessions)
  {
  }

  /** A card that was open and is not resolved by the event stays open, and so does the card it adds. */
  lemma ApplyKeepsCardOpen(s: State, event: Event, card: Notification)
    requires Inv(s) && event.Valid() && card.Owner() in s.sessions && CardOpen(card, s.sessions)
    requires ApplyEvent(s, event).1.changed && !Resolves(ApplyEvent(s, event).1, event, card)
    ensures CardOpen(card, ApplyEvent(s, event).0.sessions)
  {
    ApplyKeepsSessions(s, event);
    if event.IsTurnEvent() {
      TurnEventTouchesOneTurn(s, event);
    } else {
      SessionEventKeepsTurns(s, event);
    }
  }

  predicate Resolves(transition: Transition, event: Event, card: Notification) {
    && transition.resolveAttention
    && card.Owner() == event.Owner()
    && (event.turn.None? || card.turn == event.turn)
  }

  /** The attention card an event adds speaks of a turn that the event leaves unfinished. */
  lemma NewCardOpen(s: State, event: Event, card: Notification)
    requires event.Valid()
    requires ApplyEvent(s, event).1.notification == Some(NotificationKind.Attention)
    requires card.Owner() == event.Owner() && card.turn == event.turn
    ensures CardOpen(card, ApplyEvent(s, event).0.sessions)
  {
    TurnEventTouchesOneTurn(s, event);
  }

  lemma SettledCardOpen(s: State, event: Event, token: nat, id: NotificationId)
    requires Inv(s) && AttentionOpen(s) && event.Valid() && ApplyEvent(s, event).1.changed
    requires var (applied, transition) := ApplyEvent(s, event);
             var cards := SettledCards(applied, event, transition, token);
             id in cards && cards[id].IsUnresolvedAttention()
    ensures var (applied, transition) := ApplyEvent(s, event);
            CardOpen(SettledCards(applied, event, transition, token)[id], applied.sessions)
  {
    ApplyEnds(s, event);
    var (applied, transition) := ApplyEvent(s, event);
    var card := SettledCards(applied, event, transition, token)[id];
    SettledAttention(applied, event, transition, token, id);
    if transition.notification == Some(NotificationKind.Attention)
       && card.Owner() == event.Owner() && card.turn == event.turn {
      NewCardOpen(s, event, card);
    } else {
      OpenByCards(s);
      ApplyKeepsCardOpen(s, event, card);
    }
  }

  lemma ApplyKeepsAttentionOpen(s: State, event: Event, at: u64, token: nat)
    requires Inv(s) && AttentionOpen(s) && event.Valid()
    ensures AttentionOpen(SettledTransition(s, event, at, token))
  {
    var (applied, transition) := ApplyEvent(s, event);
    if transition.changed {
      SettleShape(applied, event, transition, at, token);
      var after := Settle(applied, event, transition, at, token);
      forall id | id in after.notifications && after.notifications[id].IsUnresolvedAttention()
        ensures CardOpen(after.notifications[id], after.sessions)
      {
        SettledCardOpen(s, event, token, id);
      }
      OpenByCards(after);
    } else {
      UnchangedApplyKeepsSessions(s, event);
    }
  }

  /** A refused transition leaves no trace, the record entered for its guards included. */
  lemma UnchangedApplyKeepsSessions(s: State, event: Event)
    requires event.Valid() && !ApplyEvent(s, event).1.changed
    ensures ApplyEvent(s, event).0 == s
  {
    if event.IsTurnEvent() && event.Owner() in s.sessions {
      assert s.sessions[event.Owner() := s.sessions[event.Owner()]] == s.sessions;
    }
  }

  lemma OpKeepsAttentionOpen(s: State, op: Op)
    requires Inv(s) && AttentionOpen(s) && op.Valid()
    ensures AttentionOpen(Do(s, op))
  {
    if op.Deliver? {
      if !IsDuplicate(s, op.event) {
        RememberKeepsRecent(s, op.event.Key());
        ApplyKeepsAttentionOpen(RememberEvent(s, op.event.Key()), op.event, op.at, op.token);
      }
    }
  }

  /** In every run no unresolved attention card speaks of a finished turn. */
  lemma {:induction false} RunKeepsAttentionOpen(s: State, ops: seq<Op>)
    requires Inv(s) && AttentionOpen(s) && ValidOps(ops)
    ensures AttentionOpen(Run(s, ops))
    decreases |ops|
  {
    if ops != [] {
      OpKeepsInv(s, ops[0]);
      OpKeepsAttentionOpen(s, ops[0]);
      RunKeepsAttentionOpen(Do(s, ops[0]), ops[1..]);
    }
  }

  // ---- Ended sessions ----

  /**
   The event ends a session that has an unresolved attention card of another turn. Ending resolves
   only the cards of the turn the event names, so such a card survives.
   */
  predicate EndsPastAttention(s: State, event: Event) {
    && event.kind.SessionEnded? && event.turn.Some?
    && event.Owner() in s.sessions
    && s.sessions[event.Owner()].Order().Before(event.Order())
    && exists id :: id in s.notifications && s.notifications[id].IsUnresolvedAttention()
         && s.notifications[id].Owner() == event.Owner() && s.notifications[id].turn != event.turn
  }

  /** An ending touches the flag of its session; every other change clears it. */
  lemma ApplyEnds(s: State, event: Event)
    requires event.Valid() && ApplyEvent(s, event).1.changed
    ensures var (applied, transition) := ApplyEvent(s, event);
            && event.Owner() in applied.sessions
            && applied.sessions[event.Owner()].ended == event.kind.SessionEnded?
            && (event.kind.SessionEnded? ==> transition == Transition(true, None, true))
            && (event.kind.SessionEnded? && event.Owner() in s.sessions ==>
                  s.sessions[event.Owner()].Order().Before(event.Order()))
            && applied.notifications == s.notifications
  {
  }

  lemma EndingLeavesCard(s: State, event: Event, at: u64, token: nat)
    requires Inv(s) && EndedQuiet(s) && event.Valid() && EndsPastAttention(s, event)
    ensures !EndedQuiet(SettledTransition(s, event, at, token))
  {
    var (applied, transition) := ApplyEvent(s, event);
    var id :| id in s.notifications && s.notifications[id].IsUnresolvedAttention()
      && s.notifications[id].Owner() == event.Owner() && s.notifications[id].turn != event.turn;
    assert transition.changed;
    SettleShape(applied, event, transition, at, token);
    var after := Settle(applied, event, transition, at, token);
    assert after.notifications[id] == s.notifications[id];
  }

  lemma OtherwiseQuiet(s: State, event: Event, at: u64, token: nat)
    requires Inv(s) && EndedQuiet(s) && event.Valid() && !EndsPastAttention(s, event)
    ensures EndedQuiet(SettledTransition(s, event, at, token))
  {
    var (applied, transition) := ApplyEvent(s, event);
    if !transition.changed {
      UnchangedApplyKeepsSessions(s, event);
    } else {
      ApplyKeepsSessions(s, event);
      ApplyEnds(s, event);
      SettleShape(applied, event, transition, at, token);
      var after := Settle(applied, event, transition, at, token);
      forall id | id in after.notifications && after.notifications[id].IsUnresolvedAttention()
        ensures after.notifications[id].Owner() in after.sessions
                ==> !after.sessions[after.notifications[id].Owner()].ended
      {
        SettledAttention(applied, event, transition, token, id);
      }
    }
  }

  /** Delivery keeps ended sessions quiet exactly when the event does not end one past such a card. */
  lemma EndedQuietExactly(s: State, event: Event, at: u64, token: nat)
    requires Inv(s) && EndedQuiet(s) && event.Valid()
    ensures EndedQuiet(ReduceAt(s, event, at, token).state)
            <==> IsDuplicate(s, event) || !EndsPastAttention(s, event)
  {
    if !IsDuplicate(s, event) {
      RememberKeepsRecent(s, event.Key());
      var remembered := RememberEvent(s, event.Key());
      if EndsPastAttention(s, event) {
        EndingLeavesCard(remembered, event, at, token);
      } else {
        OtherwiseQuiet(remembered, event, at, token);
      }
    }
  }

  /** Deliveries that name no turn when they end a session, as the lifecycle hooks do. */
  ghost predicate EndsWholeSessions(ops: seq<Op>) {
    forall i :: 0 <= i < |ops| && ops[i].Deliver? && ops[i].event.kind.SessionEnded? ==> ops[i].event.turn.None?
  }

  /** With such deliveries an ended session never shows an unresolved attention card. */
  lemma {:induction false} RunKeepsEndedQuiet(s: State, ops: seq<Op>)
    requires Inv(s) && EndedQuiet(s) && ValidOps(ops) && EndsWholeSessions(ops)
    ensures EndedQuiet(Run(s, ops))
    decreases |ops|
  {
    if ops != [] {
      OpKeepsInv(s, ops[0]);
      if ops[0].Deliver? {
        EndedQuietExactly(s, ops[0].event, ops[0].at, ops[0].token);
      }
      RunKeepsEndedQuiet(Do(s, ops[0]), ops[1..]);
    }
  }
}
