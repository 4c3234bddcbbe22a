/** What one applied event means for its session, its turn and its cards, and what it leaves alone. */
module DeliveryEffects {
  import opened Basics
  import opened SessionTypes
  import opened ReducerModel
  import opened ReducerInvariant
  import A = AttentionCards
  import D = DeliveryOrder
  import R = DeliveryOnce

  predicate Changes(s: State, event: Event, at: u64, token: nat)
    requires event.Valid()
  {
    ReduceAt(s, event, at, token).outcome.Applied?
  }

  /** The phase each kind of turn event puts its turn in. */
  predicate Entered(kind: EventKind, phase: SessionPhase) {
    match phase
    case Active => kind.TurnStarted? || kind.AttentionResolved?
    case Attention => kind.AttentionRequired?
    case Completed => kind.TurnCompleted?
    case Failed => kind.TurnFailed?
    case _ => false
  }

  lemma AppliedShape(s: State, event: Event, at: u64, token: nat)
    requires event.Valid() && Changes(s, event, at, token)
    ensures var (applied, transition) := ApplyEvent(RememberEvent(s, event.Key()), event);
            var after := ReduceAt(s, event, at, token).state;
            && transition.changed
            && after.sessions == applied.sessions && applied.notifications == s.notifications
            && after.notifications == SettledCards(applied, event, transition, token)
  {
    var (applied, transition) := ApplyEvent(RememberEvent(s, event.Key()), event);
    SettleShape(applied, event, transition, at, token);
    A.ApplyEnds(RememberEvent(s, event.Key()), event);
  }

  /** What a session knows after a turn event, given what it knew before. */
  ghost predicate Records(
    before: map<SessionKey, SessionRecord>, event: Event, after: map<SessionKey, SessionRecord>)
    requires event.IsTurnEvent()
  {
    var key, turn := event.Owner(), event.turn.value;
    && key in after && turn in after[key].turns
    && after - {key} == before - {key}
    && var session := after[key];
       && session.turns[turn].Order() == event.Order()
       && Entered(event.kind, session.turns[turn].phase)
       && !session.ended
       && session.current.Some? && session.current.value in session.turns
       && (session.current.value != turn ==> event.Order().AtMost(session.turns[session.current.value].Order()))
       && event.occurredAt <= session.updatedAt
       && (key in before ==>
             && session.updatedAt == Later(event.occurredAt, before[key].updatedAt)
             && session.turns - {turn} == before[key].turns - {turn})
  }

  /** What the session's last event and its project are after a turn event. */
  predicate Credits(before: map<SessionKey, SessionRecord>, event: Event, after: map<SessionKey, SessionRecord>) {
    var key := event.Owner();
    && key in after
    && var session := after[key];
       if key !in before then
         session.lastEvent == event.id && session.project == event.project && session.retired == []
       else if event.occurredAt < before[key].updatedAt then
         session.lastEvent == before[key].lastEvent && session.project == before[key].project
       else
         session.lastEvent == event.id && session.project == Told(event.project, before[key].project)
  }

  /** A project that is told replaces the one known. */
  function Told(project: Option<string>, known: Option<string>): Option<string> {
    match project
    case Some(name) => Some(name)
    case None => known
  }

  function Later(a: u64, b: u64): u64 {
    if a > b then a else b
  }

  lemma ApplyRecords(s: State, event: Event)
    requires SessionsOk(s.sessions) && event.IsTurnEvent() && ApplyTurnEvent(s, event).1.changed
    ensures Records(s.sessions, event, ApplyTurnEvent(s, event).0.sessions)
  {
    var key, turn := event.Owner(), event.turn.value;
    var after := ApplyTurnEvent(s, event).0.sessions;
    if key in s.sessions {
      assert SessionOk(key, s.sessions[key]);
      assert after[key].turns - {turn} == s.sessions[key].turns - {turn};
    }
    assert after - {key} == s.sessions - {key};
  }

  lemma ApplyCredits(s: State, event: Event)
    requires event.IsTurnEvent() && ApplyTurnEvent(s, event).1.changed
    ensures Credits(s.sessions, event, ApplyTurnEvent(s, event).0.sessions)
  {
  }

  /**
   An applied turn event is recorded as the last of its turn, in the phase of its kind; it opens the
   session, never moves it back in time, and makes its turn current or leaves a later one current.
   No other turn or session is recorded differently. The project it tells is the session's, unless a
   later event came before.
   */
  lemma TurnIsRecorded(s: State, event: Event, at: u64, token: nat)
    requires Inv(s) && event.IsTurnEvent() && Changes(s, event, at, token)
    ensures Records(s.sessions, event, ReduceAt(s, event, at, token).state.sessions)
    ensures Credits(s.sessions, event, ReduceAt(s, event, at, token).state.sessions)
  {
    AppliedShape(s, event, at, token);
    ApplyRecords(RememberEvent(s, event.Key()), event);
    ApplyCredits(RememberEvent(s, event.Key()), event);
  }

  /**
   An applied start or end is the session's last event and keeps its turns. A start leaves the session
   open without a current turn; an end leaves it ended. No other session is recorded differently.
   */
  lemma BoundaryIsRecorded(s: State, event: Event, at: u64, token: nat)
    requires event.kind.IsSessionScoped() && Changes(s, event, at, token)
    ensures var before, after := s.sessions, ReduceAt(s, event, at, token).state.sessions;
            var key := event.Owner();
            && key in after && after - {key} == before - {key}
            && after[key].Order() == event.Order()
            && (after[key].ended <==> event.kind == SessionEnded)
            && (event.kind == SessionStarted ==> after[key].current == None)
            && (if key in before then
                  && before[key].ended != after[key].ended && before[key].Order().Before(event.Order())
                  && after[key].turns == before[key].turns && after[key].retired == before[key].retired
                  && (event.kind == SessionStarted ==> after[key].project == Told(event.project, before[key].project))
                  && (event.kind == SessionEnded ==>
                        after[key].current == before[key].current && after[key].project == before[key].project)
                else
                  && after[key].turns == map[] && after[key].retired == [] && after[key].current == None
                  && after[key].project == event.project)
  {
    AppliedShape(s, event, at, token);
    var after := ApplyEvent(RememberEvent(s, event.Key()), event).0.sessions;
    assert after - {event.Owner()} == s.sessions - {event.Owner()};
  }

  /** The card is the same, or a new one for the event, or a question answered. */
  predicate CardAfter(before: Notification, after: Notification, event: Event) {
    || after == before
    || (after.Order() == event.Order() && after.Owner() == event.Owner() && after.state == Unread)
    || (&& after == before.(state := Resolved) && before.kind == NotificationKind.Attention
        && before.Owner() == event.Owner() && (event.turn == None || before.turn == event.turn)
        && (event.kind == AttentionResolved || event.kind.IsTerminal() || event.kind == SessionEnded))
  }

  lemma SettledCardAfter(s: State, event: Event, transition: Transition, token: nat, id: NotificationId)
    requires id in s.notifications && id in SettledCards(s, event, transition, token)
    requires transition.resolveAttention ==>
      event.kind == AttentionResolved || event.kind.IsTerminal() || event.kind == SessionEnded
    ensures CardAfter(s.notifications[id], SettledCards(s, event, transition, token)[id], event)
  {
    var resolved :=
      if transition.resolveAttention then ResolveAttention(s.notifications, event.Owner(), event.turn)
      else s.notifications;
    assert CardAfter(s.notifications[id], resolved[id], event);
    if transition.notification.Some? {
      var cards := InsertNotification(resolved, event, transition.notification.value, token).0;
      assert cards[id] == resolved[id] || cards[id] == NewCard(event, transition.notification.value, token);
    }
  }

  lemma OnlyAnswersResolve(s: State, event: Event)
    requires event.Valid()
    ensures ApplyEvent(s, event).1.resolveAttention ==>
      event.kind == AttentionResolved || event.kind.IsTerminal() || event.kind == SessionEnded
  {
  }

  /** Nothing is resolved but questions that the event answers. */
  lemma OnlyQuestionsAreResolved(s: State, event: Event, at: u64, token: nat, id: NotificationId)
    requires event.Valid() && Changes(s, event, at, token)
    requires id in s.notifications && id in ReduceAt(s, event, at, token).state.notifications
    ensures CardAfter(s.notifications[id], ReduceAt(s, event, at, token).state.notifications[id], event)
  {
    AppliedShape(s, event, at, token);
    var (applied, transition) := ApplyEvent(RememberEvent(s, event.Key()), event);
    OnlyAnswersResolve(RememberEvent(s, event.Key()), event);
    SettledCardAfter(applied, event, transition, token, id);
  }

  /** An event applied to a known turn or to a known session with a new turn is the later one in time. */
  lemma AppliedIsLater(s: State, event: Event, at: u64, token: nat)
    requires event.IsTurnEvent() && Changes(s, event, at, token) && event.Owner() in s.sessions
    ensures var session := s.sessions[event.Owner()];
            if event.turn.value in session.turns then
              var turn := session.turns[event.turn.value];
              event.occurredAt > turn.updatedAt || (event.occurredAt == turn.updatedAt && event.id > turn.lastEvent)
            else event.id == session.lastEvent || event.occurredAt > session.updatedAt
                 || (event.occurredAt == session.updatedAt && event.id > session.lastEvent)
  {
    var remembered := RememberEvent(s, event.Key());
    assert ApplyTurnEvent(remembered, event).1.changed;
  }

  lemma ApplyKeepsTerminal(s: State, event: Event, key: SessionKey, turn: TurnId)
    requires event.Valid()
    requires key in s.sessions && turn in s.sessions[key].turns && s.sessions[key].turns[turn].phase.IsTerminal()
    ensures var after := ApplyEvent(s, event).0.sessions;
            && key in after && turn in after[key].turns && after[key].turns[turn].phase.IsTerminal()
            && s.sessions[key].turns[turn].Order().AtMost(after[key].turns[turn].Order())
  {
  }

  /** A turn never leaves a terminal phase but for another terminal one. */
  lemma TerminalTurnsStayTerminal(s: State, event: Event, at: u64, token: nat, key: SessionKey, turn: TurnId)
    requires Inv(s) && event.Valid()
    requires key in s.sessions && turn in s.sessions[key].turns && s.sessions[key].turns[turn].phase.IsTerminal()
    ensures var after := ReduceAt(s, event, at, token).state;
            && key in after.sessions && turn in after.sessions[key].turns
            && after.sessions[key].turns[turn].phase.IsTerminal()
            && s.sessions[key].turns[turn].Order().AtMost(after.sessions[key].turns[turn].Order())
  {
    if Changes(s, event, at, token) {
      AppliedShape(s, event, at, token);
      ApplyKeepsTerminal(RememberEvent(s, event.Key()), event, key, turn);
    } else {
      R.RefusedLeavesNoTrace(s, event, at, token);
    }
  }

  /** The card is the one the event calls for, new and unread. */
  ghost predicate IsCardFor(card: Notification, event: Event, token: nat) {
    && card.Owner() == event.Owner() && card.turn == event.turn && card.Order() == event.Order()
    && card.id == event.CardId() && card.event == event.id
    && card.state.Unread? && card.incarnation == token && card.title.None?
    && card.project == event.project && card.summary == event.summary
    && (card.kind.Attention? <==> event.kind.AttentionRequired?)
    && (card.kind.Completion? <==> event.kind.TurnCompleted?)
    && (card.kind.Failure? <==> event.kind.TurnFailed?)
  }

  /** The card is of the event's session and not earlier; of two of one time the greater identity is later. */
  predicate IsAsLate(card: Notification, event: Event) {
    && card.provider == event.provider && card.session == event.session
    && (card.occurredAt > event.occurredAt || (card.occurredAt == event.occurredAt && card.event >= event.id))
  }

  lemma LateCards(cards: map<NotificationId, Notification>, event: Event)
    ensures HasNewerCard(cards, event) <==> exists id :: id in cards && IsAsLate(cards[id], event)
  {
    if HasNewerCard(cards, event) {
      var id :| id in cards && cards[id].Owner() == event.Owner() && event.Order().AtMost(cards[id].Order());
      assert IsAsLate(cards[id], event);
    }
    forall id | id in cards && IsAsLate(cards[id], event)
      ensures HasNewerCard(cards, event)
    {
      assert cards[id].Owner() == event.Owner() && event.Order().AtMost(cards[id].Order());
    }
  }

  lemma InsertShows(
    cards: map<NotificationId, Notification>, event: Event, kind: NotificationKind, token: nat)
    requires event.CardId() !in cards && TurnNotification(event.kind) == Some(kind)
    ensures var after := InsertNotification(cards, event, kind, token).0;
            if HasNewerCard(cards, event) then after == cards
            else
              && event.CardId() in after && IsCardFor(after[event.CardId()], event, token)
              && forall id :: id in after && after[id].Owner() == event.Owner() ==> id == event.CardId()
  {
  }

  /**
   Where nobody else holds its identity, the card an applied event calls for becomes the session's
   only card, unless the session already has one as late; then the cards stay the same ones.
   */
  lemma CardIsShown(s: State, event: Event, at: u64, token: nat)
    requires Inv(s) && event.IsTurnEvent() && Changes(s, event, at, token)
    requires TurnNotification(event.kind).Some? && event.CardId() !in s.notifications
    ensures var cards := ReduceAt(s, event, at, token).state.notifications;
            if exists id :: id in s.notifications && IsAsLate(s.notifications[id], event)
            then cards.Keys == s.notifications.Keys
            else
              && event.CardId() in cards && IsCardFor(cards[event.CardId()], event, token)
              && forall id :: id in cards && cards[id].Owner() == event.Owner() ==> id == event.CardId()
  {
    AppliedShape(s, event, at, token);
    var transition := ApplyEvent(RememberEvent(s, event.Key()), event).1;
    A.TurnEventTouchesOneTurn(RememberEvent(s, event.Key()), event);
    var resolved :=
      if transition.resolveAttention then ResolveAttention(s.notifications, event.Owner(), event.turn)
      else s.notifications;
    SameOrders(s.notifications, resolved, event);
    LateCards(s.notifications, event);
    InsertShows(resolved, event, transition.notification.value, token);
  }

  lemma SameOrders(
    before: map<NotificationId, Notification>, after: map<NotificationId, Notification>, event: Event)
    requires after.Keys == before.Keys
    requires forall id :: id in before ==>
      after[id].Owner() == before[id].Owner() && after[id].Order() == before[id].Order()
    ensures HasNewerCard(after, event) <==> HasNewerCard(before, event)
  {
    if HasNewerCard(before, event) {
      var id :| id in before && before[id].Owner() == event.Owner() && event.Order().AtMost(before[id].Order());
      assert id in after;
    }
  }

  /** A resolution or the end of a turn leaves none of its questions open. */
  lemma QuestionsAreAnswered(s: State, event: Event, at: u64, token: nat, id: NotificationId)
    requires Inv(s) && event.IsTurnEvent() && Changes(s, event, at, token)
    requires event.kind.AttentionResolved? || event.kind.IsTerminal()
    requires id in ReduceAt(s, event, at, token).state.notifications
    ensures var card := ReduceAt(s, event, at, token).state.notifications[id];
            card.Owner() == event.Owner() && card.turn == event.turn ==> !card.IsUnresolvedAttention()
  {
    AppliedShape(s, event, at, token);
    var (applied, transition) := ApplyEvent(RememberEvent(s, event.Key()), event);
    A.TurnEventTouchesOneTurn(RememberEvent(s, event.Key()), event);
    if SettledCards(applied, event, transition, token)[id].IsUnresolvedAttention() {
      A.SettledAttention(applied, event, transition, token, id);
    }
  }

  /** The cards of other sessions are untouched. */
  lemma OtherCardsStay(s: State, event: Event, at: u64, token: nat, key: SessionKey)
    requires Inv(s) && event.Valid() && Changes(s, event, at, token) && key != event.Owner()
    ensures D.SameCards(s.notifications, ReduceAt(s, event, at, token).state.notifications, key)
  {
    AppliedShape(s, event, at, token);
    var (applied, transition) := ApplyEvent(RememberEvent(s, event.Key()), event);
    D.ForeignCards(applied, event, transition, token, key);
  }
}
