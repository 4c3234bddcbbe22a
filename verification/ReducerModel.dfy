/**
 The session reducer as functions on its whole state. The class in SessionReducer.dfy updates
 the same fields in place and is proved against these functions.
 */
module ReducerModel {
  import opened Basics
  import opened SessionTypes

  const MAX_RECENT_EVENT_IDS: nat := 4096
  const MAX_RETIRED_TURNS: nat := 16
  const DEFAULT_MINIMUM_DWELL_MS: u64 := 750
  const ACTIVITY_REMINDER_DURATION_MS: u64 := 5_000

  datatype Tracker = Tracker(state: PresentationState, since: u64)

  datatype State = State(
    revision: u64,
    sessions: map<SessionKey, SessionRecord>,
    notifications: map<NotificationId, Notification>,
    recentIds: seq<EventKey>,
    recentSet: set<EventKey>,
    presentation: Tracker,
    minimumDwell: u64,
    reminderUntil: u64)

  datatype Outcome = Applied(revision: u64) | Duplicate | IgnoredStale

  datatype Step = Step(state: State, outcome: Outcome)

  datatype Transition = Transition(
    changed: bool,
    notification: Option<NotificationKind>,
    resolveAttention: bool)

  const UNCHANGED := Transition(false, None, false)

  const INITIAL := State(0, map[], map[], [], {}, Tracker(PresentationState.Idle, 0), DEFAULT_MINIMUM_DWELL_MS, 0)

  // ---- Recent deliveries ----

  function Without<T(==)>(s: seq<T>, x: T): seq<T> {
    if s == [] then []
    else if s[0] == x then Without(s[1..], x)
    else [s[0]] + Without(s[1..], x)
  }

  function RememberEvent(s: State, key: EventKey): State {
    var ids := (if key in s.recentSet then Without(s.recentIds, key) else s.recentIds) + [key];
    var kept := Newest(ids, MAX_RECENT_EVENT_IDS);
    s.(recentIds := kept,
       recentSet := s.recentSet + {key} - Elements(ids[..|ids| - |kept|]))
  }

  predicate IsDuplicate(s: State, event: Event) {
    && event.Key() in s.recentSet
    && match event.kind
       case SessionStarted => event.Owner() in s.sessions && !s.sessions[event.Owner()].ended
       case SessionEnded => event.Owner() in s.sessions && s.sessions[event.Owner()].ended
       case _ => true
  }

  // ---- Session and turn transitions ----

  function ApplySessionEvent(s: State, event: Event): (State, Transition)
    requires event.kind.IsSessionScoped()
  {
    var key := event.Owner();
    if event.kind.SessionStarted? then
      if key in s.sessions then
        var session := s.sessions[key];
        if event.Order().AtMost(session.Order()) || !session.ended then (s, UNCHANGED)
        else
          var resumed := session.(
            ended := false,
            current := None,
            updatedAt := event.occurredAt,
            lastEvent := event.id,
            project := if event.project.Some? then event.project else session.project);
          (s.(sessions := s.sessions[key := resumed]), Transition(true, None, false))
      else
        (s.(sessions := s.sessions[key := NewSession(event)]), Transition(true, None, false))
    else
      if key in s.sessions then
        var session := s.sessions[key];
        if event.Order().AtMost(session.Order()) || session.ended then (s, UNCHANGED)
        else
          var closed := session.(ended := true, updatedAt := event.occurredAt, lastEvent := event.id);
          (s.(sessions := s.sessions[key := closed]), Transition(true, None, true))
      else
        (s.(sessions := s.sessions[key := NewSession(event).(ended := true)]), Transition(true, None, true))
  }

  function NextTurnPhase(previous: Option<TurnRecord>, event: Event): Option<SessionPhase> {
    if previous.Some? && event.Order().AtMost(previous.value.Order()) then None
    else if previous.Some? && previous.value.phase.IsTerminal() && !event.kind.IsTerminal() then None
    else
      match event.kind
      case TurnStarted => Some(Active)
      case AttentionRequired => Some(SessionPhase.Attention)
      case AttentionResolved => Some(Active)
      case TurnCompleted => Some(Completed)
      case TurnFailed => Some(SessionPhase.Failed)
      case _ => None
  }

  function RememberRetired(session: SessionRecord, turn: TurnId): SessionRecord {
    session.(retired := Newest(Without(session.retired, turn) + [turn], MAX_RETIRED_TURNS))
  }

  /** The current turn is displaced by an event at or after it; ties fall to the turn identity. */
  predicate Displaces(session: SessionRecord, event: Event, turn: TurnId) {
    if session.current.Some? && session.current.value in session.turns then
      var current := session.turns[session.current.value].Order();
      || current.Before(event.Order())
      || (current == event.Order() && session.current.value <= turn)
    else true
  }

  function UpdateSessionAfterTurn(session: SessionRecord, event: Event, turn: TurnId): SessionRecord {
    var moved := if Displaces(session, event, turn) then session.(current := Some(turn)) else session;
    if event.occurredAt >= moved.updatedAt then
      moved.(
        updatedAt := event.occurredAt,
        lastEvent := event.id,
        project := if event.project.Some? then event.project else moved.project)
    else moved
  }

  function TurnNotification(kind: EventKind): Option<NotificationKind> {
    match kind
    case AttentionRequired => Some(NotificationKind.Attention)
    case TurnCompleted => Some(Completion)
    case TurnFailed => Some(Failure)
    case _ => None
  }

  function ApplyTurnEvent(s: State, event: Event): (State, Transition)
    requires event.IsTurnEvent()
  {
    var turn := event.turn.value;
    var key := event.Owner();
    var session := if key in s.sessions then s.sessions[key] else NewSession(event);
    // The record is entered before any guard is evaluated.
    var entered := s.(sessions := s.sessions[key := session]);
    var previous := if turn in session.turns then Some(session.turns[turn]) else None;
    var startsNewTurn := previous.None? && session.current.Some? && session.current.value != turn;
    if startsNewTurn && turn in session.retired then (entered, UNCHANGED)
    else if previous.None? && event.id != session.lastEvent && event.Order().AtMost(session.Order())
    then (entered, UNCHANGED)
    else
      var phase := NextTurnPhase(previous, event);
      if phase.None? then (entered, UNCHANGED)
      else
        var retired := if startsNewTurn then RememberRetired(session, session.current.value) else session;
        var recorded := retired.(
          turns := retired.turns[turn := TurnRecord(phase.value, event.occurredAt, event.id)],
          ended := false);
        var updated := UpdateSessionAfterTurn(recorded, event, turn);
        (entered.(sessions := s.sessions[key := updated]),
         Transition(true, TurnNotification(event.kind), event.kind.AttentionResolved? || event.kind.IsTerminal()))
  }

  // ---- Cards ----

  function ResolveAttention(cards: map<NotificationId, Notification>, key: SessionKey, turn: Option<TurnId>)
    : map<NotificationId, Notification>
  {
    map id | id in cards ::
      var card := cards[id];
      if card.Owner() == key && (turn.None? || card.turn == turn) && card.kind.Attention?
      then card.(state := Resolved) else card
  }

  predicate HasNewerCard(cards: map<NotificationId, Notification>, event: Event) {
    exists id :: id in cards && cards[id].Owner() == event.Owner()
                 && event.Order().AtMost(cards[id].Order())
  }

  function NewCard(event: Event, kind: NotificationKind, token: nat): Notification {
    Notification(token, None, event.CardId(), event.provider, event.id, event.session, event.turn,
                 kind, Unread, event.occurredAt, event.project, event.summary)
  }

  /** The cards after insertion, and whether an older card of the session was replaced. */
  function InsertNotification(
    cards: map<NotificationId, Notification>, event: Event, kind: NotificationKind, token: nat)
    : (map<NotificationId, Notification>, bool)
  {
    if HasNewerCard(cards, event) then (cards, false)
    else
      var kept := map id | id in cards && cards[id].Owner() != event.Owner() :: cards[id];
      var inserted :=
        if event.CardId() in kept then kept else kept[event.CardId() := NewCard(event, kind, token)];
      (inserted, |kept| != |cards|)
  }

  // ---- Presentation ----

  function DesiredPresentation(
    cards: map<NotificationId, Notification>, reminderUntil: u64, now: u64): PresentationState
  {
    if exists id :: id in cards && cards[id].IsUnresolvedAttention() then Waiting
    else if exists id :: id in cards && cards[id].kind.Failure? && cards[id].state.Unread?
    then PresentationState.Failed
    else if exists id :: id in cards && cards[id].kind.Completion? && cards[id].state.Unread? then Review
    else if reminderUntil > now then ActivityReminder
    else PresentationState.Idle
  }

  function Desired(s: State, now: u64): PresentationState {
    DesiredPresentation(s.notifications, s.reminderUntil, now)
  }

  predicate MayShow(s: State, desired: PresentationState, now: u64) {
    var expiredReminder :=
      s.presentation.state.ActivityReminder? && desired.Idle? && s.reminderUntil <= now;
    || desired.Rank() > s.presentation.state.Rank()
    || desired.ActivityReminder?
    || expiredReminder
    || SaturatingSub(now, s.presentation.since) >= s.minimumDwell
  }

  function RefreshPresentation(s: State, now: u64): (State, bool) {
    var desired := Desired(s, now);
    if desired == s.presentation.state || !MayShow(s, desired, now) then (s, false)
    else (s.(presentation := Tracker(desired, now)), true)
  }

  /** Show the desired presentation at once, whatever the dwell. */
  function ShowDesired(s: State, now: u64): State {
    var desired := Desired(s, now);
    if desired == s.presentation.state then s else s.(presentation := Tracker(desired, now))
  }

  function Bump(s: State): Step {
    var revision := SaturatingAdd(s.revision, 1);
    Step(s.(revision := revision), Applied(revision))
  }

  // ---- Operations ----

  function ApplyEvent(s: State, event: Event): (State, Transition)
    requires event.Valid()
  {
    if event.kind.IsSessionScoped() then ApplySessionEvent(s, event) else ApplyTurnEvent(s, event)
  }

  /** The effects of an accepted transition on reminder, cards and presentation. */
  function Settle(s: State, event: Event, transition: Transition, at: u64, token: nat): State {
    var reminded :=
      if event.kind.StartsActivity() then
        var until := SaturatingAdd(at, ACTIVITY_REMINDER_DURATION_MS);
        s.(reminderUntil := if until > s.reminderUntil then until else s.reminderUntil)
      else s;
    var resolved :=
      if transition.resolveAttention then
        reminded.(notifications := ResolveAttention(reminded.notifications, event.Owner(), event.turn))
      else reminded;
    var carded :=
      if transition.notification.Some? then
        var (cards, replaced) :=
          InsertNotification(resolved.notifications, event, transition.notification.value, token);
        var inserted := resolved.(notifications := cards);
        if replaced then ShowDesired(inserted, at) else inserted
      else resolved;
    RefreshPresentation(carded, at).0
  }

  function ReduceAt(s: State, event: Event, at: u64, token: nat): Step
    requires event.Valid()
  {
    if IsDuplicate(s, event) then Step(s, Duplicate)
    else
      var (applied, transition) := ApplyEvent(RememberEvent(s, event.Key()), event);
      if !transition.changed then Step(applied, IgnoredStale)
      else Bump(Settle(applied, event, transition, at, token))
  }

  function RestartActivityReminder(s: State, startedAt: u64): State {
    RefreshPresentation(
      s.(reminderUntil := SaturatingAdd(startedAt, ACTIVITY_REMINDER_DURATION_MS)), startedAt).0
  }

  function Acknowledge(s: State, id: NotificationId, now: u64): Step {
    if id !in s.notifications || !s.notifications[id].state.Unread? then Step(s, IgnoredStale)
    else
      var card := s.notifications[id].(state := Acknowledged);
      Bump(ShowDesired(s.(notifications := s.notifications[id := card]), now))
  }

  function Advance(s: State, now: u64): Step {
    var (refreshed, shown) := RefreshPresentation(s, now);
    if shown then Bump(refreshed) else Step(s, IgnoredStale)
  }

  predicate AcceptsTitle(s: State, original: Notification, title: string) {
    && original.id in s.notifications
    && var card := s.notifications[original.id];
       && card.state.Unread?
       && card.incarnation == original.incarnation
       && card.provider == original.provider
       && card.session == original.session
       && card.event == original.event
       && card.title != Some(title)
       && IsTitle(title)
  }

  function UpdateTitle(s: State, original: Notification, title: string): (State, bool) {
    if !AcceptsTitle(s, original, title) then (s, false)
    else
      var card := s.notifications[original.id].(title := Some(title));
      (Bump(s.(notifications := s.notifications[original.id := card])).state, true)
  }
}
