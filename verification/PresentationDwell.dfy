/** How long the pet shows a state, when it may give it up, and what the cards and the reminder ask for. */
module PresentationDwell {
  import opened Basics
  import opened SessionTypes
  import opened ReducerModel
  import opened ReducerInvariant
  import opened Presentation
  import D = DeliveryEffects
  import R = DeliveryOnce

  // ---- What is asked for ----

  /** What a card alone asks the pet to show, if anything. */
  function Asks(card: Notification): Option<PresentationState> {
    match card.kind
    case Attention => if card.state == Resolved then None else Some(Waiting)
    case Failure => if card.state == Unread then Some(PresentationState.Failed) else None
    case Completion => if card.state == Unread then Some(Review) else None
  }

  /** What the reminder alone asks for. */
  function Reminds(s: State, now: u64): PresentationState {
    if now < s.reminderUntil then ActivityReminder else PresentationState.Idle
  }

  /** The desired state is the strongest of what the cards and the reminder ask for. */
  lemma DesiredIsStrongest(s: State, now: u64)
    ensures Desired(s, now).Rank() >= Reminds(s, now).Rank()
    ensures forall id :: id in s.notifications && Asks(s.notifications[id]).Some? ==>
      Desired(s, now).Rank() >= Asks(s.notifications[id]).value.Rank()
    ensures || Desired(s, now) == Reminds(s, now)
            || exists id :: id in s.notifications && Asks(s.notifications[id]) == Some(Desired(s, now))
  {
    var desired := Desired(s, now);
    if desired.Waiting? {
      var id :| id in s.notifications && s.notifications[id].IsUnresolvedAttention();
      assert Asks(s.notifications[id]) == Some(desired);
    } else if desired.Failed? {
      var id :| id in s.notifications && s.notifications[id].kind.Failure? && s.notifications[id].state.Unread?;
      assert Asks(s.notifications[id]) == Some(desired);
    } else if desired.Review? {
      var id :| id in s.notifications && s.notifications[id].kind.Completion? && s.notifications[id].state.Unread?;
      assert Asks(s.notifications[id]) == Some(desired);
    }
  }

  // ---- Giving up a state ----

  /** The shown state has been shown for the minimum dwell. */
  predicate DwellPassed(s: State, now: u64) {
    s.minimumDwell == 0 || s.presentation.since + s.minimumDwell <= now
  }

  predicate ReminderRanOut(before: State, after: State, now: u64) {
    before.presentation.state.ActivityReminder? && after.presentation.state.Idle? && after.reminderUntil <= now
  }

  /** Every card of before is still there, possibly resolved. */
  predicate CardsStay(before: map<NotificationId, Notification>, after: map<NotificationId, Notification>) {
    forall id :: id in before ==> id in after && after[id].(state := before[id].state) == before[id]
  }

  /** The operation neither dismisses a card nor replaces one. */
  predicate KeepsCards(s: State, op: Op)
    requires op.Valid()
  {
    !op.Dismiss? && CardsStay(s.notifications, Do(s, op).notifications)
  }

  /** A state is given up for a weaker one after its dwell only, but for the reminder coming and going. */
  predicate Holds(before: State, after: State, now: u64) {
    after.presentation.state.Rank() < before.presentation.state.Rank() ==>
      || after.presentation.state.ActivityReminder?
      || ReminderRanOut(before, after, now)
      || DwellPassed(before, now)
  }

  /** What changes is dated. */
  predicate Dated(before: State, after: State, now: u64) {
    before.presentation != after.presentation ==>
      after.presentation.state != before.presentation.state && after.presentation.since == now
  }

  lemma RefreshHolds(s: State, now: u64)
    ensures var after := RefreshPresentation(s, now).0;
            Holds(s, after, now) && Dated(s, after, now)
  {
  }

  /** The state a delivery has come to before the general refresh. */
  ghost function Carded(s: State, event: Event, transition: Transition, at: u64, token: nat): State {
    var reminded :=
      if event.kind.StartsActivity() then
        var until := SaturatingAdd(at, ACTIVITY_REMINDER_DURATION_MS);
        s.(reminderUntil := if until > s.reminderUntil then until else s.reminderUntil)
      else s;
    var inserted := reminded.(notifications := SettledCards(s, event, transition, token));
    if CardsReplaced(s, event, transition, token) then ShowDesired(inserted, at) else inserted
  }

  predicate CardsReplaced(s: State, event: Event, transition: Transition, token: nat) {
    var resolved :=
      if transition.resolveAttention then ResolveAttention(s.notifications, event.Owner(), event.turn)
      else s.notifications;
    transition.notification.Some? && InsertNotification(resolved, event, transition.notification.value, token).1
  }

  lemma SettleIsRefresh(s: State, event: Event, transition: Transition, at: u64, token: nat)
    ensures Settle(s, event, transition, at, token)
            == RefreshPresentation(Carded(s, event, transition, at, token), at).0
  {
  }

  /** A replacement shows in the cards: one that was there is gone, or another one. */
  lemma CardsReplacedExactly(s: State, event: Event, transition: Transition, token: nat)
    ensures CardsReplaced(s, event, transition, token)
            <==> !CardsStay(s.notifications, SettledCards(s, event, transition, token))
  {
    var resolved :=
      if transition.resolveAttention then ResolveAttention(s.notifications, event.Owner(), event.turn)
      else s.notifications;
    if transition.notification.Some? {
      ReplacedExactly(s.notifications, resolved, event, transition.notification.value, token);
    }
  }

  lemma ReplacedExactly(
    before: map<NotificationId, Notification>, resolved: map<NotificationId, Notification>,
    event: Event, kind: NotificationKind, token: nat)
    requires resolved.Keys == before.Keys
    requires forall id :: id in before ==> resolved[id].(state := before[id].state) == before[id]
    ensures var (cards, replaced) := InsertNotification(resolved, event, kind, token);
            replaced <==> !CardsStay(before, cards)
  {
    if !HasNewerCard(resolved, event) {
      SomeGoneExactly(resolved, event.Owner());
      var cards := InsertNotification(resolved, event, kind, token).0;
      if id :| id in resolved && resolved[id].Owner() == event.Owner() {
        assert id in cards ==> cards[id].Order() == event.Order() && before[id].Order() != event.Order();
      }
    }
  }

  /** Fewer cards are left without the session's exactly if it has one. */
  lemma SomeGoneExactly(cards: map<NotificationId, Notification>, key: SessionKey)
    ensures var kept := map id | id in cards && cards[id].Owner() != key :: cards[id];
            |kept| != |cards| <==> exists id :: id in cards && cards[id].Owner() == key
  {
    var kept := map id | id in cards && cards[id].Owner() != key :: cards[id];
    var gone := set id | id in cards && cards[id].Owner() == key;
    assert cards.Keys == kept.Keys + gone && kept.Keys !! gone;
    assert |cards| == |cards.Keys| && |kept| == |kept.Keys|;
    if id :| id in cards && cards[id].Owner() == key {
      assert id in gone;
    } else {
      assert gone == {};
    }
  }

  lemma SettledHolds(s: State, event: Event, transition: Transition, at: u64, token: nat)
    ensures var after := Settle(s, event, transition, at, token);
            && Dated(s, after, at)
            && (CardsStay(s.notifications, after.notifications) ==> Holds(s, after, at))
            && (!CardsStay(s.notifications, after.notifications) ==> after.presentation.state == Desired(after, at))
  {
    SettleIsRefresh(s, event, transition, at, token);
    CardsReplacedExactly(s, event, transition, token);
    RefreshHolds(Carded(s, event, transition, at, token), at);
    var carded := Carded(s, event, transition, at, token);
    var after := Settle(s, event, transition, at, token);
    assert after.notifications == carded.notifications && after.reminderUntil == carded.reminderUntil;
    if CardsReplaced(s, event, transition, token) {
      assert Desired(carded, at) == carded.presentation.state;
    }
  }

  lemma DeliveryHolds(s: State, event: Event, at: u64, token: nat)
    requires event.Valid()
    ensures var after := ReduceAt(s, event, at, token).state;
            && Dated(s, after, at)
            && (CardsStay(s.notifications, after.notifications) ==> Holds(s, after, at))
            && (!CardsStay(s.notifications, after.notifications) ==> after.presentation.state == Desired(after, at))
  {
    R.RefusedLeavesNoTrace(s, event, at, token);
    if D.Changes(s, event, at, token) {
      var (applied, transition) := ApplyEvent(RememberEvent(s, event.Key()), event);
      D.AppliedShape(s, event, at, token);
      AppliedKeepsPresentation(s, event);
      SettledHolds(applied, event, transition, at, token);
    }
  }

  lemma AppliedKeepsPresentation(s: State, event: Event)
    requires event.Valid()
    ensures var applied := ApplyEvent(RememberEvent(s, event.Key()), event).0;
            && applied.presentation == s.presentation && applied.minimumDwell == s.minimumDwell
            && applied.reminderUntil == s.reminderUntil && applied.notifications == s.notifications
  {
  }

  /**
   An operation that neither dismisses nor replaces a card gives up the shown state for a weaker one
   only once it has been shown for the minimum dwell, unless the activity reminder comes or runs out.
   */
  lemma ShownForItsDwell(s: State, op: Op, clock: u64)
    requires op.Valid() && KeepsCards(s, op)
    ensures Holds(s, Do(s, op), ClockAfter(op, clock))
  {
    match op
    case Deliver(event, at, token) => DeliveryHolds(s, event, at, token);
    case Tick(now) => RefreshHolds(s, now);
    case Remind(startedAt) =>
      RefreshHolds(s.(reminderUntil := SaturatingAdd(startedAt, ACTIVITY_REMINDER_DURATION_MS)), startedAt);
    case Title(_, _) =>
  }

  /** Whatever changes what is shown dates it with its own time. */
  lemma ChangesAreDated(s: State, op: Op, clock: u64)
    requires op.Valid()
    ensures Dated(s, Do(s, op), ClockAfter(op, clock))
  {
    match op
    case Deliver(event, at, token) => DeliveryHolds(s, event, at, token);
    case Dismiss(_, _) =>
    case Tick(now) => RefreshHolds(s, now);
    case Remind(startedAt) =>
      RefreshHolds(s.(reminderUntil := SaturatingAdd(startedAt, ACTIVITY_REMINDER_DURATION_MS)), startedAt);
    case Title(_, _) =>
  }

  /** A tick changes what is shown exactly if something else is asked for and may be shown by then. */
  lemma TickChangesExactly(s: State, now: u64)
    ensures var desired := Desired(s, now);
            var shown := s.presentation.state;
            Advance(s, now).outcome.Applied? <==>
              && desired != shown
              && (|| desired.Rank() > shown.Rank()
                  || desired.ActivityReminder?
                  || (desired.Idle? && shown.ActivityReminder?)
                  || DwellPassed(s, now))
  {
  }

  /** A card that takes the place of another is shown at once. */
  lemma ReplacedCardIsShown(s: State, event: Event, at: u64, token: nat)
    requires event.Valid()
    requires !CardsStay(s.notifications, ReduceAt(s, event, at, token).state.notifications)
    ensures var after := ReduceAt(s, event, at, token).state;
            after.presentation.state == Desired(after, at)
  {
    DeliveryHolds(s, event, at, token);
  }

  // ---- Dismissals ----

  /** A dismissal takes the card out of what is unread and leaves everything else about the cards. */
  lemma DismissalIs(s: State, id: NotificationId, now: u64)
    ensures var step := Acknowledge(s, id, now);
            && (step.outcome.Applied? <==> id in s.notifications && s.notifications[id].state == Unread)
            && (step.outcome.Applied? ==>
                  && step.state.notifications.Keys == s.notifications.Keys
                  && step.state.notifications[id] == s.notifications[id].(state := Acknowledged)
                  && step.state.notifications - {id} == s.notifications - {id}
                  && step.state.sessions == s.sessions && step.state.reminderUntil == s.reminderUntil)
            && (!step.outcome.Applied? ==> step.state == s)
  {
  }

  /** A dismissed question keeps the pet waiting: only an answer resolves it. */
  lemma DismissedQuestionWaits(s: State, id: NotificationId, now: u64)
    requires Acknowledge(s, id, now).outcome.Applied? && s.notifications[id].kind == NotificationKind.Attention
    ensures var after := Acknowledge(s, id, now).state;
            after.presentation.state == Waiting && forall later: u64 :: Desired(after, later) == Waiting
  {
    var after := Acknowledge(s, id, now).state;
    forall later: u64
      ensures Desired(after, later) == Waiting
    {
      DesiredIsStrongest(after, later);
      assert Asks(after.notifications[id]) == Some(Waiting);
    }
    assert Desired(after, now) == Waiting;
  }

  /** A dismissed failure or completion asks for nothing any more. */
  lemma DismissedNewsIsSilent(s: State, id: NotificationId, now: u64)
    requires Acknowledge(s, id, now).outcome.Applied? && s.notifications[id].kind != NotificationKind.Attention
    requires forall other :: other in s.notifications && other != id ==> Asks(s.notifications[other]).None?
    ensures var after := Acknowledge(s, id, now).state;
            after.presentation.state == Reminds(s, now)
  {
    var after := Acknowledge(s, id, now).state;
    DesiredIsStrongest(after, now);
    assert forall other :: other in after.notifications ==> Asks(after.notifications[other]).None?;
  }

  // ---- The activity reminder ----

  predicate IsActivity(kind: EventKind) {
    kind == SessionStarted || kind == TurnStarted || kind == AttentionResolved
  }

  function FiveSecondsAfter(at: u64): u64 {
    if at + 5_000 <= U64_MAX then at + 5_000 else U64_MAX
  }

  /** An applied start or answer extends the reminder to five seconds from then; nothing shortens it. */
  lemma ActivityIsReminded(s: State, event: Event, at: u64, token: nat)
    requires event.Valid() && D.Changes(s, event, at, token)
    ensures ReduceAt(s, event, at, token).state.reminderUntil
            == if IsActivity(event.kind) then D.Later(FiveSecondsAfter(at), s.reminderUntil) else s.reminderUntil
  {
    AppliedKeepsPresentation(s, event);
  }

  /** A restarted reminder shows for five seconds and then gives way, if no card asks for anything. */
  lemma ReminderLasts(s: State, startedAt: u64, now: u64)
    requires forall id :: id in s.notifications ==> Asks(s.notifications[id]).None?
    requires startedAt < U64_MAX
    ensures var after := RestartActivityReminder(s, startedAt);
            && after.presentation.state == ActivityReminder
            && Advance(after, now).state.presentation.state
               == if now < FiveSecondsAfter(startedAt) then ActivityReminder else PresentationState.Idle
  {
    var after := RestartActivityReminder(s, startedAt);
    assert forall id :: id in s.notifications ==> Asks(after.notifications[id]).None?;
    DesiredIsStrongest(after, startedAt);
    DesiredIsStrongest(after, now);
  }
}
