/** What the pet shows against what the cards ask for, under a clock that does not run back. */
module Presentation {
  import opened Basics
  import opened SessionTypes
  import opened ReducerModel
  import opened ReducerInvariant
  import opened DeliveryOnce

  /** The shown state is at least as strong as the desired one. */
  predicate NeverUnder(s: State, now: u64) {
    s.presentation.state.Rank() >= Desired(s, now).Rank()
  }

  /** The shown state is the desired one, or a stronger one still within its minimum dwell. */
  predicate Tight(s: State, now: u64) {
    || s.presentation.state == Desired(s, now)
    || (s.presentation.state.Rank() > Desired(s, now).Rank() && now < s.presentation.since + s.minimumDwell)
  }

  /** The wish can only weaken while nothing happens: a reminder runs out. */
  lemma DesireWeakens(s: State, early: u64, late: u64)
    requires early <= late
    ensures Desired(s, late).Rank() <= Desired(s, early).Rank()
  {
  }

  lemma RefreshTightens(s: State, now: u64)
    ensures Tight(RefreshPresentation(s, now).0, now)
    ensures NeverUnder(RefreshPresentation(s, now).0, now)
  {
    assert Desired(RefreshPresentation(s, now).0, now) == Desired(s, now);
  }

  /** An applied delivery leaves the presentation tight at its acceptance time. */
  lemma AppliedIsTight(s: State, event: Event, at: u64, token: nat)
    requires event.Valid() && ReduceAt(s, event, at, token).outcome.Applied?
    ensures var after := ReduceAt(s, event, at, token).state;
            Tight(after, at) && NeverUnder(after, at)
  {
    var (applied, transition) := ApplyEvent(RememberEvent(s, event.Key()), event);
    SettledIsTight(applied, event, transition, at, token);
  }

  lemma SettledIsTight(s: State, event: Event, transition: Transition, at: u64, token: nat)
    ensures var after := Settle(s, event, transition, at, token);
            Tight(after, at) && NeverUnder(after, at)
  {
    var reminded :=
      if event.kind.StartsActivity() then
        var until := SaturatingAdd(at, ACTIVITY_REMINDER_DURATION_MS);
        s.(reminderUntil := if until > s.reminderUntil then until else s.reminderUntil)
      else s;
    var resolved :=
      if transition.resolveAttention then
        reminded.(notifications := ResolveAttention(reminded.notifications, event.Owner(), event.turn))
      else reminded;
    var carded :=
      if transition.notification.Some? then
        var (cards, replaced) :=
          InsertNotification(resolved.notifications, event, transition.notification.value, token);
        var inserted := resolved.(notifications := cards);
        if replaced then ShowDesired(inserted, at) else inserted
      else resolved;
    RefreshTightens(carded, at);
  }

  /** Advancing once the dwell has passed shows exactly what is desired. */
  lemma AdvanceSettles(s: State, now: u64)
    requires now >= s.presentation.since + s.minimumDwell
    ensures var after := Advance(s, now).state;
            after.presentation.state == Desired(after, now) == Desired(s, now)
  {
  }

  /** A dismissal shows the desired state at once. */
  lemma DismissShowsDesired(s: State, id: NotificationId, now: u64)
    requires Acknowledge(s, id, now).outcome.Applied?
    ensures var after := Acknowledge(s, id, now).state;
            after.presentation.state == Desired(after, now)
  {
  }

  // ---- Runs under a clock ----

  /** The clock after the operation; titles take no time. */
  function ClockAfter(op: Op, clock: u64): u64 {
    match op
    case Deliver(_, at, _) => at
    case Dismiss(_, now) => now
    case Tick(now) => now
    case Remind(startedAt) => startedAt
    case Title(_, _) => clock
  }

  ghost predicate Forward(ops: seq<Op>, clock: u64)
    decreases |ops|
  {
    ops == [] || (clock <= ClockAfter(ops[0], clock) && Forward(ops[1..], ClockAfter(ops[0], clock)))
  }

  ghost function FinalClock(ops: seq<Op>, clock: u64): u64
    decreases |ops|
  {
    if ops == [] then clock else FinalClock(ops[1..], ClockAfter(ops[0], clock))
  }

  lemma TitleKeepsDesire(s: State, original: Notification, title: string, now: u64)
    ensures var after := UpdateTitle(s, original, title).0;
            Desired(after, now) == Desired(s, now) && after.presentation == s.presentation
  {
    if AcceptsTitle(s, original, title) {
      var card := s.notifications[original.id];
      var after := UpdateTitle(s, original, title).0;
      assert forall id :: id in s.notifications ==>
        after.notifications[id].kind == s.notifications[id].kind
        && after.notifications[id].state == s.notifications[id].state;
    }
  }

  lemma OpKeepsNeverUnder(s: State, op: Op, clock: u64)
    requires op.Valid() && NeverUnder(s, clock) && clock <= ClockAfter(op, clock)
    ensures NeverUnder(Do(s, op), ClockAfter(op, clock))
  {
    var now := ClockAfter(op, clock);
    DesireWeakens(s, clock, now);
    match op
    case Deliver(event, at, token) =>
      RefusedLeavesNoTrace(s, event, at, token);
      if ReduceAt(s, event, at, token).outcome.Applied? {
        AppliedIsTight(s, event, at, token);
      }
    case Dismiss(id, _) =>
    case Tick(_) =>
      RefreshTightens(s, now);
    case Remind(startedAt) =>
      RefreshTightens(s.(reminderUntil := SaturatingAdd(startedAt, ACTIVITY_REMINDER_DURATION_MS)), startedAt);
    case Title(original, title) =>
      TitleKeepsDesire(s, original, title, now);
  }

  /** In no run, at no time up to or after its last operation, does the pet show too little. */
  lemma {:induction false} RunNeverUnder(s: State, ops: seq<Op>, clock: u64, now: u64)
    requires ValidOps(ops) && NeverUnder(s, clock) && Forward(ops, clock) && FinalClock(ops, clock) <= now
    ensures NeverUnder(Run(s, ops), now)
    decreases |ops|
  {
    if ops == [] {
      DesireWeakens(s, clock, now);
    } else {
      OpKeepsNeverUnder(s, ops[0], clock);
      RunNeverUnder(Do(s, ops[0]), ops[1..], ClockAfter(ops[0], clock), now);
    }
  }
}
