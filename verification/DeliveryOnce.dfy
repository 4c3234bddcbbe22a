/** Refused deliveries change nothing a reader can see, and no turn event is applied twice. */
module DeliveryOnce {
  import opened Basics
  import opened SessionTypes
  import opened ReducerModel
  import opened ReducerInvariant
  import opened AttentionCards

  /** A refused delivery moves at most the recent-delivery queue; a duplicate moves nothing. */
  lemma RefusedLeavesNoTrace(s: State, event: Event, at: u64, token: nat)
    requires event.Valid()
    ensures var step := ReduceAt(s, event, at, token);
            && (step.outcome.Duplicate? ==> step.state == s)
            && (!step.outcome.Applied? ==>
                  step.state == s.(recentIds := step.state.recentIds, recentSet := step.state.recentSet))
            && (step.outcome.Applied? ==> step.outcome.revision == step.state.revision
                                          && step.state.revision == SaturatingAdd(s.revision, 1))
  {
    if !IsDuplicate(s, event) {
      var remembered := RememberEvent(s, event.Key());
      var (applied, transition) := ApplyEvent(remembered, event);
      if !transition.changed {
        UnchangedApplyKeepsSessions(remembered, event);
      } else {
        SettleShape(applied, event, transition, at, token);
      }
    }
  }

  /** The turn already stands at the event's position or later. */
  predicate Absorbed(s: State, event: Event) {
    && event.turn.Some?
    && event.Owner() in s.sessions
    && event.turn.value in s.sessions[event.Owner()].turns
    && event.Order().AtMost(s.sessions[event.Owner()].turns[event.turn.value].Order())
  }

  lemma ApplyAbsorbs(s: State, event: Event)
    requires event.IsTurnEvent() && ApplyTurnEvent(s, event).1.changed
    ensures Absorbed(ApplyTurnEvent(s, event).0, event)
  {
    TurnEventTouchesOneTurn(s, event);
  }

  lemma AbsorbedIsRefused(s: State, event: Event, at: u64, token: nat)
    requires event.IsTurnEvent() && Absorbed(s, event)
    ensures !ReduceAt(s, event, at, token).outcome.Applied?
  {
    if !IsDuplicate(s, event) {
      assert NextTurnPhase(Some(s.sessions[event.Owner()].turns[event.turn.value]), event).None?;
    }
  }

  lemma AtMostTransitive(a: Stamp, b: Stamp, c: Stamp)
    requires a.AtMost(b) && b.Before(c)
    ensures a.AtMost(c)
  {
  }

  /** Turn positions only move forward, so absorption lasts. */
  lemma ApplyKeepsAbsorbed(s: State, event: Event, absorbed: Event)
    requires event.Valid() && Absorbed(s, absorbed)
    ensures Absorbed(ApplyEvent(s, event).0, absorbed)
  {
    if !ApplyEvent(s, event).1.changed {
      UnchangedApplyKeepsSessions(s, event);
    } else if event.Owner() == absorbed.Owner() {
      if event.IsTurnEvent() {
        var turns := s.sessions[event.Owner()].turns;
        if event.turn == absorbed.turn {
          TurnEventTouchesOneTurn(s, event);
          AtMostTransitive(absorbed.Order(), turns[event.turn.value].Order(), event.Order());
        }
      } else {
        SessionEventKeepsTurns(s, event);
      }
    }
  }

  lemma OpKeepsAbsorbed(s: State, op: Op, absorbed: Event)
    requires op.Valid() && Absorbed(s, absorbed)
    ensures Absorbed(Do(s, op), absorbed)
  {
    if op.Deliver? && !IsDuplicate(s, op.event) {
      var remembered := RememberEvent(s, op.event.Key());
      ApplyKeepsAbsorbed(remembered, op.event, absorbed);
      var (applied, transition) := ApplyEvent(remembered, op.event);
      if transition.changed {
        SettleShape(applied, op.event, transition, op.at, op.token);
      }
    }
  }

  lemma {:induction false} RunKeepsAbsorbed(s: State, ops: seq<Op>, absorbed: Event)
    requires ValidOps(ops) && Absorbed(s, absorbed)
    ensures Absorbed(Run(s, ops), absorbed)
    decreases |ops|
  {
    if ops != [] {
      OpKeepsAbsorbed(s, ops[0], absorbed);
      RunKeepsAbsorbed(Do(s, ops[0]), ops[1..], absorbed);
    }
  }

  /**
   Once a turn event is applied, no later event of the same turn at or before its position is ever
   applied again in memory, whatever happens in between and however long ago it was remembered.
   */
  lemma AppliedAtMostOnce(
    s: State, event: Event, at: u64, token: nat, between: seq<Op>, again: Event, at': u64, token': nat)
    requires event.IsTurnEvent() && again.IsTurnEvent() && ValidOps(between)
    requires ReduceAt(s, event, at, token).outcome.Applied?
    requires again.Owner() == event.Owner() && again.turn == event.turn && again.Order().AtMost(event.Order())
    ensures !ReduceAt(Run(ReduceAt(s, event, at, token).state, between), again, at', token').outcome.Applied?
  {
    var remembered := RememberEvent(s, event.Key());
    var (applied, transition) := ApplyTurnEvent(remembered, event);
    ApplyAbsorbs(remembered, event);
    SettleShape(applied, event, transition, at, token);
    var after := ReduceAt(s, event, at, token).state;
    assert Absorbed(after, again);
    RunKeepsAbsorbed(after, between, again);
    AbsorbedIsRefused(Run(after, between), again, at', token');
  }

  // ---- The window of recent deliveries ----

  /** The identity is in the queue with at most `since` others behind it. */
  ghost predicate Recent(ids: seq<EventKey>, key: EventKey, since: nat) {
    exists i :: 0 <= i < |ids| && |ids| - 1 - since <= i && ids[i] == key
  }

  lemma {:induction false} WithoutKeepsRecent(ids: seq<EventKey>, other: EventKey, key: EventKey, since: nat)
    requires Recent(ids, key, since) && other != key
    ensures Recent(Without(ids, other), key, since)
  {
    var i :| 0 <= i < |ids| && |ids| - 1 - since <= i && ids[i] == key;
    var rest := Without(ids[1..], other);
    WithoutElements(ids[1..], other);
    if i == 0 {
      assert Without(ids, other)[0] == key;
    } else {
      assert ids[1..][i - 1] == key;
      WithoutKeepsRecent(ids[1..], other, key, since);
      var j :| 0 <= j < |rest| && |rest| - 1 - since <= j && rest[j] == key;
      assert ids[0] != other ==> Without(ids, other)[j + 1] == key;
    }
  }

  lemma RememberedStaysRecent(s: State, other: EventKey, key: EventKey, since: nat)
    requires Recent(s.recentIds, key, since) && since + 1 < 4_096
    ensures Recent(RememberEvent(s, other).recentIds, key, since + 1)
  {
    var ids := (if other in s.recentSet then Without(s.recentIds, other) else s.recentIds) + [other];
    var kept := RememberEvent(s, other).recentIds;
    var cut := |ids| - |kept|;
    assert forall i :: 0 <= i < |kept| ==> kept[i] == ids[cut + i];
    if other == key {
      assert kept[|kept| - 1] == key;
    } else {
      if other in s.recentSet {
        WithoutKeepsRecent(s.recentIds, other, key, since);
      }
      var before := ids[..|ids| - 1];
      assert Recent(before, key, since);
      var i :| 0 <= i < |before| && |before| - 1 - since <= i && before[i] == key;
      assert kept[i - cut] == key;
    }
  }

  lemma NewlyRemembered(s: State, key: EventKey)
    ensures Recent(RememberEvent(s, key).recentIds, key, 0)
  {
    var kept := RememberEvent(s, key).recentIds;
    assert kept[|kept| - 1] == key;
  }

  lemma DeliverRemembers(s: State, event: Event, at: u64, token: nat)
    requires event.Valid() && !ReduceAt(s, event, at, token).outcome.Duplicate?
    ensures ReduceAt(s, event, at, token).state.recentIds == RememberEvent(s, event.Key()).recentIds
  {
    var remembered := RememberEvent(s, event.Key());
    var (applied, transition) := ApplyEvent(remembered, event);
    if transition.changed {
      SettleShape(applied, event, transition, at, token);
    } else {
      UnchangedApplyKeepsSessions(remembered, event);
    }
  }

  lemma {:induction false} RunStaysRecent(s: State, ops: seq<Op>, key: EventKey, since: nat)
    requires ValidOps(ops) && Recent(s.recentIds, key, since) && since + |ops| < 4_096
    ensures Recent(Run(s, ops).recentIds, key, since + |ops|)
    decreases |ops|
  {
    if ops != [] {
      var op := ops[0];
      if op.Deliver? && !ReduceAt(s, op.event, op.at, op.token).outcome.Duplicate? {
        DeliverRemembers(s, op.event, op.at, op.token);
        RememberedStaysRecent(s, op.event.Key(), key, since);
      }
      assert Recent(Do(s, op).recentIds, key, since + 1);
      RunStaysRecent(Do(s, op), ops[1..], key, since + 1);
    }
  }

  /**
   A turn event that comes again before 4,096 other operations is a duplicate and changes nothing,
   also if it was out of date when it came first.
   */
  lemma DeliveredAgainIsDuplicate(
    s: State, event: Event, at: u64, token: nat, between: seq<Op>, at': u64, token': nat)
    requires Inv(s) && event.IsTurnEvent() && ValidOps(between) && |between| < 4_096
    requires !ReduceAt(s, event, at, token).outcome.Duplicate?
    ensures var after := Run(ReduceAt(s, event, at, token).state, between);
            ReduceAt(after, event, at', token') == Step(after, Duplicate)
  {
    var first := ReduceAt(s, event, at, token).state;
    DeliverRemembers(s, event, at, token);
    NewlyRemembered(s, event.Key());
    RunStaysRecent(first, between, event.Key(), 0);
    DeliverKeepsInv(s, event, at, token);
    RunKeepsInv(first, between);
    var after := Run(first, between);
    assert event.Key() in after.recentIds;
    assert event.Key() in Elements(after.recentIds);
  }
}
