/**
 When an operation is refused because what it would save could not be restored, told from the state
 before it: whether it changes anything, which session it leaves with a retired turn current, and
 whether that session would be among those kept.
 */
module SaveRefusals {
  import opened Basics
  import opened SessionTypes
  import opened ReducerModel
  import opened ReducerInvariant
  import opened PersistenceModel
  import opened RestoreNormalForm
  import opened RetiredTurns
  import opened KeptSessions
  import opened StoreModel
  import D = DeliveryEffects
  import O = DeliveryOrder
  import F = StoreSafety
  import W = PresentationDwell

  // ---- The operation, told beforehand ----

  /** The operation changes something that is saved. */
  predicate Changes(s: State, c: Command)
    requires c.Valid()
  {
    match c
    case Deliver(event, _, _, _, _) => Accepts(s, event)
    case Dismiss(id, _, _) => id in s.notifications && s.notifications[id].state.Unread?
    case Title(original, title, _) => AcceptsTitle(s, original, title)
    case Tick(_) => false
  }

  function SessionsAfter(s: State, c: Command): set<SessionKey> {
    s.sessions.Keys + if c.Deliver? then {c.event.Owner()} else {}
  }

  /** The current turn of the session counts as retired afterwards. */
  predicate RetiredAfter(s: State, c: Command, key: SessionKey)
    requires c.Valid()
  {
    if c.Deliver? && key == c.event.Owner() then LeavesRetired(s, c.event)
    else key in s.sessions && RetiresCurrent(s.sessions[key])
  }

  /** Where the session ranks afterwards among those to be kept. */
  function RankAfter(s: State, c: Command, key: SessionKey): SessionRank
    requires c.Valid() && key in SessionsAfter(s, c)
  {
    if c.Deliver? && key == c.event.Owner() then
      SessionRank(UnreadAfter(s, c.event), ActivityPriority(PhaseAfter(s, c.event)), TimeAfter(s, c.event), key)
    else if c.Dismiss? && c.id in s.notifications && s.notifications[c.id].Owner() == key then
      RankOf(s, key).(card := 0)
    else RankOf(s, key)
  }

  /** Fewer sessions than there is room for rank before it afterwards. */
  ghost predicate KeptAfter(s: State, c: Command, key: SessionKey)
    requires c.Valid() && key in SessionsAfter(s, c)
  {
    |set other | other in SessionsAfter(s, c) && RanksBefore(RankAfter(s, c, other), RankAfter(s, c, key))|
    < MAX_PERSISTED_SESSIONS
  }

  // ---- It is so ----

  lemma ChangesExactly(s: State, c: Command)
    requires Inv(s) && c.Valid()
    ensures Attempt(s, c).1 <==> Changes(s, c)
  {
    match c
    case Deliver(event, at, token, _, _) => AppliedExactly(s, event, at, token);
    case _ =>
  }

  lemma DeliveryRanks(s: State, event: Event, at: u64, token: nat, key: SessionKey)
    requires Inv(s) && event.Valid() && D.Changes(s, event, at, token)
    ensures var after := ReduceAt(s, event, at, token).state;
            && after.sessions.Keys == s.sessions.Keys + {event.Owner()}
            && (key != event.Owner() && key in s.sessions ==>
                  after.sessions[key] == s.sessions[key] && RankOf(after, key) == RankOf(s, key))
  {
    D.AppliedShape(s, event, at, token);
    ApplyKeepsSessions(RememberEvent(s, event.Key()), event);
    RecordIsAfter(s, event, at, token);
    if key != event.Owner() && key in s.sessions {
      D.OtherCardsStay(s, event, at, token, key);
      SameUnread(s.notifications, ReduceAt(s, event, at, token).state.notifications, key);
    }
  }

  lemma SameUnread(a: map<NotificationId, Notification>, b: map<NotificationId, Notification>, key: SessionKey)
    requires O.SameCards(a, b, key)
    ensures UnreadPriority(a, key) == UnreadPriority(b, key)
  {
    forall kind
      ensures HasUnread(a, key, kind) <==> HasUnread(b, key, kind)
    {
      if HasUnread(a, key, kind) {
        var id :| id in a && IsUnreadOf(a[id], key, kind);
        assert IsUnreadOf(b[id], key, kind);
      }
      if HasUnread(b, key, kind) {
        var id :| id in b && IsUnreadOf(b[id], key, kind);
        assert IsUnreadOf(a[id], key, kind);
      }
    }
  }

  lemma DismissRanks(s: State, id: NotificationId, now: u64, key: SessionKey)
    requires Inv(s) && Acknowledge(s, id, now).outcome.Applied? && key in s.sessions
    ensures var after := Acknowledge(s, id, now).state;
            && after.sessions == s.sessions
            && RankOf(after, key)
               == if s.notifications[id].Owner() == key then RankOf(s, key).(card := 0) else RankOf(s, key)
  {
    var before, after := s.notifications, Acknowledge(s, id, now).state.notifications;
    assert after == before[id := before[id].(state := Acknowledged)];
    if before[id].Owner() == key {
      assert forall other :: other in after && after[other].Owner() == key ==> other == id;
    } else {
      assert O.SameCards(before, after, key);
      SameUnread(before, after, key);
    }
  }

  lemma TitleRanks(s: State, original: Notification, title: string, key: SessionKey)
    requires key in s.sessions
    ensures var after := UpdateTitle(s, original, title).0;
            after.sessions == s.sessions && RankOf(after, key) == RankOf(s, key)
  {
    var before, after := s.notifications, UpdateTitle(s, original, title).0.notifications;
    forall kind
      ensures HasUnread(after, key, kind) <==> HasUnread(before, key, kind)
    {
      if HasUnread(before, key, kind) {
        var id :| id in before && IsUnreadOf(before[id], key, kind);
        assert IsUnreadOf(after[id], key, kind);
      }
      if HasUnread(after, key, kind) {
        var id :| id in after && IsUnreadOf(after[id], key, kind);
        assert IsUnreadOf(before[id], key, kind);
      }
    }
  }

  lemma AttemptIs(s: State, c: Command, key: SessionKey)
    requires Inv(s) && c.Valid() && Changes(s, c) && key in SessionsAfter(s, c)
    ensures var after := Attempt(s, c).0;
            && after.sessions.Keys == SessionsAfter(s, c)
            && RankOf(after, key) == RankAfter(s, c, key)
            && (RetiresCurrent(after.sessions[key]) <==> RetiredAfter(s, c, key))
  {
    match c
    case Deliver(event, at, token, _, _) =>
      AppliedExactly(s, event, at, token);
      DeliveryRanks(s, event, at, token, key);
      if key == event.Owner() {
        RecordIsAfter(s, event, at, token);
        UnreadIsAfter(s, event, at, token);
        LeavesRetiredExactly(s, event, at, token);
      }
    case Dismiss(id, now, _) => DismissRanks(s, id, now, key);
    case Title(original, title, _) => TitleRanks(s, original, title, key);
  }

  lemma AttemptKeepsExactly(s: State, c: Command, key: SessionKey)
    requires Inv(s) && c.Valid() && Changes(s, c) && key in SessionsAfter(s, c)
    ensures key in Attempt(s, c).0.sessions
    ensures key in KeptKeys(Attempt(s, c).0) <==> KeptAfter(s, c, key)
  {
    forall other | other in SessionsAfter(s, c)
      ensures Attempt(s, c).0.sessions.Keys == SessionsAfter(s, c)
      ensures RankOf(Attempt(s, c).0, other) == RankAfter(s, c, other)
    {
      AttemptIs(s, c, other);
    }
    KeptByRanks(Attempt(s, c).0, s, c, key);
  }

  lemma KeptByRanks(after: State, s: State, c: Command, key: SessionKey)
    requires c.Valid() && after.sessions.Keys == SessionsAfter(s, c) && key in SessionsAfter(s, c)
    requires forall other :: other in SessionsAfter(s, c) ==> RankOf(after, other) == RankAfter(s, c, other)
    ensures key in KeptKeys(after) <==> KeptAfter(s, c, key)
  {
    KeptExactly(after, key);
    assert KeysBefore(after, key)
        == set other | other in SessionsAfter(s, c) && RanksBefore(RankAfter(s, c, other), RankAfter(s, c, key));
  }

  /**
   An operation is refused as invalid exactly if it changes something and some session has, or is left
   with, a retired turn as its current one while ranking among those kept.
   */
  lemma InvalidExactly(w: Shared, c: Command)
    requires F.Safe(w) && c.Valid()
    ensures (exists error :: Perform(w, c).1 == Err(Invalid(error)))
            <==> (Changes(w.reducer, c)
                  && exists key :: key in SessionsAfter(w.reducer, c)
                                   && RetiredAfter(w.reducer, c, key) && KeptAfter(w.reducer, c, key))
    ensures forall error :: Perform(w, c).1 == Err(Invalid(error)) ==> error == RetiredCurrentTurn
  {
    F.InvalidMeansRetired(w, c);
    ChangesExactly(w.reducer, c);
    if Changes(w.reducer, c) {
      var after := Attempt(w.reducer, c).0;
      forall key | key in SessionsAfter(w.reducer, c)
        ensures key in after.sessions
        ensures key in KeptKeys(after) <==> KeptAfter(w.reducer, c, key)
        ensures RetiresCurrent(after.sessions[key]) <==> RetiredAfter(w.reducer, c, key)
      {
        AttemptIs(w.reducer, c, key);
        AttemptKeepsExactly(w.reducer, c, key);
      }
      KeptAreSessions(w.reducer, c);
    }
  }

  /** The operation would leave a kept session with a retired turn as its current one. */
  ghost predicate Spoils(s: State, c: Command)
    requires c.Valid()
  {
    exists key :: key in SessionsAfter(s, c) && RetiredAfter(s, c, key) && KeptAfter(s, c, key)
  }

  /** What one persisted operation answers, told from the state before it and from whether the store fails. */
  function Answer(s: State, c: Command, spoils: bool): Result<bool, SaveError>
    requires c.Valid()
  {
    if !Changes(s, c) then Ok(false)
    else if spoils then Err(Invalid(RetiredCurrentTurn))
    else if c.Fails() then Err(StoreFailed)
    else if s.revision + 1 > 0x7FFF_FFFF_FFFF_FFFF then Err(RevisionTooLarge)
    else Ok(true)
  }

  /**
   A persisted operation is saved exactly if it changes something, spoils no kept session, the store
   does not fail, and its revision fits the database; each other answer has its own exact condition.
   */
  lemma AnswersExactly(w: Shared, c: Command)
    requires F.Safe(w) && c.Valid()
    ensures Perform(w, c).1 == Answer(w.reducer, c, Spoils(w.reducer, c))
  {
    InvalidExactly(w, c);
    ChangesExactly(w.reducer, c);
    AttemptKeepsInv(w.reducer, c);
    if Changes(w.reducer, c) {
      F.SavedBumps(w.reducer, c);
      SaveRestoreNormalForm(Attempt(w.reducer, c).0, 0);
    }
  }

  /** The operation as it is without a store. */
  function OpOf(c: Command): Op
    requires c.Valid()
  {
    match c
    case Deliver(event, at, token, _, _) => Op.Deliver(event, at, token)
    case Dismiss(id, now, _) => Op.Dismiss(id, now)
    case Title(original, title, _) => Op.Title(original, title)
    case Tick(now) => Op.Tick(now)
  }

  /**
   In memory an operation that does not fail does what it does without a store, and an activity that
   was saved starts the reminder over once the save is through.
   */
  lemma PerformsTheOperation(w: Shared, c: Command)
    requires F.Safe(w) && c.Valid() && Perform(w, c).1.Ok?
    ensures OpOf(c).Valid()
    ensures var (after, result) := Perform(w, c);
            var done := Do(w.reducer, OpOf(c));
            if result.value && c.Deliver? && W.IsActivity(c.event.kind) then
              && after.reducer == done.(presentation := after.reducer.presentation,
                                        reminderUntil := W.FiveSecondsAfter(c.startedAt))
              && W.Dated(done, after.reducer, c.startedAt)
            else after.reducer == done
  {
    var (attempted, save) := Attempt(w.reducer, c);
    AttemptKeepsInv(w.reducer, c);
    W.RefreshHolds(attempted.(reminderUntil := W.FiveSecondsAfter(if c.Deliver? then c.startedAt else 0)),
                   if c.Deliver? then c.startedAt else 0);
  }

  lemma KeptAreSessions(s: State, c: Command)
    requires Inv(s) && c.Valid() && Changes(s, c)
    ensures forall key :: key in KeptKeys(Attempt(s, c).0) ==> key in SessionsAfter(s, c)
  {
    var after := Attempt(s, c).0;
    KeptRanksSorted(after);
    forall key | key in KeptKeys(after)
      ensures key in SessionsAfter(s, c)
    {
      assert key in after.sessions;
      if c.Deliver? {
        AttemptIs(s, c, c.event.Owner());
      }
    }
  }

  lemma FewAreKept(s: State, c: Command, key: SessionKey)
    requires c.Valid() && key in SessionsAfter(s, c) && |SessionsAfter(s, c)| <= MAX_PERSISTED_SESSIONS
    ensures KeptAfter(s, c, key)
  {
    var before := set other | other in SessionsAfter(s, c) && RanksBefore(RankAfter(s, c, other), RankAfter(s, c, key));
    RanksAgainst(RankAfter(s, c, key), RankAfter(s, c, key));
    assert before <= SessionsAfter(s, c) - {key};
    SubsetSize(before, SessionsAfter(s, c) - {key});
  }

  /** While all sessions are kept, exactly the deliveries that misplace a turn of theirs are refused. */
  lemma InvalidWhileAllAreKept(w: Shared, c: Command)
    requires F.Safe(w) && c.Valid() && |SessionsAfter(w.reducer, c)| <= MAX_PERSISTED_SESSIONS
    ensures (exists error :: Perform(w, c).1 == Err(Invalid(error)))
            <==> (&& c.Deliver? && c.event.IsTurnEvent() && Accepts(w.reducer, c.event)
                  && c.event.Owner() in w.reducer.sessions
                  && Misplaces(w.reducer.sessions[c.event.Owner()], c.event))
  {
    InvalidExactly(w, c);
    forall key | key in SessionsAfter(w.reducer, c)
      ensures KeptAfter(w.reducer, c, key)
    {
      FewAreKept(w.reducer, c, key);
    }
    forall key | key in w.reducer.sessions
      ensures !RetiresCurrent(w.reducer.sessions[key])
    {
      SubsetSize(w.reducer.sessions.Keys, SessionsAfter(w.reducer, c));
      AllAreKept(w.reducer, key);
    }
  }

  lemma AllAreKept(s: State, key: SessionKey)
    requires key in s.sessions && |s.sessions| <= MAX_PERSISTED_SESSIONS
    ensures key in KeptKeys(s)
  {
    RanksAgainst(RankOf(s, key), RankOf(s, key));
    assert KeysBefore(s, key) <= s.sessions.Keys - {key};
    SubsetSize(KeysBefore(s, key), s.sessions.Keys - {key});
    KeptExactly(s, key);
  }
}
