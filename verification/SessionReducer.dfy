/**
 The session reducer as the program has it: fields updated in place. Every method is proved to
 act as the corresponding function of ReducerModel or PersistenceModel, so the theorems about
 those functions speak of this class.
 */
module SessionReducer {
  import opened Basics
  import opened Ordering
  import opened SessionTypes
  import M = ReducerModel
  import I = ReducerInvariant
  import P = PersistenceModel
  import R = Restarts

  class SessionReducer {
    var revision: u64
    var sessions: map<SessionKey, SessionRecord>
    var notifications: map<NotificationId, Notification>
    var recentIds: seq<EventKey>
    var recentSet: set<EventKey>
    var presentation: M.Tracker
    var minimumDwell: u64
    var reminderUntil: u64

    ghost function Abs(): M.State
      reads this
    {
      M.State(revision, sessions, notifications, recentIds, recentSet, presentation, minimumDwell, reminderUntil)
    }

    ghost predicate Valid()
      reads this
    {
      I.Inv(Abs())
    }

    constructor WithMinimumDwell(minimumDwell: u64)
      ensures Valid() && Abs() == M.INITIAL.(minimumDwell := minimumDwell)
    {
      revision, sessions, notifications := 0, map[], map[];
      recentIds, recentSet := [], {};
      presentation := M.Tracker(PresentationState.Idle, 0);
      this.minimumDwell, reminderUntil := minimumDwell, 0;
    }

    constructor FromParts(
      revision: u64,
      sessions: map<SessionKey, SessionRecord>,
      notifications: map<NotificationId, Notification>)
      ensures Abs() == M.State(revision, sessions, notifications, [], {},
                               M.Tracker(M.DesiredPresentation(notifications, 0, 0), 0), M.DEFAULT_MINIMUM_DWELL_MS, 0)
    {
      this.revision, this.sessions, this.notifications := revision, sessions, notifications;
      recentIds, recentSet := [], {};
      presentation := M.Tracker(M.DesiredPresentation(notifications, 0, 0), 0);
      minimumDwell, reminderUntil := M.DEFAULT_MINIMUM_DWELL_MS, 0;
    }

    constructor Copy(other: SessionReducer)
      ensures Abs() == other.Abs()
    {
      revision, sessions, notifications := other.revision, other.sessions, other.notifications;
      recentIds, recentSet := other.recentIds, other.recentSet;
      presentation, minimumDwell, reminderUntil := other.presentation, other.minimumDwell, other.reminderUntil;
    }

    // ---- Guards ----

    predicate IsDuplicateInCurrentLifecycle(event: Event)
      reads this
      ensures IsDuplicateInCurrentLifecycle(event) == M.IsDuplicate(Abs(), event)
    {
      if event.Key() !in recentSet then false
      else
        var known := event.Owner() in sessions;
        match event.kind
        case SessionStarted => known && !sessions[event.Owner()].ended
        case SessionEnded => known && sessions[event.Owner()].ended
        case _ => true
    }

    // ---- Operations ----

    method ReduceAt(event: Event, at: u64, token: nat) returns (outcome: M.Outcome)
      requires Valid() && event.Valid()
      modifies this
      ensures Valid()
      ensures M.Step(Abs(), outcome) == M.ReduceAt(old(Abs()), event, at, token)
    {
      I.DeliverKeepsInv(Abs(), event, at, token);
      if IsDuplicateInCurrentLifecycle(event) {
        return M.Duplicate;
      }
      RememberEvent(event.Key());
      var transition;
      if event.kind.IsSessionScoped() {
        transition := ApplySessionEvent(event);
      } else {
        transition := ApplyTurnEvent(event);
      }
      if !transition.changed {
        return M.IgnoredStale;
      }
      SettleTransition(event, transition, at, token);
      revision := SaturatingAdd(revision, 1);
      outcome := M.Applied(revision);
    }

    method SettleTransition(event: Event, transition: M.Transition, at: u64, token: nat)
      modifies this`reminderUntil, this`notifications, this`presentation
      ensures Abs() == M.Settle(old(Abs()), event, transition, at, token)
    {
      if event.kind.StartsActivity() {
        var until := SaturatingAdd(at, M.ACTIVITY_REMINDER_DURATION_MS);
        reminderUntil := if until > reminderUntil then until else reminderUntil;
      }
      if transition.resolveAttention {
        ResolveAttention(event.Owner(), event.turn);
      }
      if transition.notification.Some? {
        var replaced := InsertNotification(event, transition.notification.value, token);
        if replaced {
          ShowDesired(at);
        }
      }
      var _ := RefreshPresentation(at);
    }

    method RestartActivityReminder(startedAt: u64)
      requires Valid()
      modifies this`reminderUntil, this`presentation
      ensures Valid() && Abs() == M.RestartActivityReminder(old(Abs()), startedAt)
    {
      reminderUntil := SaturatingAdd(startedAt, M.ACTIVITY_REMINDER_DURATION_MS);
      var _ := RefreshPresentation(startedAt);
    }

    method AcknowledgeNotification(id: NotificationId, now: u64) returns (outcome: M.Outcome)
      requires Valid()
      modifies this`notifications, this`presentation, this`revision
      ensures Valid()
      ensures M.Step(Abs(), outcome) == M.Acknowledge(old(Abs()), id, now)
    {
      if id !in notifications || !notifications[id].state.Unread? {
        return M.IgnoredStale;
      }
      notifications := notifications[id := notifications[id].(state := Acknowledged)];
      ShowDesired(now);
      revision := SaturatingAdd(revision, 1);
      outcome := M.Applied(revision);
    }

    method AdvancePresentation(now: u64) returns (outcome: M.Outcome)
      requires Valid()
      modifies this`presentation, this`revision
      ensures Valid()
      ensures M.Step(Abs(), outcome) == M.Advance(old(Abs()), now)
    {
      var shown := RefreshPresentation(now);
      if !shown {
        return M.IgnoredStale;
      }
      revision := SaturatingAdd(revision, 1);
      outcome := M.Applied(revision);
    }

    method UpdateNotificationTitle(original: Notification, title: string) returns (updated: bool)
      requires Valid()
      modifies this`notifications, this`revision
      ensures Valid()
      ensures (Abs(), updated) == M.UpdateTitle(old(Abs()), original, title)
    {
      if original.id !in notifications {
        return false;
      }
      var card := notifications[original.id];
      if !card.state.Unread?
         || card.incarnation != original.incarnation
         || card.provider != original.provider
         || card.session != original.session
         || card.event != original.event
         || card.title == Some(title)
         || !IsTitle(title)
      {
        return false;
      }
      notifications := notifications[original.id := card.(title := Some(title))];
      revision := SaturatingAdd(revision, 1);
      updated := true;
    }

    // ---- Parts of a delivery ----

    method RememberEvent(key: EventKey)
      modifies this`recentIds, this`recentSet
      ensures Abs() == M.RememberEvent(old(Abs()), key)
    {
      if key in recentSet {
        recentIds := M.Without(recentIds, key);
      } else {
        recentSet := recentSet + {key};
      }
      recentIds := recentIds + [key];
      ghost var ids := recentIds;
      ghost var expired := 0;
      while |recentIds| > M.MAX_RECENT_EVENT_IDS
        invariant 0 <= expired <= |ids| && recentIds == ids[expired..]
        invariant expired > 0 ==> |ids| - expired >= M.MAX_RECENT_EVENT_IDS
        invariant recentSet == old(recentSet) + {key} - Elements(ids[..expired])
      {
        assert ids[..expired + 1] == ids[..expired] + [recentIds[0]];
        recentSet := recentSet - {recentIds[0]};
        recentIds := recentIds[1..];
        expired := expired + 1;
      }
      assert recentIds == Newest(ids, M.MAX_RECENT_EVENT_IDS);
    }

    method ApplySessionEvent(event: Event) returns (transition: M.Transition)
      requires event.kind.IsSessionScoped()
      modifies this`sessions
      ensures (Abs(), transition) == M.ApplySessionEvent(old(Abs()), event)
    {
      var key := event.Owner();
      if event.kind.SessionStarted? {
        if key in sessions {
          var session := sessions[key];
          if event.Order().AtMost(session.Order()) || !session.ended {
            return M.UNCHANGED;
          }
          session := session.(ended := false, current := None);
          session := session.(updatedAt := event.occurredAt, lastEvent := event.id);
          if event.project.Some? {
            session := session.(project := event.project);
          }
          sessions := sessions[key := session];
        } else {
          sessions := sessions[key := NewSession(event)];
        }
        transition := M.Transition(true, None, false);
      } else {
        if key in sessions {
          var session := sessions[key];
          if event.Order().AtMost(session.Order()) || session.ended {
            return M.UNCHANGED;
          }
          session := session.(ended := true);
          session := session.(updatedAt := event.occurredAt, lastEvent := event.id);
          sessions := sessions[key := session];
        } else {
          sessions := sessions[key := NewSession(event).(ended := true)];
        }
        transition := M.Transition(true, None, true);
      }
    }

    method ApplyTurnEvent(event: Event) returns (transition: M.Transition)
      requires event.IsTurnEvent()
      modifies this`sessions
      ensures (Abs(), transition) == M.ApplyTurnEvent(old(Abs()), event)
    {
      var turn := event.turn.value;
      var key := event.Owner();
      if key !in sessions {
        sessions := sessions[key := NewSession(event)];
      }
      ghost var entered := sessions;
      var session := sessions[key];
      assert old(sessions)[key := session] == entered;
      var previous := if turn in session.turns then Some(session.turns[turn]) else None;
      var startsNewTurn := previous.None? && session.current.Some? && session.current.value != turn;
      if startsNewTurn && turn in session.retired {
        return M.UNCHANGED;
      }
      if previous.None? && event.id != session.lastEvent && event.Order().AtMost(session.Order()) {
        return M.UNCHANGED;
      }
      var phase := M.NextTurnPhase(previous, event);
      if phase.None? {
        return M.UNCHANGED;
      }
      if startsNewTurn {
        session := RememberRetiredTurn(session, session.current.value);
      }
      session := session.(turns := session.turns[turn := TurnRecord(phase.value, event.occurredAt, event.id)]);
      session := session.(ended := false);
      session := M.UpdateSessionAfterTurn(session, event, turn);
      sessions := sessions[key := session];
      assert sessions == old(sessions)[key := session];
      transition := M.Transition(
        true, M.TurnNotification(event.kind), event.kind.AttentionResolved? || event.kind.IsTerminal());
    }

    static method RememberRetiredTurn(session: SessionRecord, turn: TurnId) returns (updated: SessionRecord)
      ensures updated == M.RememberRetired(session, turn)
    {
      var retired := M.Without(session.retired, turn) + [turn];
      ghost var ids := retired;
      ghost var dropped := 0;
      while |retired| > M.MAX_RETIRED_TURNS
        invariant 0 <= dropped <= |ids| && retired == ids[dropped..]
        invariant dropped > 0 ==> |ids| - dropped >= M.MAX_RETIRED_TURNS
      {
        retired := retired[1..];
        dropped := dropped + 1;
      }
      assert retired == Newest(ids, M.MAX_RETIRED_TURNS);
      updated := session.(retired := retired);
    }

    method ResolveAttention(key: SessionKey, turn: Option<TurnId>)
      modifies this`notifications
      ensures Abs() == old(Abs()).(notifications := M.ResolveAttention(old(notifications), key, turn))
    {
      ghost var resolved := M.ResolveAttention(notifications, key, turn);
      var remaining := notifications.Keys;
      while remaining != {}
        invariant remaining <= notifications.Keys == old(notifications).Keys
        invariant forall id :: id in notifications ==>
          notifications[id] == if id in remaining then old(notifications)[id] else resolved[id]
        decreases |remaining|
      {
        var id :| id in remaining;
        var card := notifications[id];
        if card.Owner() == key && (turn.None? || card.turn == turn) && card.kind.Attention? {
          notifications := notifications[id := card.(state := Resolved)];
        }
        remaining := remaining - {id};
      }
      assert notifications == resolved;
    }

    method InsertNotification(event: Event, kind: NotificationKind, token: nat) returns (replaced: bool)
      modifies this`notifications
      ensures Abs() == old(Abs()).(notifications := M.InsertNotification(old(notifications), event, kind, token).0)
      ensures replaced == M.InsertNotification(old(notifications), event, kind, token).1
    {
      if M.HasNewerCard(notifications, event) {
        return false;
      }
      var previousCount := |notifications|;
      notifications := map id | id in notifications && notifications[id].Owner() != event.Owner() :: notifications[id];
      replaced := |notifications| != previousCount;
      if event.CardId() !in notifications {
        notifications := notifications[event.CardId() := M.NewCard(event, kind, token)];
      }
    }

    method ShowDesired(now: u64)
      modifies this`presentation
      ensures Abs() == M.ShowDesired(old(Abs()), now)
    {
      var desired := M.DesiredPresentation(notifications, reminderUntil, now);
      if desired != presentation.state {
        presentation := M.Tracker(desired, now);
      }
    }

    method RefreshPresentation(now: u64) returns (shown: bool)
      modifies this`presentation
      ensures (Abs(), shown) == M.RefreshPresentation(old(Abs()), now)
    {
      var desired := M.DesiredPresentation(notifications, reminderUntil, now);
      if desired == presentation.state {
        return false;
      }
      var expiredReminder := presentation.state.ActivityReminder? && desired.Idle? && reminderUntil <= now;
      var canInterrupt :=
        desired.Rank() > presentation.state.Rank() || desired.ActivityReminder? || expiredReminder;
      var dwellElapsed := SaturatingSub(now, presentation.since) >= minimumDwell;
      if !canInterrupt && !dwellElapsed {
        return false;
      }
      presentation := M.Tracker(desired, now);
      shown := true;
    }

    // ---- Saving ----

    method UnreadPriorities() returns (priorities: map<SessionKey, nat>)
      ensures forall key :: (if key in priorities then priorities[key] else 0) == P.UnreadPriority(notifications, key)
    {
      priorities := map[];
      var remaining := notifications.Keys;
      ghost var seen: map<NotificationId, Notification> := map[];
      while remaining != {}
        invariant remaining <= notifications.Keys
        invariant seen == map id | id in notifications && id !in remaining :: notifications[id]
        invariant forall key :: (if key in priorities then priorities[key] else 0) == P.UnreadPriority(seen, key)
        decreases |remaining|
      {
        var id :| id in remaining;
        var card := notifications[id];
        remaining := remaining - {id};
        if card.state.Unread? {
          var key := card.Owner();
          var priority := card.Priority();
          priorities := priorities[key :=
            if key in priorities && priorities[key] > priority then priorities[key] else priority];
        }
        PriorityGrows(seen, card, id);
        seen := seen[id := card];
      }
      assert seen == notifications;
    }

    static lemma PriorityGrows(seen: map<NotificationId, Notification>, card: Notification, id: NotificationId)
      requires id !in seen
      ensures forall key ::
        P.UnreadPriority(seen[id := card], key) ==
          if card.state.Unread? && card.Owner() == key && card.Priority() > P.UnreadPriority(seen, key)
          then card.Priority() else P.UnreadPriority(seen, key)
    {
      var grown := seen[id := card];
      forall key, kind: NotificationKind
        ensures P.HasUnread(grown, key, kind) <==> P.HasUnread(seen, key, kind) || P.IsUnreadOf(card, key, kind)
      {
        if P.HasUnread(seen, key, kind) {
          var other :| other in seen && P.IsUnreadOf(seen[other], key, kind);
          assert P.IsUnreadOf(grown[other], key, kind);
        }
        if P.IsUnreadOf(card, key, kind) {
          assert P.IsUnreadOf(grown[id], key, kind);
        }
      }
    }

    method PersistentState() returns (p: P.PersistedState)
      requires Valid()
      ensures p == P.Persist(Abs())
    {
      var kept := KeepSessions();
      var persisted := PersistSessions(kept);
      var keys := set rank | rank in kept :: rank.key;
      var cards := ListCards(keys);
      p := P.PersistedState(revision, persisted, cards);
    }

    method KeepSessions() returns (kept: seq<P.SessionRank>)
      ensures kept == P.KeptRanks(Abs())
    {
      var ranks := RankSessions();
      kept := if |ranks| <= P.MAX_PERSISTED_SESSIONS then ranks else ranks[..P.MAX_PERSISTED_SESSIONS];
    }

    method PersistSessions(kept: seq<P.SessionRank>) returns (persisted: seq<P.PersistedSession>)
      requires kept == P.KeptRanks(Abs())
      ensures persisted == P.PersistedSessions(Abs())
    {
      P.KeptRanksKnown(Abs());
      persisted := [];
      for i := 0 to |kept|
        invariant |persisted| == i
        invariant forall j :: 0 <= j < i ==> persisted[j] == P.PersistedSessions(Abs())[j]
      {
        assert kept[i] in kept;
        persisted := persisted + [P.PersistSession(sessions[kept[i].key])];
      }
    }

    method RankSessions() returns (ranked: seq<P.SessionRank>)
      ensures ranked == P.SessionsInOrder(P.RanksOf(Abs()))
    {
      var priorities := UnreadPriorities();
      var ranks: seq<P.SessionRank> := [];
      var remaining := sessions.Keys;
      while remaining != {}
        invariant remaining <= sessions.Keys
        invariant Distinct(ranks)
        invariant forall rank :: rank in ranks <==>
          rank.key in sessions && rank.key !in remaining && rank == P.RankOf(Abs(), rank.key)
        decreases |remaining|
      {
        var key :| key in remaining;
        var card := if key in priorities then priorities[key] else 0;
        var rank := P.SessionRank(card, P.ActivityPriority(sessions[key].Phase()), sessions[key].updatedAt, key);
        assert rank !in ranks;
        ranks := ranks + [rank];
        remaining := remaining - {key};
      }
      P.RankOrders();
      assert Elements(ranks) == P.RanksOf(Abs());
      ranked := SortBy(ranks, P.RanksBefore);
      P.SessionsInOrderUnique(ranked);
    }

    static predicate Covered(chosen: map<SessionKey, Notification>, card: Notification, keys: set<SessionKey>) {
      card.state.Unread? && card.Owner() in keys
      ==> card.Owner() in chosen && !P.Supersedes(card, chosen[card.Owner()])
    }

    /** The best unread card of every kept session. */
    method ChooseCards(keys: set<SessionKey>) returns (chosen: map<SessionKey, Notification>)
      requires P.Keyed(notifications)
      ensures forall key :: key in chosen ==>
        && chosen[key].id in notifications && notifications[chosen[key].id] == chosen[key]
        && chosen[key].Owner() == key
        && P.IsKeptCard(Abs(), keys, chosen[key].id)
      ensures forall id :: id in notifications && P.IsKeptCard(Abs(), keys, id) ==>
        notifications[id].Owner() in chosen && chosen[notifications[id].Owner()].id == id
    {
      chosen := map[];
      var remaining := notifications.Keys;
      while remaining != {}
        invariant remaining <= notifications.Keys
        invariant forall key :: key in chosen ==>
          && chosen[key].id in notifications && notifications[chosen[key].id] == chosen[key]
          && chosen[key].Owner() == key && chosen[key].state.Unread? && key in keys
        invariant forall id :: id in notifications && id !in remaining ==> Covered(chosen, notifications[id], keys)
        decreases |remaining|
      {
        var id :| id in remaining;
        remaining := remaining - {id};
        var card := notifications[id];
        var key := card.Owner();
        if card.state.Unread? && key in keys && (key !in chosen || P.Supersedes(card, chosen[key])) {
          chosen := chosen[key := card];
        }
      }
    }

    static method RanksOfChosen(chosen: map<SessionKey, Notification>) returns (ranks: seq<P.CardRank>)
      requires forall a, b :: a in chosen && b in chosen && chosen[a].id == chosen[b].id ==> a == b
      ensures Distinct(ranks)
      ensures Elements(ranks) == set key | key in chosen :: P.CardRankOf(chosen[key])
    {
      ranks := [];
      var remaining := chosen.Keys;
      while remaining != {}
        invariant remaining <= chosen.Keys
        invariant Distinct(ranks)
        invariant forall rank :: rank in ranks <==>
          exists key :: key in chosen && key !in remaining && rank == P.CardRankOf(chosen[key])
        decreases |remaining|
      {
        var key :| key in remaining;
        var rank := P.CardRankOf(chosen[key]);
        assert forall other :: other in chosen && chosen[other].id == chosen[key].id ==> other == key;
        assert rank !in ranks;
        ranks := ranks + [rank];
        remaining := remaining - {key};
      }
    }

    method RankCards(keys: set<SessionKey>) returns (ranked: seq<P.CardRank>)
      requires P.Keyed(notifications) && keys == P.KeptKeys(Abs())
      ensures ranked == P.CardRanking(Abs())
    {
      var chosen := ChooseCards(keys);
      var ranks := RanksOfChosen(chosen);
      forall rank | rank in P.KeptCardRanks(Abs(), keys)
        ensures rank in Elements(ranks)
      {
        var id :| id in notifications && P.IsKeptCard(Abs(), keys, id) && rank == P.CardRankOf(notifications[id]);
        assert chosen[notifications[id].Owner()] == notifications[id];
      }
      assert Elements(ranks) == P.KeptCardRanks(Abs(), keys);
      ranked := SortCardRanks(ranks);
    }

    static method SortCardRanks(ranks: seq<P.CardRank>) returns (ranked: seq<P.CardRank>)
      requires Distinct(ranks)
      ensures ranked == P.CardsInOrder(Elements(ranks))
    {
      P.RankOrders();
      ranked := SortBy(ranks, P.CardBefore);
      P.CardsInOrderUnique(ranked);
    }

    method ListCards(keys: set<SessionKey>) returns (cards: seq<Notification>)
      requires P.Keyed(notifications) && keys == P.KeptKeys(Abs())
      ensures cards == P.PersistedCards(Abs())
    {
      var ranked := RankCards(keys);
      P.RankingKnown(Abs());
      cards := [];
      for i := 0 to |ranked|
        invariant |cards| == i
        invariant forall j :: 0 <= j < i ==> cards[j] == P.Serialized(notifications[ranked[j].id])
      {
        cards := cards + [P.Serialized(notifications[ranked[i].id])];
      }
    }

    // ---- Restoring ----

    static method FromPersistentState(p: P.PersistedState, token: nat)
      returns (result: Result<SessionReducer, P.RestoreError>)
      ensures match P.Restore(p, token)
              case Err(error) => result == Err(error)
              case Ok(state) => result.Ok? && fresh(result.value) && result.value.Valid() && result.value.Abs() == state
    {
      if |p.sessions| > P.MAX_PERSISTED_SESSIONS {
        return Err(P.TooManySessions);
      }
      var sessions: map<SessionKey, SessionRecord> := map[];
      for i := 0 to |p.sessions|
        invariant P.RestoreSessions(p.sessions, map[]) == P.RestoreSessions(p.sessions[i..], sessions)
      {
        var record := IntoRecord(p.sessions[i]);
        if record.Err? {
          return Err(record.error);
        }
        if p.sessions[i].Key() in sessions {
          return Err(P.DuplicateSession);
        }
        assert p.sessions[i..][1..] == p.sessions[i + 1..];
        sessions := sessions[p.sessions[i].Key() := record.value];
      }
      var notifications: map<NotificationId, Notification> := map[];
      var owners: set<SessionKey> := {};
      for i := 0 to |p.notifications|
        invariant P.RestoreCards(p.notifications, sessions, map[], {}, token)
                  == P.RestoreCards(p.notifications[i..], sessions, notifications, owners, token + i)
      {
        var card := p.notifications[i];
        if !card.state.Unread? {
          return Err(P.InvalidNotificationState);
        }
        if card.Owner() !in sessions {
          return Err(P.NotificationWithoutSession);
        }
        if card.Owner() in owners {
          return Err(P.DuplicateSessionNotification);
        }
        if card.id in notifications {
          return Err(P.DuplicateNotification);
        }
        assert p.notifications[i..][1..] == p.notifications[i + 1..];
        owners := owners + {card.Owner()};
        notifications := notifications[card.id := card.(incarnation := token + i)];
      }
      R.RestoreYieldsInv(p, token);
      var reducer := new SessionReducer.FromParts(p.revision, sessions, notifications);
      result := Ok(reducer);
    }

    static method IntoRecord(p: P.PersistedSession) returns (result: Result<SessionRecord, P.RestoreError>)
      ensures result == P.RestoreSession(p)
    {
      var turns: map<TurnId, TurnRecord> := map[];
      if p.currentTurn.Some? {
        var turn := p.currentTurn.value;
        turns := turns[turn.id := TurnRecord(turn.phase, turn.updatedAt, turn.lastEvent)];
      }
      if |p.retired| > M.MAX_RETIRED_TURNS {
        return Err(P.TooManyRetiredTurns);
      }
      var retired: seq<TurnId> := [];
      for i := 0 to |p.retired|
        invariant retired == p.retired[..i]
        invariant P.CheckRetired(p.retired, p.current, []) == P.CheckRetired(p.retired[i..], p.current, retired)
      {
        if p.current == Some(p.retired[i]) {
          return Err(P.RetiredCurrentTurn);
        }
        if p.retired[i] in retired {
          return Err(P.DuplicateRetiredTurn);
        }
        assert p.retired[i..][1..] == p.retired[i + 1..];
        retired := retired + [p.retired[i]];
      }
      assert retired == p.retired && p.retired[|p.retired|..] == [];
      if p.current.Some? && p.current.value !in turns {
        return Err(P.InvalidCurrentTurn);
      }
      result := Ok(SessionRecord(p.provider, p.id, p.current, turns, retired, p.project,
                                 p.updatedAt, p.lastEvent, p.ended));
    }
  }
}
