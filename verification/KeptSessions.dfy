/** Which sessions a save keeps, and how each ranks after an operation, told from the state before it. */
module KeptSessions {
  import opened Basics
  import opened SessionTypes
  import opened ReducerModel
  import opened ReducerInvariant
  import opened PersistenceModel
  import opened RetiredTurns
  import D = DeliveryEffects

  // ---- Which sessions a save would keep ----

  ghost function KeysBefore(s: State, key: SessionKey): set<SessionKey>
    requires key in s.sessions
  {
    set other | other in s.sessions && RanksBefore(RankOf(s, other), RankOf(s, key))
  }

  lemma {:induction false} DistinctSize<T>(s: seq<T>)
    requires Distinct(s)
    ensures |Elements(s)| == |s|
  {
    if s != [] {
      var rest, last := s[..|s| - 1], s[|s| - 1];
      DistinctSize(rest);
      assert s == rest + [last];
      assert Elements(s) == Elements(rest) + {last};
      assert last !in Elements(rest);
    }
  }

  /** The sessions from first kept to first cut. */
  lemma RankedKeys(s: State) returns (keys: seq<SessionKey>)
    ensures Distinct(keys) && Elements(keys) == s.sessions.Keys
    ensures forall i :: 0 <= i < |keys| ==> keys[i] in s.sessions
    ensures forall i, j :: 0 <= i < j < |keys| ==> RanksBefore(RankOf(s, keys[i]), RankOf(s, keys[j]))
    ensures KeptKeys(s) == Elements(if |keys| <= MAX_PERSISTED_SESSIONS then keys else keys[..MAX_PERSISTED_SESSIONS])
  {
    var ranked := SessionsInOrder(RanksOf(s));
    forall i | 0 <= i < |ranked|
      ensures ranked[i].key in s.sessions && ranked[i] == RankOf(s, ranked[i].key)
    {
      assert ranked[i] in Elements(ranked);
    }
    keys := seq(|ranked|, i requires 0 <= i < |ranked| => ranked[i].key);
    forall i, j | 0 <= i < j < |keys|
      ensures keys[i] != keys[j]
    {
      assert RanksBefore(ranked[i], ranked[j]);
    }
    KeysAreRanked(s, ranked, keys);
    KeptAreFirst(s, ranked, keys);
  }

  lemma KeysAreRanked(s: State, ranked: seq<SessionRank>, keys: seq<SessionKey>)
    requires ranked == SessionsInOrder(RanksOf(s)) && |keys| == |ranked|
    requires forall i :: 0 <= i < |ranked| ==> keys[i] == ranked[i].key && keys[i] in s.sessions
    ensures Elements(keys) == s.sessions.Keys
  {
    forall key | key in s.sessions
      ensures key in keys
    {
      assert RankOf(s, key) in Elements(ranked);
      var i :| 0 <= i < |ranked| && ranked[i] == RankOf(s, key);
      assert keys[i] == key;
    }
  }

  lemma KeptAreFirst(s: State, ranked: seq<SessionRank>, keys: seq<SessionKey>)
    requires ranked == SessionsInOrder(RanksOf(s)) && |keys| == |ranked|
    requires forall i :: 0 <= i < |ranked| ==> keys[i] == ranked[i].key
    ensures KeptKeys(s) == Elements(if |keys| <= MAX_PERSISTED_SESSIONS then keys else keys[..MAX_PERSISTED_SESSIONS])
  {
    var kept := KeptRanks(s);
    var first := if |keys| <= MAX_PERSISTED_SESSIONS then keys else keys[..MAX_PERSISTED_SESSIONS];
    assert |first| == |kept| && forall i :: 0 <= i < |kept| ==> first[i] == kept[i].key;
    forall key | key in first
      ensures key in KeptKeys(s)
    {
      var i :| 0 <= i < |first| && first[i] == key;
      assert kept[i] in kept;
    }
    forall key | key in KeptKeys(s)
      ensures key in first
    {
      var i :| 0 <= i < |kept| && kept[i].key == key;
      assert first[i] == key;
    }
  }

  lemma RanksAgainst(a: SessionRank, b: SessionRank)
    ensures !(RanksBefore(a, b) && RanksBefore(b, a)) && !RanksBefore(a, a)
  {
  }

  /** A session is kept exactly if fewer sessions than there is room for rank before it. */
  lemma KeptExactly(s: State, key: SessionKey)
    requires key in s.sessions
    ensures key in KeptKeys(s) <==> |KeysBefore(s, key)| < MAX_PERSISTED_SESSIONS
  {
    var keys := RankedKeys(s);
    assert key in Elements(keys);
    var i :| 0 <= i < |keys| && keys[i] == key;
    BeforeAre(s, keys, i);
    DistinctSize(keys[..i]);
    assert |KeysBefore(s, key)| == i;
    if i >= MAX_PERSISTED_SESSIONS {
      assert key !in keys[..MAX_PERSISTED_SESSIONS];
    } else if |keys| > MAX_PERSISTED_SESSIONS {
      assert keys[..MAX_PERSISTED_SESSIONS][i] == key;
    }
  }

  lemma BeforeAre(s: State, keys: seq<SessionKey>, i: nat)
    requires i < |keys| && Elements(keys) == s.sessions.Keys
    requires forall k :: 0 <= k < |keys| ==> keys[k] in s.sessions
    requires forall j, k :: 0 <= j < k < |keys| ==> RanksBefore(RankOf(s, keys[j]), RankOf(s, keys[k]))
    ensures KeysBefore(s, keys[i]) == Elements(keys[..i])
  {
    forall other | other in KeysBefore(s, keys[i])
      ensures other in keys[..i]
    {
      assert other in Elements(keys);
      var j :| 0 <= j < |keys| && keys[j] == other;
      RanksAgainst(RankOf(s, keys[i]), RankOf(s, keys[j]));
      assert j < i;
      assert keys[..i][j] == other;
    }
    forall other | other in keys[..i]
      ensures other in KeysBefore(s, keys[i])
    {
      var j :| 0 <= j < i && keys[..i][j] == other;
      assert keys[j] == other;
    }
  }

  // ---- The rank of the event's session after it is applied ----

  function PhaseOf(kind: EventKind): SessionPhase {
    match kind
    case SessionStarted => SessionPhase.Idle
    case TurnStarted => Active
    case AttentionRequired => SessionPhase.Attention
    case AttentionResolved => Active
    case TurnCompleted => Completed
    case TurnFailed => SessionPhase.Failed
    case SessionEnded => Ended
  }

  /** A current turn that stays keeps its phase. */
  function PhaseAfter(s: State, event: Event): SessionPhase
    requires event.Valid()
  {
    if event.IsTurnEvent() && event.Owner() in s.sessions && Stays(s.sessions[event.Owner()], event)
    then var session := s.sessions[event.Owner()]; session.turns[session.current.value].phase
    else PhaseOf(event.kind)
  }

  function TimeAfter(s: State, event: Event): u64 {
    if event.Owner() in s.sessions then D.Later(event.occurredAt, s.sessions[event.Owner()].updatedAt)
    else event.occurredAt
  }

  function PriorityOf(kind: NotificationKind): nat {
    match kind
    case Attention => 3
    case Failure => 2
    case Completion => 1
  }

  /** The session's own question is answered. */
  predicate IsAnswered(cards: map<NotificationId, Notification>, key: SessionKey, turn: Option<TurnId>) {
    exists id :: id in cards && IsUnreadOf(cards[id], key, NotificationKind.Attention)
                 && (turn.None? || cards[id].turn == turn)
  }

  predicate Answers(kind: EventKind) {
    kind.AttentionResolved? || kind.IsTerminal() || kind.SessionEnded?
  }

  /** The strength of the session's unread card once the event is applied. */
  function UnreadAfter(s: State, event: Event): nat {
    var key := event.Owner();
    var left :=
      if Answers(event.kind) && IsAnswered(s.notifications, key, event.turn) then 0
      else UnreadPriority(s.notifications, key);
    match TurnNotification(event.kind)
    case None => left
    case Some(kind) =>
      if HasNewerCard(s.notifications, event) then left
      else if event.CardId() in s.notifications && s.notifications[event.CardId()].Owner() != key then 0
      else PriorityOf(kind)
  }

  lemma AnsweredIsResolved(cards: map<NotificationId, Notification>, key: SessionKey, turn: Option<TurnId>)
    requires CardsOk(cards)
    ensures UnreadPriority(ResolveAttention(cards, key, turn), key)
            == if IsAnswered(cards, key, turn) then 0 else UnreadPriority(cards, key)
  {
    var after := ResolveAttention(cards, key, turn);
    if IsAnswered(cards, key, turn) {
      var id :| id in cards && IsUnreadOf(cards[id], key, NotificationKind.Attention)
                && (turn.None? || cards[id].turn == turn);
      assert forall other :: other in after && after[other].Owner() == key ==> other == id;
    } else {
      forall kind
        ensures HasUnread(after, key, kind) <==> HasUnread(cards, key, kind)
      {
        if HasUnread(cards, key, kind) {
          var id :| id in cards && IsUnreadOf(cards[id], key, kind);
          assert IsUnreadOf(after[id], key, kind);
        }
      }
    }
  }

  lemma InsertedIsUnread(
    cards: map<NotificationId, Notification>, event: Event, kind: NotificationKind, token: nat)
    requires CardsOk(cards)
    ensures UnreadPriority(InsertNotification(cards, event, kind, token).0, event.Owner())
            == if HasNewerCard(cards, event) then UnreadPriority(cards, event.Owner())
               else if event.CardId() in cards && cards[event.CardId()].Owner() != event.Owner() then 0
               else PriorityOf(kind)
  {
    var after := InsertNotification(cards, event, kind, token).0;
    if !HasNewerCard(cards, event) {
      if event.CardId() in cards && cards[event.CardId()].Owner() != event.Owner() {
        assert forall id :: id in after ==> after[id].Owner() != event.Owner();
      } else {
        assert after[event.CardId()] == NewCard(event, kind, token);
        assert IsUnreadOf(after[event.CardId()], event.Owner(), kind);
        assert forall id :: id in after && after[id].Owner() == event.Owner() ==> id == event.CardId();
      }
    }
  }

  lemma UnreadIsAfter(s: State, event: Event, at: u64, token: nat)
    requires Inv(s) && event.Valid() && D.Changes(s, event, at, token)
    ensures UnreadPriority(ReduceAt(s, event, at, token).state.notifications, event.Owner()) == UnreadAfter(s, event)
  {
    D.AppliedShape(s, event, at, token);
    var transition := ApplyEvent(RememberEvent(s, event.Key()), event).1;
    TransitionIs(RememberEvent(s, event.Key()), event);
    var resolved :=
      if transition.resolveAttention then ResolveAttention(s.notifications, event.Owner(), event.turn)
      else s.notifications;
    AnsweredIsResolved(s.notifications, event.Owner(), event.turn);
    ResolveKeepsCards(s.notifications, event.Owner(), event.turn);
    D.SameOrders(s.notifications, resolved, event);
    if transition.notification.Some? {
      InsertedIsUnread(resolved, event, transition.notification.value, token);
    }
  }

  lemma TransitionIs(s: State, event: Event)
    requires event.Valid() && ApplyEvent(s, event).1.changed
    ensures var transition := ApplyEvent(s, event).1;
            && transition.notification == TurnNotification(event.kind)
            && transition.resolveAttention == Answers(event.kind)
  {
  }

  lemma BoundaryIsAfter(s: State, event: Event)
    requires event.kind.IsSessionScoped() && ApplySessionEvent(s, event).1.changed
    ensures var after := ApplySessionEvent(s, event).0.sessions;
            && event.Owner() in after
            && after[event.Owner()].Phase() == PhaseAfter(s, event)
            && after[event.Owner()].updatedAt == TimeAfter(s, event)
  {
  }

  lemma TurnIsAfter(s: State, event: Event)
    requires SessionsOk(s.sessions) && event.IsTurnEvent() && ApplyTurnEvent(s, event).1.changed
    ensures var after := ApplyTurnEvent(s, event).0.sessions;
            && event.Owner() in after
            && after[event.Owner()].Phase() == PhaseAfter(s, event)
            && after[event.Owner()].updatedAt == TimeAfter(s, event)
  {
    if event.Owner() in s.sessions {
      assert SessionOk(event.Owner(), s.sessions[event.Owner()]);
    }
  }

  /** Phase and time of the event's session after it is applied. */
  lemma RecordIsAfter(s: State, event: Event, at: u64, token: nat)
    requires Inv(s) && event.Valid() && D.Changes(s, event, at, token)
    ensures var after := ReduceAt(s, event, at, token).state;
            && event.Owner() in after.sessions
            && after.sessions[event.Owner()].Phase() == PhaseAfter(s, event)
            && after.sessions[event.Owner()].updatedAt == TimeAfter(s, event)
  {
    D.AppliedShape(s, event, at, token);
    var remembered := RememberEvent(s, event.Key());
    if event.kind.IsSessionScoped() {
      BoundaryIsAfter(remembered, event);
    } else {
      TurnIsAfter(remembered, event);
    }
  }
}
