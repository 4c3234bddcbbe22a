/** Saving and restoring: what is accepted, what survives, and what the pet shows afterwards. */
module RestoreNormalForm {
  import opened Basics
  import opened Ordering
  import opened SessionTypes
  import opened ReducerModel
  import opened ReducerInvariant
  import opened PersistenceModel

  /** The current turn of the session counts as retired. */
  predicate RetiresCurrent(session: SessionRecord) {
    session.current.Some? && session.current.value in session.retired
  }

  ghost predicate SavesRetiredCurrent(s: State) {
    exists key :: key in KeptKeys(s) && key in s.sessions && RetiresCurrent(s.sessions[key])
  }

  // ---- One session ----

  /** What is left of a session record after saving: its current turn only. */
  function Trimmed(session: SessionRecord): SessionRecord {
    session.(turns :=
      if session.current.Some? && session.current.value in session.turns
      then map[session.current.value := session.turns[session.current.value]] else map[])
  }

  lemma {:induction false} CheckRetiredExactly(retired: seq<TurnId>, current: Option<TurnId>, seen: seq<TurnId>)
    requires Distinct(retired) && forall turn :: turn in retired ==> turn !in seen
    ensures CheckRetired(retired, current, seen)
            == if current.Some? && current.value in retired then Some(RetiredCurrentTurn) else None
    decreases |retired|
  {
    if retired != [] && current != Some(retired[0]) {
      assert retired == [retired[0]] + retired[1..];
      CheckRetiredExactly(retired[1..], current, seen + [retired[0]]);
    }
  }

  lemma RestoreSessionExactly(key: SessionKey, session: SessionRecord)
    requires SessionOk(key, session)
    ensures RestoreSession(PersistSession(session))
            == if RetiresCurrent(session) then Err(RetiredCurrentTurn) else Ok(Trimmed(session))
    ensures PersistSession(session).Key() == key
    ensures PersistSession(Trimmed(session)) == PersistSession(session)
    ensures Trimmed(session).Phase() == session.Phase()
  {
    CheckRetiredExactly(session.retired, session.current, []);
  }

  // ---- All sessions ----

  ghost predicate DistinctKeys(ps: seq<PersistedSession>) {
    forall i, j :: 0 <= i < j < |ps| ==> ps[i].Key() != ps[j].Key()
  }

  lemma FirstAndRest<T>(s: seq<T>)
    requires s != []
    ensures forall x :: x in s <==> x == s[0] || x in s[1..]
  {
    assert s == [s[0]] + s[1..];
  }

  lemma DistinctKeysRest(ps: seq<PersistedSession>)
    requires ps != [] && DistinctKeys(ps)
    ensures DistinctKeys(ps[1..]) && forall p :: p in ps[1..] ==> p.Key() != ps[0].Key()
  {
    forall p | p in ps[1..]
      ensures p.Key() != ps[0].Key()
    {
      var i :| 0 <= i < |ps[1..]| && ps[1..][i] == p;
      assert ps[i + 1] == p;
    }
  }

  lemma {:induction false} RestoreSessionsFails(ps: seq<PersistedSession>, sessions: map<SessionKey, SessionRecord>)
    requires DistinctKeys(ps)
    requires forall p :: p in ps ==> p.Key() !in sessions
    requires forall p :: p in ps ==> RestoreSession(p).Ok? || RestoreSession(p).error == RetiredCurrentTurn
    requires exists p :: p in ps && RestoreSession(p).Err?
    ensures RestoreSessions(ps, sessions) == Err(RetiredCurrentTurn)
    decreases |ps|
  {
    FirstAndRest(ps);
    if RestoreSession(ps[0]).Ok? {
      DistinctKeysRest(ps);
      RestoreSessionsFails(ps[1..], sessions[ps[0].Key() := RestoreSession(ps[0]).value]);
    }
  }

  lemma {:induction false} RestoreSessionsSucceeds(ps: seq<PersistedSession>, sessions: map<SessionKey, SessionRecord>)
    requires DistinctKeys(ps)
    requires forall p :: p in ps ==> p.Key() !in sessions && RestoreSession(p).Ok?
    ensures var result := RestoreSessions(ps, sessions);
            && result.Ok?
            && (forall key :: key in sessions ==> key in result.value && result.value[key] == sessions[key])
            && (forall p :: p in ps ==>
                  p.Key() in result.value && result.value[p.Key()] == RestoreSession(p).value)
            && (forall key :: key in result.value ==> key in sessions || exists p :: p in ps && p.Key() == key)
    decreases |ps|
  {
    if ps != [] {
      FirstAndRest(ps);
      DistinctKeysRest(ps);
      RestoreSessionsSucceeds(ps[1..], sessions[ps[0].Key() := RestoreSession(ps[0]).value]);
    }
  }

  // ---- The kept sessions ----

  lemma KeptRanksSorted(s: State)
    ensures Sorted(KeptRanks(s), RanksBefore) && |KeptRanks(s)| <= MAX_PERSISTED_SESSIONS
    ensures forall i, j :: 0 <= i < j < |KeptRanks(s)| ==> KeptRanks(s)[i].key != KeptRanks(s)[j].key
    ensures forall i :: 0 <= i < |KeptRanks(s)| ==>
              KeptRanks(s)[i].key in s.sessions && KeptRanks(s)[i] == RankOf(s, KeptRanks(s)[i].key)
    ensures KeptKeys(s) <= s.sessions.Keys
  {
    KeptRanksKnown(s);
    var ranks := KeptRanks(s);
    assert forall i :: 0 <= i < |ranks| ==> ranks[i] in ranks;
  }

  /** The first kept session has a card at least as strong as any session's. */
  lemma StrongestIsKept(s: State, key: SessionKey)
    requires key in s.sessions
    ensures KeptRanks(s) != [] && KeptRanks(s)[0].card >= RankOf(s, key).card
  {
    var ranked := SessionsInOrder(RanksOf(s));
    assert RankOf(s, key) in RanksOf(s);
    assert RankOf(s, key) in Elements(ranked);
    var i :| 0 <= i < |ranked| && ranked[i] == RankOf(s, key);
    if i > 0 {
      assert RanksBefore(ranked[0], ranked[i]);
    }
  }

  lemma PersistedSessionsAre(s: State)
    requires SessionsOk(s.sessions)
    ensures var ps := PersistedSessions(s);
            && DistinctKeys(ps)
            && (forall p :: p in ps ==>
                  && p.Key() in KeptKeys(s) && p.Key() in s.sessions
                  && p == PersistSession(s.sessions[p.Key()])
                  && RestoreSession(p) == if RetiresCurrent(s.sessions[p.Key()]) then Err(RetiredCurrentTurn)
                                          else Ok(Trimmed(s.sessions[p.Key()])))
            && (forall key :: key in KeptKeys(s) ==> exists p :: p in ps && p.Key() == key)
  {
    KeptRanksSorted(s);
    var ps := PersistedSessions(s);
    var ranks := KeptRanks(s);
    forall i | 0 <= i < |ps|
      ensures ps[i] == PersistSession(s.sessions[ranks[i].key]) && ps[i].Key() == ranks[i].key
      ensures ranks[i].key in KeptKeys(s)
      ensures RestoreSession(ps[i]) == if RetiresCurrent(s.sessions[ranks[i].key]) then Err(RetiredCurrentTurn)
                                       else Ok(Trimmed(s.sessions[ranks[i].key]))
    {
      assert ranks[i] in ranks;
      RestoreSessionExactly(ranks[i].key, s.sessions[ranks[i].key]);
    }
    forall key | key in KeptKeys(s)
      ensures exists p :: p in ps && p.Key() == key
    {
      var i :| 0 <= i < |ranks| && ranks[i].key == key;
      assert ps[i] in ps && ps[i].Key() == key;
    }
  }

  lemma KeptSessionsRestore(s: State)
    requires SessionsOk(s.sessions)
    ensures var result := RestoreSessions(PersistedSessions(s), map[]);
            if SavesRetiredCurrent(s) then result == Err(RetiredCurrentTurn)
            else
              && result.Ok?
              && result.value.Keys == KeptKeys(s)
              && (forall key :: key in KeptKeys(s) ==>
                    key in s.sessions && result.value[key] == Trimmed(s.sessions[key]))
  {
    PersistedSessionsAre(s);
    var ps := PersistedSessions(s);
    if SavesRetiredCurrent(s) {
      var key :| key in KeptKeys(s) && key in s.sessions && RetiresCurrent(s.sessions[key]);
      var p :| p in ps && p.Key() == key;
      assert RestoreSession(p).Err?;
      RestoreSessionsFails(ps, map[]);
    } else {
      RestoreSessionsSucceeds(ps, map[]);
    }
  }

  // ---- The kept cards ----

  lemma KeptCardsAreUnread(s: State, keys: set<SessionKey>, id: NotificationId)
    requires CardsOk(s.notifications) && id in s.notifications
    ensures IsKeptCard(s, keys, id) <==> s.notifications[id].state.Unread? && s.notifications[id].Owner() in keys
  {
  }

  ghost predicate DistinctCards(cards: seq<Notification>) {
    forall i, j :: 0 <= i < j < |cards| ==> cards[i].id != cards[j].id && cards[i].Owner() != cards[j].Owner()
  }

  lemma DistinctCardsRest(cards: seq<Notification>)
    requires cards != [] && DistinctCards(cards)
    ensures DistinctCards(cards[1..])
    ensures forall c :: c in cards[1..] ==> c.id != cards[0].id && c.Owner() != cards[0].Owner()
  {
    forall c | c in cards[1..]
      ensures c.id != cards[0].id && c.Owner() != cards[0].Owner()
    {
      var i :| 0 <= i < |cards[1..]| && cards[1..][i] == c;
      assert cards[i + 1] == c;
    }
  }

  lemma {:induction false} RestoreCardsExactly(
    cards: seq<Notification>,
    sessions: map<SessionKey, SessionRecord>,
    restored: map<NotificationId, Notification>,
    owners: set<SessionKey>,
    token: nat)
    requires DistinctCards(cards)
    requires forall c :: c in cards ==>
      c.state.Unread? && c.Owner() in sessions && c.Owner() !in owners && c.id !in restored
    ensures var result := RestoreCards(cards, sessions, restored, owners, token);
            && result.Ok?
            && (forall id :: id in restored ==> id in result.value && result.value[id] == restored[id])
            && (forall c :: c in cards ==> c.id in result.value && Serialized(result.value[c.id]) == Serialized(c))
            && (forall id :: id in result.value ==> id in restored || exists c :: c in cards && c.id == id)
    decreases |cards|
  {
    if cards != [] {
      FirstAndRest(cards);
      DistinctCardsRest(cards);
      var card := cards[0];
      RestoreCardsExactly(cards[1..], sessions, restored[card.id := card.(incarnation := token)],
                          owners + {card.Owner()}, token + 1);
    }
  }

  lemma PersistedCardsAre(s: State)
    requires CardsOk(s.notifications)
    ensures var cards := PersistedCards(s);
            && DistinctCards(cards)
            && (forall c :: c in cards ==>
                  && c.id in s.notifications
                  && IsKeptCard(s, KeptKeys(s), c.id)
                  && c == Serialized(s.notifications[c.id]))
            && (forall id :: id in s.notifications && IsKeptCard(s, KeptKeys(s), id) ==>
                  exists c :: c in cards && c.id == id)
  {
    RankingKnown(s);
    var keys := KeptKeys(s);
    var ranks := CardRanking(s);
    var cards := PersistedCards(s);
    forall i, j | 0 <= i < j < |cards|
      ensures cards[i].id != cards[j].id && cards[i].Owner() != cards[j].Owner()
    {
      assert CardBefore(ranks[i], ranks[j]);
    }
    forall id | id in s.notifications && IsKeptCard(s, keys, id)
      ensures exists c :: c in cards && c.id == id
    {
      assert CardRankOf(s.notifications[id]) in Elements(ranks);
      var i :| 0 <= i < |ranks| && ranks[i] == CardRankOf(s.notifications[id]);
      assert cards[i] in cards && cards[i].id == id;
    }
  }

  /** The restored cards are exactly the unread cards of the kept sessions. */
  ghost predicate CardsRestored(
    s: State, keys: set<SessionKey>, restored: map<NotificationId, Notification>)
  {
    && (forall id :: id in restored ==>
          && id in s.notifications && s.notifications[id].state.Unread? && s.notifications[id].Owner() in keys
          && Serialized(restored[id]) == Serialized(s.notifications[id]))
    && (forall id :: id in s.notifications && s.notifications[id].state.Unread? && s.notifications[id].Owner() in keys
          ==> id in restored)
  }

  lemma KeptCardsRestore(s: State, sessions: map<SessionKey, SessionRecord>, token: nat)
    requires CardsOk(s.notifications) && sessions.Keys == KeptKeys(s)
    ensures var result := RestoreCards(PersistedCards(s), sessions, map[], {}, token);
            result.Ok? && CardsRestored(s, KeptKeys(s), result.value)
  {
    PersistedCardsAre(s);
    var cards := PersistedCards(s);
    var keys := KeptKeys(s);
    RestoreCardsExactly(cards, sessions, map[], {}, token);
    var restored := RestoreCards(cards, sessions, map[], {}, token).value;
    forall id | id in restored
      ensures id in s.notifications && IsKeptCard(s, keys, id)
      ensures Serialized(restored[id]) == Serialized(s.notifications[id])
    {
      var c :| c in cards && c.id == id;
    }
    forall id | id in s.notifications && s.notifications[id].state.Unread? && s.notifications[id].Owner() in keys
      ensures id in restored
    {
      KeptCardsAreUnread(s, keys, id);
      var c :| c in cards && c.id == id;
    }
  }

  // ---- The restored reducer ----

  ghost predicate RestoredFrom(s: State, r: State) {
    && r.revision == s.revision
    && r.sessions.Keys == KeptKeys(s)
    && (forall key :: key in KeptKeys(s) ==> key in s.sessions && r.sessions[key] == Trimmed(s.sessions[key]))
    && CardsRestored(s, KeptKeys(s), r.notifications)
  }

  lemma RestoredIsWellFormed(s: State, r: State)
    requires Inv(s) && RestoredFrom(s, r) && r.recentIds == [] && r.recentSet == {}
    ensures Inv(r)
  {
    forall id | id in r.notifications
      ensures r.notifications[id].id == id && r.notifications[id].Owner() == s.notifications[id].Owner()
    {
      assert Serialized(r.notifications[id]).id == Serialized(s.notifications[id]).id;
      assert Serialized(r.notifications[id]).Owner() == Serialized(s.notifications[id]).Owner();
    }
  }

  lemma RestoredCard(s: State, r: State, id: NotificationId)
    requires RestoredFrom(s, r) && id in r.notifications
    ensures id in s.notifications
    ensures r.notifications[id] == s.notifications[id].(incarnation := r.notifications[id].incarnation)
    ensures r.notifications[id].state.Unread?
  {
    assert r.notifications[id] == Serialized(r.notifications[id]).(incarnation := r.notifications[id].incarnation);
  }

  lemma RestoredUnread(s: State, r: State, key: SessionKey, kind: NotificationKind)
    requires RestoredFrom(s, r) && key in KeptKeys(s)
    ensures HasUnread(r.notifications, key, kind) == HasUnread(s.notifications, key, kind)
  {
    if HasUnread(s.notifications, key, kind) {
      var id :| id in s.notifications && IsUnreadOf(s.notifications[id], key, kind);
      RestoredCard(s, r, id);
    }
    if HasUnread(r.notifications, key, kind) {
      var id :| id in r.notifications && IsUnreadOf(r.notifications[id], key, kind);
      RestoredCard(s, r, id);
    }
  }

  lemma RestoredPriority(s: State, r: State, key: SessionKey)
    requires RestoredFrom(s, r) && key in KeptKeys(s)
    ensures UnreadPriority(r.notifications, key) == UnreadPriority(s.notifications, key)
  {
    RestoredUnread(s, r, key, NotificationKind.Attention);
    RestoredUnread(s, r, key, Failure);
    RestoredUnread(s, r, key, Completion);
  }

  lemma RestoredRank(s: State, r: State, key: SessionKey)
    requires SessionsOk(s.sessions) && RestoredFrom(s, r) && key in KeptKeys(s)
    ensures RankOf(r, key) == RankOf(s, key)
  {
    RestoredPriority(s, r, key);
    RestoreSessionExactly(key, s.sessions[key]);
  }

  lemma RestoredRanks(s: State, r: State)
    requires SessionsOk(s.sessions) && RestoredFrom(s, r)
    ensures KeptRanks(r) == KeptRanks(s)
  {
    KeptRanksSorted(s);
    var ranks := KeptRanks(s);
    forall rank
      ensures rank in RanksOf(r) <==> rank in Elements(ranks)
    {
      if rank in ranks {
        assert rank.key in KeptKeys(s);
        RestoredRank(s, r, rank.key);
      }
      if rank in RanksOf(r) {
        var kept :| kept in ranks && kept.key == rank.key;
        RestoredRank(s, r, rank.key);
      }
    }
    assert RanksOf(r) == Elements(ranks);
    SessionsInOrderUnique(ranks);
  }

  lemma RestoredCardKept(s: State, r: State, id: NotificationId)
    requires CardsOk(s.notifications) && CardsOk(r.notifications) && RestoredFrom(s, r)
    ensures id in r.notifications ==>
              && IsKeptCard(r, KeptKeys(s), id)
              && IsKeptCard(s, KeptKeys(s), id)
              && CardRankOf(r.notifications[id]) == CardRankOf(s.notifications[id])
    ensures id in s.notifications && IsKeptCard(s, KeptKeys(s), id) ==> id in r.notifications
  {
    var keys := KeptKeys(s);
    if id in r.notifications {
      RestoredCard(s, r, id);
      KeptCardsAreUnread(r, keys, id);
      KeptCardsAreUnread(s, keys, id);
    } else if id in s.notifications {
      KeptCardsAreUnread(s, keys, id);
    }
  }

  lemma RestoredCardRanks(s: State, r: State)
    requires CardsOk(s.notifications) && CardsOk(r.notifications) && RestoredFrom(s, r)
    ensures KeptCardRanks(r, KeptKeys(s)) == KeptCardRanks(s, KeptKeys(s))
  {
    var keys := KeptKeys(s);
    forall rank
      ensures rank in KeptCardRanks(r, keys) <==> rank in KeptCardRanks(s, keys)
    {
      if rank in KeptCardRanks(r, keys) {
        var id :| id in r.notifications && IsKeptCard(r, keys, id) && CardRankOf(r.notifications[id]) == rank;
        RestoredCardKept(s, r, id);
      }
      if rank in KeptCardRanks(s, keys) {
        var id :| id in s.notifications && IsKeptCard(s, keys, id) && CardRankOf(s.notifications[id]) == rank;
        RestoredCardKept(s, r, id);
      }
    }
  }

  lemma RestoredSessionsPersist(s: State, r: State)
    requires SessionsOk(s.sessions) && RestoredFrom(s, r)
    ensures PersistedSessions(r) == PersistedSessions(s)
  {
    RestoredRanks(s, r);
    KeptRanksSorted(s);
    var ranks := KeptRanks(s);
    forall i | 0 <= i < |ranks|
      ensures PersistedSessions(r)[i] == PersistedSessions(s)[i]
    {
      assert ranks[i] in ranks && ranks[i].key in KeptKeys(s);
      RestoreSessionExactly(ranks[i].key, s.sessions[ranks[i].key]);
    }
  }

  lemma RestoredCardsPersist(s: State, r: State)
    requires Inv(s) && Inv(r) && RestoredFrom(s, r)
    ensures PersistedCards(r) == PersistedCards(s)
  {
    RestoredRanks(s, r);
    assert KeptKeys(r) == KeptKeys(s);
    RestoredCardRanks(s, r);
    assert CardRanking(r) == CardRanking(s);
    RankingKnown(s);
    RankingKnown(r);
    var ranks := CardRanking(s);
    forall i | 0 <= i < |ranks|
      ensures PersistedCards(r)[i] == PersistedCards(s)[i]
    {
      RestoredCard(s, r, ranks[i].id);
    }
  }

  /** Saving the restored reducer gives back what was saved. */
  lemma RestoredPersists(s: State, r: State)
    requires Inv(s) && Inv(r) && RestoredFrom(s, r)
    ensures Persist(r) == Persist(s)
  {
    RestoredSessionsPersist(s, r);
    RestoredCardsPersist(s, r);
  }

  /**
   Restoring what a well-formed reducer saves fails exactly when a kept session's current turn is
   in its own retired list, and then with that error; otherwise it gives a well-formed reducer
   that saves identically.
   */
  lemma SaveRestoreNormalForm(s: State, token: nat)
    requires Inv(s)
    ensures var result := Restore(Persist(s), token);
            if SavesRetiredCurrent(s) then result == Err(RetiredCurrentTurn)
            else result.Ok? && Inv(result.value) && Persist(result.value) == Persist(s)
                 && RestoredFrom(s, result.value)
  {
    KeptRanksSorted(s);
    KeptSessionsRestore(s);
    if !SavesRetiredCurrent(s) {
      var sessions := RestoreSessions(PersistedSessions(s), map[]).value;
      KeptCardsRestore(s, sessions, token);
      var r := Restore(Persist(s), token).value;
      assert RestoredFrom(s, r);
      RestoredIsWellFormed(s, r);
      RestoredPersists(s, r);
    }
  }

  // ---- What the pet shows after a restart ----

  predicate AnyUnread(cards: map<NotificationId, Notification>, kind: NotificationKind) {
    exists id :: id in cards && cards[id].state.Unread? && cards[id].kind == kind
  }

  /** The strongest unread card, over all sessions. */
  function StrongestUnread(cards: map<NotificationId, Notification>): PresentationState {
    if AnyUnread(cards, NotificationKind.Attention) then Waiting
    else if AnyUnread(cards, Failure) then PresentationState.Failed
    else if AnyUnread(cards, Completion) then Review
    else PresentationState.Idle
  }

  function CardStrength(kind: NotificationKind): nat {
    match kind
    case Attention => 3
    case Failure => 2
    case Completion => 1
  }

  lemma PriorityWitness(cards: map<NotificationId, Notification>, key: SessionKey) returns (id: NotificationId)
    requires UnreadPriority(cards, key) > 0
    ensures id in cards && cards[id].state.Unread? && cards[id].Owner() == key
    ensures CardStrength(cards[id].kind) == UnreadPriority(cards, key)
  {
    var kind :=
      if UnreadPriority(cards, key) == 3 then NotificationKind.Attention
      else if UnreadPriority(cards, key) == 2 then Failure else Completion;
    id :| id in cards && IsUnreadOf(cards[id], key, kind);
  }

  /** Some kept card is at least as strong as any unread card. */
  lemma StrongCardIsKept(s: State, r: State, id: NotificationId) returns (kept: NotificationId)
    requires Inv(s) && RestoredFrom(s, r) && id in s.notifications && s.notifications[id].state.Unread?
    ensures kept in r.notifications
    ensures CardStrength(r.notifications[kept].kind) >= CardStrength(s.notifications[id].kind)
  {
    var card := s.notifications[id];
    var key := card.Owner();
    assert IsUnreadOf(card, key, card.kind);
    assert UnreadPriority(s.notifications, key) >= CardStrength(card.kind);
    StrongestIsKept(s, key);
    KeptRanksSorted(s);
    var first := KeptRanks(s)[0];
    assert first in KeptRanks(s) && first.key in KeptKeys(s);
    kept := PriorityWitness(s.notifications, first.key);
    RestoredCard(s, r, kept);
  }

  lemma KeptKindIsUnread(s: State, r: State, kind: NotificationKind)
    requires RestoredFrom(s, r) && AnyUnread(r.notifications, kind)
    ensures AnyUnread(s.notifications, kind)
  {
    var id :| id in r.notifications && r.notifications[id].state.Unread? && r.notifications[id].kind == kind;
    RestoredCard(s, r, id);
  }

  lemma UnreadKindIsMatched(s: State, r: State, kind: NotificationKind)
    requires Inv(s) && RestoredFrom(s, r) && AnyUnread(s.notifications, kind)
    ensures || AnyUnread(r.notifications, NotificationKind.Attention)
            || (!kind.Attention? && AnyUnread(r.notifications, Failure))
            || (kind.Completion? && AnyUnread(r.notifications, Completion))
  {
    var id :| id in s.notifications && s.notifications[id].state.Unread? && s.notifications[id].kind == kind;
    var kept := StrongCardIsKept(s, r, id);
    RestoredCard(s, r, kept);
    assert AnyUnread(r.notifications, r.notifications[kept].kind);
  }

  lemma AllUnreadShows(cards: map<NotificationId, Notification>)
    requires forall id :: id in cards ==> cards[id].state.Unread?
    ensures DesiredPresentation(cards, 0, 0) == StrongestUnread(cards)
  {
  }

  lemma KindsMatch(s: State, r: State, kind: NotificationKind)
    requires Inv(s) && RestoredFrom(s, r)
    ensures AnyUnread(r.notifications, kind) ==> AnyUnread(s.notifications, kind)
    ensures AnyUnread(s.notifications, kind) ==>
              || AnyUnread(r.notifications, NotificationKind.Attention)
              || (!kind.Attention? && AnyUnread(r.notifications, Failure))
              || (kind.Completion? && AnyUnread(r.notifications, Completion))
  {
    if AnyUnread(r.notifications, kind) {
      KeptKindIsUnread(s, r, kind);
    }
    if AnyUnread(s.notifications, kind) {
      UnreadKindIsMatched(s, r, kind);
    }
  }

  lemma RestoredShowsStrongest(s: State, r: State)
    requires Inv(s) && RestoredFrom(s, r)
    ensures StrongestUnread(r.notifications) == StrongestUnread(s.notifications)
  {
    KindsMatch(s, r, NotificationKind.Attention);
    KindsMatch(s, r, Failure);
    KindsMatch(s, r, Completion);
  }

  lemma RestoreShowsItsCards(p: PersistedState, token: nat)
    requires Restore(p, token).Ok?
    ensures var r := Restore(p, token).value;
            r.presentation.state == DesiredPresentation(r.notifications, 0, 0)
  {
  }

  lemma RestoredCardsUnread(s: State, r: State)
    requires RestoredFrom(s, r)
    ensures DesiredPresentation(r.notifications, 0, 0) == StrongestUnread(r.notifications)
  {
    forall id | id in r.notifications
      ensures r.notifications[id].state.Unread?
    {
      RestoredCard(s, r, id);
    }
    AllUnreadShows(r.notifications);
  }

  /** However many sessions are cut, the restored pet shows the strongest unread card of them all. */
  lemma CutKeepsPresentation(s: State, token: nat)
    requires Inv(s) && Restore(Persist(s), token).Ok?
    ensures Restore(Persist(s), token).value.presentation.state == StrongestUnread(s.notifications)
  {
    SaveRestoreNormalForm(s, token);
    var r := Restore(Persist(s), token).value;
    RestoreShowsItsCards(Persist(s), token);
    RestoredCardsUnread(s, r);
    RestoredShowsStrongest(s, r);
  }
}
