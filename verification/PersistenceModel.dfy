/** The bounded projection of the reducer that is saved, and rebuilding a reducer from it. */
module PersistenceModel {
  import opened Basics
  import opened Ordering
  import opened SessionTypes
  import opened ReducerModel

  const MAX_PERSISTED_SESSIONS: nat := 128

  datatype PersistedTurn = PersistedTurn(id: TurnId, phase: SessionPhase, updatedAt: u64, lastEvent: EventId)

  datatype PersistedSession = PersistedSession(
    provider: ProviderId,
    id: SessionId,
    current: Option<TurnId>,
    currentTurn: Option<PersistedTurn>,
    retired: seq<TurnId>,
    project: Option<string>,
    updatedAt: u64,
    lastEvent: EventId,
    ended: bool)
  {
    function Key(): SessionKey { SessionKey(provider, id) }
  }

  datatype PersistedState = PersistedState(
    revision: u64, sessions: seq<PersistedSession>, notifications: seq<Notification>)

  datatype RestoreError =
    | TooManySessions
    | TooManyRetiredTurns
    | DuplicateSession
    | DuplicateNotification
    | DuplicateRetiredTurn
    | RetiredCurrentTurn
    | DuplicateSessionNotification
    | NotificationWithoutSession
    | InvalidCurrentTurn
    | InvalidNotificationState

  // ---- Ranking ----

  /** What decides which sessions are kept: card, activity, recency, identity. */
  datatype SessionRank = SessionRank(card: nat, activity: nat, updatedAt: u64, key: SessionKey)

  predicate RanksBefore(a: SessionRank, b: SessionRank) {
    || a.card > b.card
    || (a.card == b.card && a.activity > b.activity)
    || (a.card == b.card && a.activity == b.activity && a.updatedAt > b.updatedAt)
    || (a.card == b.card && a.activity == b.activity && a.updatedAt == b.updatedAt && a.key.Before(b.key))
  }

  datatype CardRank = CardRank(priority: nat, occurredAt: u64, id: NotificationId)

  predicate CardBefore(a: CardRank, b: CardRank) {
    || a.priority > b.priority
    || (a.priority == b.priority && a.occurredAt > b.occurredAt)
    || (a.priority == b.priority && a.occurredAt == b.occurredAt && a.id.Before(b.id))
  }

  lemma RankOrders()
    ensures StrictTotalOrder(RanksBefore)
    ensures StrictTotalOrder(CardBefore)
  {
    forall x, y: SessionRank | x != y
      ensures RanksBefore(x, y) || RanksBefore(y, x)
    {
      assert x.key != y.key || x.card != y.card || x.activity != y.activity || x.updatedAt != y.updatedAt;
    }
  }

  predicate IsUnreadOf(card: Notification, key: SessionKey, kind: NotificationKind) {
    card.state.Unread? && card.Owner() == key && card.kind == kind
  }

  predicate HasUnread(cards: map<NotificationId, Notification>, key: SessionKey, kind: NotificationKind) {
    exists id :: id in cards && IsUnreadOf(cards[id], key, kind)
  }

  /** The greatest priority of a session's unread cards; an unread card's priority is set by its kind. */
  function UnreadPriority(cards: map<NotificationId, Notification>, key: SessionKey): nat {
    if HasUnread(cards, key, NotificationKind.Attention) then 3
    else if HasUnread(cards, key, Failure) then 2
    else if HasUnread(cards, key, Completion) then 1
    else 0
  }

  function ActivityPriority(phase: SessionPhase): nat {
    match phase
    case Attention => 2
    case Active => 1
    case _ => 0
  }

  function RankOf(s: State, key: SessionKey): SessionRank
    requires key in s.sessions
  {
    SessionRank(UnreadPriority(s.notifications, key), ActivityPriority(s.sessions[key].Phase()),
                s.sessions[key].updatedAt, key)
  }

  ghost function RanksOf(s: State): set<SessionRank> {
    set key | key in s.sessions :: RankOf(s, key)
  }

  lemma InOrderExists(sessions: set<SessionRank>, cards: set<CardRank>)
    ensures exists s :: Elements(s) == sessions && Sorted(s, RanksBefore)
    ensures exists s :: Elements(s) == cards && Sorted(s, CardBefore)
  {
    RankOrders();
    var s, c := Ranked(sessions, RanksBefore), Ranked(cards, CardBefore);
    assert Elements(s) == sessions && Sorted(s, RanksBefore);
    assert Elements(c) == cards && Sorted(c, CardBefore);
  }

  /** The sessions from first kept to first cut. */
  ghost function SessionsInOrder(ranks: set<SessionRank>): (s: seq<SessionRank>)
    ensures Elements(s) == ranks && Sorted(s, RanksBefore)
  {
    InOrderExists(ranks, {});
    var s :| Elements(s) == ranks && Sorted(s, RanksBefore);
    s
  }

  ghost function CardsInOrder(ranks: set<CardRank>): (s: seq<CardRank>)
    ensures Elements(s) == ranks && Sorted(s, CardBefore)
  {
    InOrderExists({}, ranks);
    var s :| Elements(s) == ranks && Sorted(s, CardBefore);
    s
  }

  lemma SessionsInOrderUnique(s: seq<SessionRank>)
    requires Sorted(s, RanksBefore)
    ensures SessionsInOrder(Elements(s)) == s
  {
    RankOrders();
    SortedUnique(SessionsInOrder(Elements(s)), s, RanksBefore);
  }

  lemma CardsInOrderUnique(s: seq<CardRank>)
    requires Sorted(s, CardBefore)
    ensures CardsInOrder(Elements(s)) == s
  {
    RankOrders();
    SortedUnique(CardsInOrder(Elements(s)), s, CardBefore);
  }

  ghost function KeptRanks(s: State): seq<SessionRank> {
    var ranked := SessionsInOrder(RanksOf(s));
    if |ranked| <= MAX_PERSISTED_SESSIONS then ranked else ranked[..MAX_PERSISTED_SESSIONS]
  }

  ghost function KeptKeys(s: State): set<SessionKey> {
    set rank | rank in KeptRanks(s) :: rank.key
  }

  // ---- Saving ----

  function PersistSession(session: SessionRecord): PersistedSession {
    var turn :=
      if session.current.Some? && session.current.value in session.turns then
        var record := session.turns[session.current.value];
        Some(PersistedTurn(session.current.value, record.phase, record.updatedAt, record.lastEvent))
      else None;
    PersistedSession(
      session.provider, session.id, if turn.Some? then Some(turn.value.id) else None, turn,
      session.retired, session.project, session.updatedAt, session.lastEvent, session.ended)
  }

  function CardRankOf(card: Notification): CardRank {
    CardRank(card.Priority(), card.occurredAt, card.id)
  }

  /** The strongest, then latest, then greatest card wins when a session has several. */
  predicate Supersedes(a: Notification, b: Notification) {
    || a.Priority() > b.Priority()
    || (a.Priority() == b.Priority() && a.occurredAt > b.occurredAt)
    || (a.Priority() == b.Priority() && a.occurredAt == b.occurredAt && b.id.Before(a.id))
  }

  predicate IsKeptCard(s: State, keys: set<SessionKey>, id: NotificationId)
    requires id in s.notifications
  {
    var card := s.notifications[id];
    && card.state.Unread?
    && card.Owner() in keys
    && (forall other :: other in s.notifications && s.notifications[other].state.Unread?
                        && s.notifications[other].Owner() == card.Owner()
                        ==> !Supersedes(s.notifications[other], card))
  }

  ghost function KeptCardRanks(s: State, keys: set<SessionKey>): set<CardRank> {
    set id | id in s.notifications && IsKeptCard(s, keys, id) :: CardRankOf(s.notifications[id])
  }

  /** The allocation identity of a card is not serialized. */
  function Serialized(card: Notification): Notification {
    card.(incarnation := 0)
  }

  lemma KeptRanksKnown(s: State)
    ensures forall rank :: rank in KeptRanks(s) ==> rank.key in s.sessions && rank == RankOf(s, rank.key)
  {
    var ranked := SessionsInOrder(RanksOf(s));
    forall rank | rank in KeptRanks(s)
      ensures rank in RanksOf(s)
    {
      assert rank in ranked;
      assert rank in Elements(ranked);
    }
  }

  ghost function PersistedSessions(s: State): (sessions: seq<PersistedSession>)
    ensures |sessions| == |KeptRanks(s)|
  {
    KeptRanksKnown(s);
    var ranks := KeptRanks(s);
    seq(|ranks|, i requires 0 <= i < |ranks| => PersistSession(s.sessions[ranks[i].key]))
  }

  /** Cards sit under their own identity. */
  ghost predicate Keyed(cards: map<NotificationId, Notification>) {
    forall id :: id in cards ==> cards[id].id == id
  }

  ghost function CardRanking(s: State): seq<CardRank> {
    CardsInOrder(KeptCardRanks(s, KeptKeys(s)))
  }

  lemma RankingKnown(s: State)
    requires Keyed(s.notifications)
    ensures forall i :: 0 <= i < |CardRanking(s)| ==>
      var rank := CardRanking(s)[i];
      && rank.id in s.notifications
      && IsKeptCard(s, KeptKeys(s), rank.id)
      && rank == CardRankOf(s.notifications[rank.id])
  {
    var ranks := CardRanking(s);
    assert forall i :: 0 <= i < |ranks| ==> ranks[i] in Elements(ranks);
  }

  ghost function PersistedCards(s: State): (cards: seq<Notification>)
    requires Keyed(s.notifications)
  {
    RankingKnown(s);
    var ranks := CardRanking(s);
    seq(|ranks|, i requires 0 <= i < |ranks| => Serialized(s.notifications[ranks[i].id]))
  }

  ghost function Persist(s: State): PersistedState
    requires Keyed(s.notifications)
  {
    PersistedState(s.revision, PersistedSessions(s), PersistedCards(s))
  }

  // ---- Restoring ----

  function CheckRetired(retired: seq<TurnId>, current: Option<TurnId>, seen: seq<TurnId>): Option<RestoreError>
  {
    if retired == [] then None
    else if current == Some(retired[0]) then Some(RetiredCurrentTurn)
    else if retired[0] in seen then Some(DuplicateRetiredTurn)
    else CheckRetired(retired[1..], current, seen + [retired[0]])
  }

  function RestoreSession(p: PersistedSession): Result<SessionRecord, RestoreError> {
    var turns :=
      if p.currentTurn.Some? then
        var turn := p.currentTurn.value;
        map[turn.id := TurnRecord(turn.phase, turn.updatedAt, turn.lastEvent)]
      else map[];
    if |p.retired| > MAX_RETIRED_TURNS then Err(TooManyRetiredTurns)
    else
      var retiredError := CheckRetired(p.retired, p.current, []);
      if retiredError.Some? then Err(retiredError.value)
      else if p.current.Some? && p.current.value !in turns then Err(InvalidCurrentTurn)
      else Ok(SessionRecord(p.provider, p.id, p.current, turns, p.retired, p.project,
                            p.updatedAt, p.lastEvent, p.ended))
  }

  function RestoreSessions(ps: seq<PersistedSession>, sessions: map<SessionKey, SessionRecord>)
    : Result<map<SessionKey, SessionRecord>, RestoreError>
    decreases |ps|
  {
    if ps == [] then Ok(sessions)
    else
      var session := RestoreSession(ps[0]);
      if session.Err? then Err(session.error)
      else if ps[0].Key() in sessions then Err(DuplicateSession)
      else RestoreSessions(ps[1..], sessions[ps[0].Key() := session.value])
  }

  function RestoreCards(
    cards: seq<Notification>,
    sessions: map<SessionKey, SessionRecord>,
    restored: map<NotificationId, Notification>,
    owners: set<SessionKey>,
    token: nat)
    : Result<map<NotificationId, Notification>, RestoreError>
    decreases |cards|
  {
    if cards == [] then Ok(restored)
    else
      var card := cards[0];
      if !card.state.Unread? then Err(InvalidNotificationState)
      else if card.Owner() !in sessions then Err(NotificationWithoutSession)
      else if card.Owner() in owners then Err(DuplicateSessionNotification)
      else if card.id in restored then Err(DuplicateNotification)
      else RestoreCards(cards[1..], sessions, restored[card.id := card.(incarnation := token)],
                        owners + {card.Owner()}, token + 1)
  }

  /** Restored cards are new allocations, numbered from `token`. */
  function Restore(p: PersistedState, token: nat): Result<State, RestoreError> {
    if |p.sessions| > MAX_PERSISTED_SESSIONS then Err(TooManySessions)
    else
      var sessions := RestoreSessions(p.sessions, map[]);
      if sessions.Err? then Err(sessions.error)
      else
        var cards := RestoreCards(p.notifications, sessions.value, map[], {}, token);
        if cards.Err? then Err(cards.error)
        else Ok(State(p.revision, sessions.value, cards.value, [], {},
                      Tracker(DesiredPresentation(cards.value, 0, 0), 0), DEFAULT_MINIMUM_DWELL_MS, 0))
  }
}
