/** Which sessions a save keeps and in what order, told by their cards, phases, times and identities alone. */
module CutSessions {
  import opened Basics
  import opened Ordering
  import opened SessionTypes
  import opened ReducerModel
  import opened ReducerInvariant
  import opened PersistenceModel
  import opened RestoreNormalForm
  import K = KeptSessions

  // ---- Urgency, without ranks ----

  /** A question is stronger than the news of a failure, and that stronger than the news of a completion. */
  predicate AsStrong(a: NotificationKind, b: NotificationKind) {
    || a == NotificationKind.Attention
    || (a == Failure && b != NotificationKind.Attention)
    || (a == Completion && b == Completion)
  }

  /** Every unread card of the one session is matched by one of the other that is as strong. */
  ghost predicate CardsMatch(cards: map<NotificationId, Notification>, a: SessionKey, b: SessionKey) {
    forall id :: id in cards && cards[id].state == Unread && cards[id].Owner() == b ==>
      exists match' :: match' in cards && cards[match'].state == Unread && cards[match'].Owner() == a
                       && AsStrong(cards[match'].kind, cards[id].kind)
  }

  /** A session with an open question is more active than one at work, and that than any other. */
  predicate AsActive(a: SessionPhase, b: SessionPhase) {
    || a == SessionPhase.Attention
    || (a == Active && b != SessionPhase.Attention)
    || (b != SessionPhase.Attention && b != Active)
  }

  predicate Smaller(a: SessionKey, b: SessionKey) {
    a.provider < b.provider || (a.provider == b.provider && a.session < b.session)
  }

  /**
   The one session goes before the other: for its cards; with equal cards for its phase; with equal
   phases too for the later time; and at one time for the smaller identity.
   */
  ghost predicate GoesBefore(s: State, a: SessionKey, b: SessionKey)
    requires a in s.sessions && b in s.sessions
  {
    && CardsMatch(s.notifications, a, b)
    && (CardsMatch(s.notifications, b, a) ==> IsBefore(a, s.sessions[a], b, s.sessions[b]))
  }

  /** The order of sessions with equal cards. */
  predicate IsBefore(a: SessionKey, x: SessionRecord, b: SessionKey, y: SessionRecord) {
    && AsActive(x.Phase(), y.Phase())
    && (AsActive(y.Phase(), x.Phase()) ==>
          x.updatedAt > y.updatedAt || (x.updatedAt == y.updatedAt && Smaller(a, b)))
  }

  lemma PriorityMatches(cards: map<NotificationId, Notification>, a: SessionKey, b: SessionKey)
    ensures CardsMatch(cards, a, b) <==> UnreadPriority(cards, a) >= UnreadPriority(cards, b)
  {
    if UnreadPriority(cards, a) >= UnreadPriority(cards, b) {
      forall id | id in cards && cards[id].state == Unread && cards[id].Owner() == b
        ensures exists match' :: match' in cards && cards[match'].state == Unread && cards[match'].Owner() == a
                                 && AsStrong(cards[match'].kind, cards[id].kind)
      {
        assert IsUnreadOf(cards[id], b, cards[id].kind);
        var match' := PriorityWitness(cards, a);
        StrongestCardIs(cards, b, id);
      }
    }
    if CardsMatch(cards, a, b) && UnreadPriority(cards, b) > 0 {
      var id := PriorityWitness(cards, b);
      var match' :| match' in cards && cards[match'].state == Unread && cards[match'].Owner() == a
                    && AsStrong(cards[match'].kind, cards[id].kind);
      StrongestCardIs(cards, a, match');
    }
  }

  lemma StrongestCardIs(cards: map<NotificationId, Notification>, key: SessionKey, id: NotificationId)
    requires id in cards && cards[id].state == Unread && cards[id].Owner() == key
    ensures CardStrength(cards[id].kind) <= UnreadPriority(cards, key)
  {
    assert IsUnreadOf(cards[id], key, cards[id].kind);
  }

  lemma RanksAre(s: State, a: SessionKey, b: SessionKey)
    requires a in s.sessions && b in s.sessions
    ensures RanksBefore(RankOf(s, a), RankOf(s, b)) <==> GoesBefore(s, a, b)
  {
    PriorityMatches(s.notifications, a, b);
    PriorityMatches(s.notifications, b, a);
    EqualCardsRank(UnreadPriority(s.notifications, a), UnreadPriority(s.notifications, b),
                   a, s.sessions[a], b, s.sessions[b]);
  }

  lemma EqualCardsRank(m: nat, n: nat, a: SessionKey, x: SessionRecord, b: SessionKey, y: SessionRecord)
    ensures RanksBefore(SessionRank(m, ActivityPriority(x.Phase()), x.updatedAt, a),
                        SessionRank(n, ActivityPriority(y.Phase()), y.updatedAt, b))
            <==> m > n || (m == n && IsBefore(a, x, b, y))
  {
    PhasesRank(x.Phase(), y.Phase());
    PhasesRank(y.Phase(), x.Phase());
  }

  lemma PhasesRank(p: SessionPhase, q: SessionPhase)
    ensures AsActive(p, q) <==> ActivityPriority(p) >= ActivityPriority(q)
  {
  }

  // ---- What is kept ----

  /** As many sessions are kept as there is room for, and every one kept goes before every one cut. */
  lemma KeptGoBeforeCut(s: State)
    ensures KeptKeys(s) <= s.sessions.Keys
    ensures |KeptKeys(s)| == if |s.sessions| <= 128 then |s.sessions| else 128
    ensures forall kept, cut :: kept in KeptKeys(s) && cut in s.sessions && cut !in KeptKeys(s) ==>
      GoesBefore(s, kept, cut)
  {
    var keys := K.RankedKeys(s);
    var first := if |keys| <= 128 then keys else keys[..128];
    K.DistinctSize(keys);
    K.DistinctSize(first);
    assert |s.sessions| == |s.sessions.Keys|;
    forall kept, cut | kept in KeptKeys(s) && cut in s.sessions && cut !in KeptKeys(s)
      ensures GoesBefore(s, kept, cut)
    {
      FirstGoBefore(s, keys, first, kept, cut);
    }
  }

  lemma FirstGoBefore(s: State, keys: seq<SessionKey>, first: seq<SessionKey>, kept: SessionKey, cut: SessionKey)
    requires Elements(keys) == s.sessions.Keys && |first| <= |keys| && first == keys[..|first|]
    requires forall i :: 0 <= i < |keys| ==> keys[i] in s.sessions
    requires forall i, j :: 0 <= i < j < |keys| ==> RanksBefore(RankOf(s, keys[i]), RankOf(s, keys[j]))
    requires kept in first && cut in s.sessions && cut !in first
    ensures kept in s.sessions && GoesBefore(s, kept, cut)
  {
    var i :| 0 <= i < |first| && first[i] == kept;
    assert cut in Elements(keys);
    var j :| 0 <= j < |keys| && keys[j] == cut;
    assert forall k :: 0 <= k < |first| ==> first[k] == keys[k];
    assert i < j && keys[i] == kept;
    RanksAre(s, kept, cut);
  }

  /** The document lists the sessions kept, those that go before first. */
  lemma SavedSessionsInOrder(s: State)
    requires Keyed(s.notifications) && SessionsOk(s.sessions)
    ensures var saved := Persist(s).sessions;
            && (forall i :: 0 <= i < |saved| ==> saved[i].Key() in s.sessions)
            && (forall i, j :: 0 <= i < j < |saved| ==> GoesBefore(s, saved[i].Key(), saved[j].Key()))
            && (forall key :: key in KeptKeys(s) <==> exists i :: 0 <= i < |saved| && saved[i].Key() == key)
  {
    var ranks, saved := KeptRanks(s), Persist(s).sessions;
    KeptRanksSorted(s);
    forall i | 0 <= i < |saved|
      ensures saved[i].Key() == ranks[i].key && ranks[i].key in s.sessions
    {
      assert SessionOk(ranks[i].key, s.sessions[ranks[i].key]);
    }
    forall i, j | 0 <= i < j < |saved|
      ensures GoesBefore(s, saved[i].Key(), saved[j].Key())
    {
      assert RanksBefore(ranks[i], ranks[j]);
      RanksAre(s, ranks[i].key, ranks[j].key);
    }
    forall key | key in KeptKeys(s)
      ensures exists i :: 0 <= i < |saved| && saved[i].Key() == key
    {
      var i :| 0 <= i < |ranks| && ranks[i].key == key;
      assert saved[i].Key() == key;
    }
    forall i | 0 <= i < |saved|
      ensures saved[i].Key() in KeptKeys(s)
    {
      assert ranks[i] in ranks;
    }
  }

  /** The document lists the cards kept: the strongest first, then the latest, then by identity. */
  lemma SavedCardsInOrder(s: State)
    requires Keyed(s.notifications)
    ensures var saved := Persist(s).notifications;
            && (forall i :: 0 <= i < |saved| ==> saved[i].state == Unread && saved[i].Owner() in KeptKeys(s))
            && (forall i, j :: 0 <= i < j < |saved| ==>
                  && AsStrong(saved[i].kind, saved[j].kind)
                  && (AsStrong(saved[j].kind, saved[i].kind) ==>
                        || saved[i].occurredAt > saved[j].occurredAt
                        || (saved[i].occurredAt == saved[j].occurredAt && saved[i].id.Before(saved[j].id))))
  {
    var ranks, saved := CardRanking(s), Persist(s).notifications;
    RankingKnown(s);
    forall i, j | 0 <= i < j < |saved|
      ensures AsStrong(saved[i].kind, saved[j].kind)
      ensures AsStrong(saved[j].kind, saved[i].kind) ==>
        || saved[i].occurredAt > saved[j].occurredAt
        || (saved[i].occurredAt == saved[j].occurredAt && saved[i].id.Before(saved[j].id))
    {
      assert CardBefore(ranks[i], ranks[j]);
      CardRanksAre(s.notifications[ranks[i].id], s.notifications[ranks[j].id]);
    }
  }

  lemma CardRanksAre(a: Notification, b: Notification)
    requires a.state == Unread && b.state == Unread && CardBefore(CardRankOf(a), CardRankOf(b))
    ensures AsStrong(a.kind, b.kind)
    ensures AsStrong(b.kind, a.kind) ==>
      a.occurredAt > b.occurredAt || (a.occurredAt == b.occurredAt && a.id.Before(b.id))
  {
  }
}
