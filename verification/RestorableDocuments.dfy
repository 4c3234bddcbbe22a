/** Which documents can be restored at all, whoever wrote them, and what each of their entries becomes. */
module RestorableDocuments {
  import opened Basics
  import opened SessionTypes
  import opened ReducerModel
  import opened PersistenceModel
  import opened RestoreNormalForm
  import Restarts

  predicate SessionIsFine(p: PersistedSession) {
    && |p.retired| <= 16 && Distinct(p.retired)
    && (p.current.Some? ==>
          && p.current.value !in p.retired
          && p.currentTurn.Some? && p.currentTurn.value.id == p.current.value)
  }

  predicate SessionsAreFine(ps: seq<PersistedSession>) {
    && (forall i :: 0 <= i < |ps| ==> SessionIsFine(ps[i]))
    && (forall i, j :: 0 <= i < j < |ps| ==> ps[i].Key() != ps[j].Key())
  }

  predicate CardsAreFine(cards: seq<Notification>, keys: set<SessionKey>) {
    && (forall i :: 0 <= i < |cards| ==> cards[i].state == Unread && cards[i].Owner() in keys)
    && (forall i, j :: 0 <= i < j < |cards| ==> cards[i].Owner() != cards[j].Owner() && cards[i].id != cards[j].id)
  }

  lemma SessionRestoresExactly(p: PersistedSession)
    ensures RestoreSession(p).Ok? <==> SessionIsFine(p)
    ensures SessionIsFine(p) && RecordsItsTurn(p) ==>
      PersistSession(RestoreSession(p).value) == p
  {
    if CheckRetired(p.retired, p.current, []).None? {
      Restarts.CheckedRetiredIsDistinct(p.retired, p.current, []);
    }
    if Distinct(p.retired) {
      CheckRetiredExactly(p.retired, p.current, []);
    }
  }

  function KeysOf(ps: seq<PersistedSession>): set<SessionKey> {
    set i | 0 <= i < |ps| :: ps[i].Key()
  }

  lemma FirstKey(ps: seq<PersistedSession>)
    requires ps != []
    ensures KeysOf(ps) == {ps[0].Key()} + KeysOf(ps[1..])
    ensures SessionsAreFine(ps)
            <==> SessionIsFine(ps[0]) && SessionsAreFine(ps[1..]) && ps[0].Key() !in KeysOf(ps[1..])
  {
    assert forall i :: 1 <= i < |ps| ==> ps[i] == ps[1..][i - 1];
    assert forall i :: 0 <= i < |ps[1..]| ==> ps[1..][i] == ps[i + 1];
  }

  lemma {:induction false} SessionsRestoreExactly(ps: seq<PersistedSession>, sessions: map<SessionKey, SessionRecord>)
    ensures RestoreSessions(ps, sessions).Ok? <==> SessionsAreFine(ps) && KeysOf(ps) !! sessions.Keys
    decreases |ps|
  {
    if ps != [] {
      SessionRestoresExactly(ps[0]);
      FirstKey(ps);
      if RestoreSession(ps[0]).Ok? && ps[0].Key() !in sessions {
        SessionsRestoreExactly(ps[1..], sessions[ps[0].Key() := RestoreSession(ps[0]).value]);
      }
    }
  }

  lemma {:induction false} RestoredAre(ps: seq<PersistedSession>, sessions: map<SessionKey, SessionRecord>)
    requires RestoreSessions(ps, sessions).Ok?
    ensures var all := RestoreSessions(ps, sessions).value;
            && all.Keys == sessions.Keys + KeysOf(ps)
            && (forall key :: key in sessions ==> all[key] == sessions[key])
            && (forall p :: p in ps ==> RestoreSession(p) == Ok(all[p.Key()]))
    decreases |ps|
  {
    if ps != [] {
      RestoredAre(ps[1..], sessions[ps[0].Key() := RestoreSession(ps[0]).value]);
      FirstKey(ps);
      FirstAndRest(ps);
    } else {
      assert KeysOf(ps) == {};
    }
  }

  lemma {:induction false} CardsRestoreExactly(
    cards: seq<Notification>, sessions: map<SessionKey, SessionRecord>,
    restored: map<NotificationId, Notification>, owners: set<SessionKey>, token: nat)
    ensures RestoreCards(cards, sessions, restored, owners, token).Ok?
            <==> (&& CardsAreFine(cards, sessions.Keys)
                  && forall i :: 0 <= i < |cards| ==> cards[i].Owner() !in owners && cards[i].id !in restored)
    decreases |cards|
  {
    if cards != [] {
      var card, rest := cards[0], cards[1..];
      assert forall i :: 1 <= i < |cards| ==> cards[i] == rest[i - 1];
      if card.state == Unread && card.Owner() in sessions && card.Owner() !in owners && card.id !in restored {
        var more := restored[card.id := card.(incarnation := token)];
        CardsRestoreExactly(rest, sessions, more, owners + {card.Owner()}, token + 1);
        assert forall i :: 0 <= i < |rest| ==> rest[i] == cards[i + 1];
      }
    }
  }

  /**
   A document can be restored exactly if it has at most 128 sessions under different keys, each with at
   most 16 different retired turns and the turn it calls current recorded and not retired, and if its
   cards are unread, of sessions it has, at most one of each, under different identities.
   */
  lemma RestorableExactly(p: PersistedState, token: nat)
    ensures Restore(p, token).Ok?
            <==> (&& |p.sessions| <= 128 && SessionsAreFine(p.sessions)
                  && CardsAreFine(p.notifications, KeysOf(p.sessions)))
  {
    SessionsRestoreExactly(p.sessions, map[]);
    if RestoreSessions(p.sessions, map[]).Ok? {
      RestoredAre(p.sessions, map[]);
      CardsRestoreExactly(p.notifications, RestoreSessions(p.sessions, map[]).value, map[], {}, token);
    }
  }

  /** A session that records no other turn than the one it calls current. */
  predicate RecordsItsTurn(p: PersistedSession) {
    p.currentTurn.Some? ==> p.current == Some(p.currentTurn.value.id)
  }

  /** The sessions of a restored document are all there and no other, and each would be saved as it was. */
  lemma RestoredSessionsAre(p: PersistedState, token: nat)
    requires Restore(p, token).Ok?
    ensures var r := Restore(p, token).value;
            && r.revision == p.revision && r.sessions.Keys == KeysOf(p.sessions)
            && (forall saved :: saved in p.sessions ==>
                  saved.Key() in r.sessions
                  && (RecordsItsTurn(saved) ==> PersistSession(r.sessions[saved.Key()]) == saved))
  {
    RestoredAre(p.sessions, map[]);
    forall saved | saved in p.sessions
      ensures RestoreSession(saved).Ok? && RecordsItsTurn(saved) ==>
        PersistSession(RestoreSession(saved).value) == saved
    {
      SessionRestoresExactly(saved);
    }
  }
}
