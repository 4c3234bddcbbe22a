/** Memory and disk under arbitrary store failures, ticks and restarts. */
module StoreSafety {
  import opened Basics
  import opened SessionTypes
  import opened ReducerModel
  import opened ReducerInvariant
  import opened DeliveryOnce
  import opened PersistenceModel
  import opened RestoreNormalForm
  import opened Restarts
  import opened StoreModel

  /** The saved document is the reducer's projection, up to revisions bumped without saving. */
  ghost predicate Synced(w: Shared)
    requires Inv(w.reducer)
  {
    && w.row.revision <= w.reducer.revision
    && match w.row.saved
       case None => w.reducer.sessions == map[] && w.reducer.notifications == map[]
       case Some(saved) => saved == Persist(w.reducer).(revision := w.row.revision)
  }

  ghost predicate Restorable(s: State)
    requires Inv(s)
  {
    forall token: nat :: Restore(Persist(s), token).Ok?
  }

  ghost predicate Safe(w: Shared) {
    Inv(w.reducer) && Synced(w) && !SavesRetiredCurrent(w.reducer)
  }

  lemma RestorableExactly(s: State)
    requires Inv(s)
    ensures Restorable(s) <==> !SavesRetiredCurrent(s)
  {
    forall token: nat
      ensures Restore(Persist(s), token).Ok? <==> !SavesRetiredCurrent(s)
    {
      SaveRestoreNormalForm(s, token);
    }
    var probe := Restore(Persist(s), 0);
  }

  /** The projection looks at sessions, cards and revision only. */
  lemma PersistDependsOn(s: State, t: State)
    requires Keyed(s.notifications) && s.sessions == t.sessions && s.notifications == t.notifications
    ensures Persist(t) == Persist(s).(revision := t.revision)
    ensures SavesRetiredCurrent(s) == SavesRetiredCurrent(t)
  {
    KeptDependsOn(s, t);
    assert PersistedSessions(s) == PersistedSessions(t);
    assert CardRanking(s) == CardRanking(t);
    assert PersistedCards(s) == PersistedCards(t);
  }

  lemma KeptDependsOn(s: State, t: State)
    requires s.sessions == t.sessions && s.notifications == t.notifications
    ensures KeptRanks(s) == KeptRanks(t) && KeptKeys(s) == KeptKeys(t)
    ensures forall keys :: KeptCardRanks(s, keys) == KeptCardRanks(t, keys)
  {
    assert forall key :: key in s.sessions ==> RankOf(s, key) == RankOf(t, key);
    assert RanksOf(s) == RanksOf(t);
    forall keys
      ensures KeptCardRanks(s, keys) == KeptCardRanks(t, keys)
    {
      assert forall id :: id in s.notifications ==> IsKeptCard(s, keys, id) == IsKeptCard(t, keys, id);
    }
  }

  /** A change that is not saved leaves the projection alone, but for a tick's revision. */
  lemma UnsavedKeepsProjection(s: State, c: Command)
    requires Inv(s) && c.Valid() && !Attempt(s, c).1
    ensures var after := Attempt(s, c).0;
            && after.sessions == s.sessions && after.notifications == s.notifications
            && after.revision >= s.revision
  {
    match c
    case Deliver(event, at, token, _, _) => RefusedLeavesNoTrace(s, event, at, token);
    case _ =>
  }

  lemma SavedBumps(s: State, c: Command)
    requires c.Valid() && Attempt(s, c).1
    ensures Attempt(s, c).0.revision == SaturatingAdd(s.revision, 1)
  {
    match c
    case Deliver(event, at, token, _, _) => RefusedLeavesNoTrace(s, event, at, token);
    case _ =>
  }

  lemma FinishKeepsProjection(s: State, c: Command)
    requires Inv(s)
    ensures var after := Finish(s, c);
            Inv(after) && after.sessions == s.sessions && after.notifications == s.notifications
            && after.revision == s.revision
  {
  }

  /**
   One command, whatever the store does. An error leaves memory and disk exactly as they were; a
   saved change leaves the disk equal to the projection of memory; both stay restorable; and a
   single writer is never turned away as outdated.
   */
  lemma PerformIsSafe(w: Shared, c: Command)
    requires Safe(w) && c.Valid()
    ensures var (after, result) := Perform(w, c);
            && Safe(after)
            && (result.Err? ==> after == w && result.error != Rejected)
            && (result == Ok(true) ==> after.row.saved == Some(Persist(after.reducer)))
            && (result == Ok(false) ==> after.row == w.row)
  {
    AttemptKeepsInv(w.reducer, c);
    var (attempted, save) := Attempt(w.reducer, c);
    if !save {
      UnsavedKeepsProjection(w.reducer, c);
      PersistDependsOn(w.reducer, attempted);
    } else {
      SavedBumps(w.reducer, c);
      SaveRestoreNormalForm(attempted, 0);
      FinishKeepsProjection(attempted, c);
      PersistDependsOn(attempted, Finish(attempted, c));
    }
  }

  /** A command fails validation exactly when what it wants saved cannot be restored. */
  lemma InvalidMeansRetired(w: Shared, c: Command)
    requires Safe(w) && c.Valid()
    ensures (exists error :: Perform(w, c).1 == Err(Invalid(error)))
            <==> Attempt(w.reducer, c).1 && SavesRetiredCurrent(Attempt(w.reducer, c).0)
    ensures forall error :: Perform(w, c).1 == Err(Invalid(error)) ==> error == RetiredCurrentTurn
  {
    AttemptKeepsInv(w.reducer, c);
    SaveRestoreNormalForm(Attempt(w.reducer, c).0, 0);
  }

  // ---- Restarts ----

  /** Starting from the row, or empty when nothing was saved. */
  ghost function Load(row: Row, token: nat): Result<State, RestoreError> {
    if row.saved.None? then Ok(INITIAL) else Restore(row.saved.value, token)
  }

  lemma EmptyPersists(s: State)
    requires s.sessions == map[]
    ensures !SavesRetiredCurrent(s)
  {
    KeptRanksSorted(s);
  }

  /** What was saved can always be loaded, and the restarted application is safe again. */
  lemma LoadIsSafe(w: Shared, token: nat)
    requires Safe(w)
    ensures var loaded := Load(w.row, token);
            loaded.Ok? && (w.row.saved.Some? || w.row.revision == 0 ==> Safe(Shared(loaded.value, w.row)))
  {
    if w.row.saved.Some? {
      var renumbered := w.reducer.(revision := w.row.revision);
      PersistDependsOn(w.reducer, renumbered);
      SaveRestoreNormalForm(renumbered, token);
      RestoreYieldsInv(Persist(renumbered), token);
      var r := Restore(Persist(renumbered), token).value;
      SaveRestoreNormalForm(r, token);
    } else {
      EmptyPersists(INITIAL);
    }
  }

  datatype Happening = Do(command: Command) | Restart(token: nat) {
    predicate Valid() { Do? ==> command.Valid() }
  }

  ghost predicate RowStarted(row: Row) {
    row.saved.Some? || row.revision == 0
  }

  ghost function Next(w: Shared, h: Happening): Shared
    requires Inv(w.reducer) && h.Valid()
  {
    match h
    case Do(command) => Perform(w, command).0
    case Restart(token) =>
      var loaded := Load(w.row, token);
      if loaded.Ok? then w.(reducer := loaded.value) else w
  }

  lemma NextIsSafe(w: Shared, h: Happening)
    requires Safe(w) && RowStarted(w.row) && h.Valid()
    ensures Safe(Next(w, h)) && RowStarted(Next(w, h).row)
  {
    match h
    case Do(command) => PerformIsSafe(w, command);
    case Restart(token) => LoadIsSafe(w, token);
  }

  ghost predicate AllSafe(w: Shared, life: seq<Happening>)
    requires Inv(w.reducer) && forall i :: 0 <= i < |life| ==> life[i].Valid()
    decreases |life|
  {
    && Safe(w)
    && (life == [] || (Inv(Next(w, life[0]).reducer) && AllSafe(Next(w, life[0]), life[1..])))
  }

  /** Every state of every life with arbitrary failures and restarts is safe. */
  lemma {:induction false} LifeIsSafe(w: Shared, life: seq<Happening>)
    requires Safe(w) && RowStarted(w.row) && forall i :: 0 <= i < |life| ==> life[i].Valid()
    ensures AllSafe(w, life)
    decreases |life|
  {
    if life != [] {
      NextIsSafe(w, life[0]);
      LifeIsSafe(Next(w, life[0]), life[1..]);
    }
  }

  /** A fresh installation is safe. */
  lemma StartIsSafe()
    ensures Safe(Shared(INITIAL, EMPTY_ROW)) && RowStarted(EMPTY_ROW)
  {
    EmptyPersists(INITIAL);
  }
}
