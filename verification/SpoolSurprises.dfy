/** A short run of the spool on which an enqueue reports a failure for a record that is being delivered. */
module SpoolSurprises {
  import opened Basics
  import opened SessionTypes
  import opened SpoolModel
  import opened SpoolConservation
  import S = SpoolSafety

  const LIMITS := Limits(HARD_MAX_COUNT, HARD_MAX_BYTES, HARD_MAX_AGE)
  const BASE := Base(5, 0)
  const SPARE := Base(6, 1)
  const EVENT := Event(1, 0, TurnStarted, 0, Some(1), 5, None, None)
  const CONTENT := Good(Record(5, EVENT), 100)

  /** A new directory that nobody works on. */
  const START := World(Disk(map[], Metrics(0, 0, 0)), LIMITS, {}, map[], {}, map[], map[])

  const STAGE := Stage(BASE, EVENT, 100)
  const RECOVER := RecoverAll([Staged(BASE)], [SPARE])
  const TAKE := Take(5, 7)

  lemma StartIsInv()
    ensures Inv(START)
  {
    assert Present(map[]) == {};
  }

  /** The enqueuer has staged its record and waits for the lock. */
  lemma Stages()
    ensures Enabled(START, STAGE)
    ensures var w := After(START, STAGE);
            w.disk.files == map[Staged(BASE) := CONTENT] && w.limits == LIMITS
            && w.writers == {BASE} && w.used == {BASE} && w.handles == map[]
  {
  }

  /** A recovery takes the staged file for one left behind. */
  lemma Recovers(w: World)
    requires w.disk.files == map[Staged(BASE) := CONTENT] && w.writers == {BASE} && w.used == {BASE}
    requires w.limits == LIMITS && w.handles == map[]
    ensures Enabled(w, RECOVER)
    ensures var after := After(w, RECOVER);
            after.disk.files == map[Pending(BASE) := CONTENT] && after.writers == {BASE}
            && after.limits == LIMITS && after.handles == map[]
  {
    assert Elements([Staged(BASE)]) == {Staged(BASE)};
    var moved := RecoverOne(w.disk.files, Staged(BASE), SPARE);
    assert moved == map[Pending(BASE) := CONTENT];
    assert [Staged(BASE)][1..] == [] && [SPARE][1..] == [];
    assert Recover(moved, [], []) == Recovery(moved, 0, true);
    assert Recover(w.disk.files, [Staged(BASE)], [SPARE]).files == moved;
  }

  /** A consumer claims it. */
  lemma Takes(w: World)
    requires w.disk.files == map[Pending(BASE) := CONTENT] && w.limits == LIMITS && w.handles == map[]
    ensures Enabled(w, TAKE)
    ensures After(w, TAKE).disk.files == map[Claim(BASE, 7) := CONTENT] && After(w, TAKE).writers == w.writers
    ensures After(w, TAKE).limits == LIMITS
  {
    SweepsNothing(w.disk);
    FirstIs(w.disk.files);
    S.TakeIs(w, 5, 7);
    assert S.SweptWorld(w, 5).disk == w.disk;
  }

  lemma SweepsNothing(disk: Disk)
    requires disk.files == map[Pending(BASE) := CONTENT]
    ensures Sweep(disk, 5, LIMITS) == disk
  {
    assert ExpiredBases(disk.files, 5, LIMITS) == {} && MalformedBases(disk.files) == {};
    assert Sweep(disk, 5, LIMITS).files == disk.files;
  }

  lemma FirstIs(files: Files)
    requires files == map[Pending(BASE) := CONTENT]
    ensures ClaimOrder(Queued(files)) != [] && ClaimOrder(Queued(files))[0].base == BASE
  {
    var rank := RankOf(BASE, CONTENT.record);
    assert rank in Queued(files);
    var order := ClaimOrder(Queued(files));
    assert rank in Elements(order);
    assert order[0] in Elements(order);
  }

  /** The enqueuer is told that its record was not found while a consumer holds it. */
  lemma FailureIsReportedWhileDelivering()
    ensures Inv(START) && AllEnabled(START, [STAGE, RECOVER, TAKE])
    ensures var w := Run(START, [STAGE, RECOVER, TAKE]);
            && BASE in w.writers && Claim(BASE, 7) in w.disk.files
            && FinishEnqueue(w.disk, BASE, w.limits).1 == Err(NotFound)
  {
    Stages();
    var staged := After(START, STAGE);
    Recovers(staged);
    var recovered := After(staged, RECOVER);
    Takes(recovered);
    var taken := After(recovered, TAKE);
    StartIsInv();
    RunIsThree(START, STAGE, RECOVER, TAKE);
  }

  lemma RunIsThree(w: World, a: Step, b: Step, c: Step)
    requires Enabled(w, a) && Enabled(After(w, a), b) && Enabled(After(After(w, a), b), c)
    ensures AllEnabled(w, [a, b, c]) && Run(w, [a, b, c]) == After(After(After(w, a), b), c)
  {
    assert [a, b, c][1..] == [b, c] && [b, c][1..] == [c] && [c][1..] == [];
    var x := After(w, a);
    var y := After(x, b);
    var z := After(y, c);
    assert AllEnabled(z, []) && AllEnabled(y, [c]) && AllEnabled(x, [b, c]);
    assert Run(z, []) == z && Run(y, [c]) == z && Run(x, [b, c]) == z;
  }
}
