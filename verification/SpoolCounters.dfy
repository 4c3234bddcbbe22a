/** The drop counters report exactly the records the ledger says were dropped. */
module SpoolCounters {
  import opened Basics
  import opened SpoolModel
  import opened SpoolConservation
  import S = SpoolSafety

  function OfFate(fates: map<Base, Fate>, fate: Fate): set<Base> {
    set base | base in fates && fates[base] == fate
  }

  /** Each counter started from some value and has saturated or counts its drops. */
  predicate CountersAgree(start: Metrics, metrics: Metrics, fates: map<Base, Fate>) {
    && metrics.expired == Counted(start.expired, |OfFate(fates, Expired)|)
    && metrics.malformed == Counted(start.malformed, |OfFate(fates, Malformed)|)
    && metrics.limit == Counted(start.limit, |OfFate(fates, Evicted)|)
  }

  lemma CountedTwice(counter: u64, a: nat, b: nat)
    ensures Counted(Counted(counter, a), b) == Counted(counter, a + b)
  {
  }

  lemma MarkedCounts(fates: map<Base, Fate>, bases: set<Base>, fate: Fate, other: Fate)
    requires bases !! fates.Keys
    ensures |OfFate(Marked(fates, bases, fate), other)| == |OfFate(fates, other)| + if other == fate then |bases| else 0
  {
    var marked := Marked(fates, bases, fate);
    if other == fate {
      assert OfFate(marked, fate) == OfFate(fates, fate) + bases;
    } else {
      assert OfFate(marked, other) == OfFate(fates, other);
    }
  }

  lemma MarkedTwice(fates: map<Base, Fate>, a: set<Base>, b: set<Base>, fate: Fate)
    requires a !! fates.Keys && b !! fates.Keys && a !! b
    ensures |OfFate(Marked(Marked(fates, a, Expired), b, Malformed), fate)| ==
            |OfFate(fates, fate)| + (if fate == Expired then |a| else 0) + (if fate == Malformed then |b| else 0)
  {
    MarkedCounts(fates, a, Expired, fate);
    MarkedCounts(Marked(fates, a, Expired), b, Malformed, fate);
  }

  lemma SweptApart(files: Files, now: u64, limits: Limits)
    ensures ExpiredBases(files, now, limits) !! MalformedBases(files)
  {
  }

  lemma SweepCounts(start: Metrics, w: World, files: Files, now: u64)
    requires S.Books(files, w.promoted, w.fates) && CountersAgree(start, w.disk.metrics, w.fates)
    ensures CountersAgree(start, Sweep(w.disk.(files := files), now, w.limits).metrics, SweptFates(w, files, now))
  {
    S.PendingHaveNoFate(files, w.promoted, w.fates, ExpiredBases(files, now, w.limits));
    S.PendingHaveNoFate(files, w.promoted, w.fates, MalformedBases(files));
    SweptApart(files, now, w.limits);
    SweptCount(start, w.disk.metrics, w.fates, ExpiredBases(files, now, w.limits), MalformedBases(files));
  }

  lemma SweptCount(start: Metrics, metrics: Metrics, fates: map<Base, Fate>, a: set<Base>, b: set<Base>)
    requires a !! fates.Keys && b !! fates.Keys && a !! b && CountersAgree(start, metrics, fates)
    ensures CountersAgree(
              start,
              metrics.(expired := Counted(metrics.expired, |a|), malformed := Counted(metrics.malformed, |b|)),
              Marked(Marked(fates, a, Expired), b, Malformed))
  {
    MarkedTwice(fates, a, b, Expired);
    MarkedTwice(fates, a, b, Malformed);
    MarkedTwice(fates, a, b, Evicted);
    CountedTwice(start.expired, |OfFate(fates, Expired)|, |a|);
    CountedTwice(start.malformed, |OfFate(fates, Malformed)|, |b|);
  }

  lemma EnforceCounts(
    start: Metrics, disk: Disk, limits: Limits, promoted: map<Base, Content>, fates: map<Base, Fate>)
    requires S.Books(disk.files, promoted, fates) && CountersAgree(start, disk.metrics, fates)
    ensures CountersAgree(start, Enforce(disk, limits).metrics,
                          Marked(fates, EvictedBases(disk.files, limits), Evicted))
  {
    var evicted := EvictedBases(disk.files, limits);
    S.EvictedArePending(disk.files, limits);
    S.PendingHaveNoFate(disk.files, promoted, fates, evicted);
    forall fate
      ensures |OfFate(Marked(fates, evicted, Evicted), fate)| ==
              |OfFate(fates, fate)| + if fate == Evicted then |evicted| else 0
    {
      MarkedCounts(fates, evicted, Evicted, fate);
    }
    CountedTwice(start.limit, |OfFate(fates, Evicted)|, |evicted|);
  }

  lemma FinishCounts(start: Metrics, w: World, base: Base)
    requires Inv(w) && base in w.writers && CountersAgree(start, w.disk.metrics, w.fates)
    ensures CountersAgree(start, FinishStep(w, base).disk.metrics, FinishStep(w, base).fates)
  {
    S.PromoteMovesUp(w.disk.files, base);
    if Promote(w.disk.files, base).Ok? {
      var files := Promote(w.disk.files, base).value;
      var moved := w.(promoted := Entered(w.promoted, w.disk.files, files));
      S.MoveUpKeepsBooks(w.disk.files, files, w.promoted, w.fates);
      S.SweepKeepsBooks(moved, files, base.stamp);
      SweepCounts(start, moved, files, base.stamp);
      EnforceCounts(start, Sweep(w.disk.(files := files), base.stamp, w.limits), w.limits,
                    moved.promoted, SweptFates(w, files, base.stamp));
    }
  }

  lemma CommitCounts(start: Metrics, w: World, tag: nat)
    requires Inv(w) && tag in w.handles && CountersAgree(start, w.disk.metrics, w.fates)
    ensures CountersAgree(start, w.disk.metrics, CommitStep(w, tag).fates)
  {
    var base := w.handles[tag].base;
    if Claim(base, tag) in w.disk.files {
      assert InQueue(w.disk.files, Claim(base, tag));
      assert base in Present(w.disk.files);
      assert w.fates[base := Committed] == Marked(w.fates, {base}, Committed);
      forall fate
        ensures fate != Committed ==> |OfFate(Marked(w.fates, {base}, Committed), fate)| == |OfFate(w.fates, fate)|
      {
        MarkedCounts(w.fates, {base}, Committed, fate);
      }
    }
  }

  lemma TakeCounts(start: Metrics, w: World, now: u64, tag: nat)
    requires Inv(w) && CountersAgree(start, w.disk.metrics, w.fates)
    ensures CountersAgree(start, TakeStep(w, now, tag).disk.metrics, TakeStep(w, now, tag).fates)
  {
    if w.limits.WithinHardBounds() {
      S.TakeIs(w, now, tag);
      SweepCounts(start, w, w.disk.files, now);
      assert w.disk.(files := w.disk.files) == w.disk;
      assert CountersAgree(start, S.SweptWorld(w, now).disk.metrics, S.SweptWorld(w, now).fates);
    }
  }

  lemma StepCounts(start: Metrics, w: World, step: Step)
    requires Inv(w) && Enabled(w, step) && CountersAgree(start, w.disk.metrics, w.fates)
    ensures CountersAgree(start, After(w, step).disk.metrics, After(w, step).fates)
  {
    match step
    case Finish(base) => FinishCounts(start, w, base);
    case Take(now, tag) => TakeCounts(start, w, now, tag);
    case CommitTaken(tag) => CommitCounts(start, w, tag);
    case _ =>
  }

  /** After any run the counters are those found on opening plus the drops of each kind, saturating. */
  lemma {:induction false} RunCounts(start: Metrics, w: World, steps: seq<Step>)
    requires Inv(w) && AllEnabled(w, steps) && CountersAgree(start, w.disk.metrics, w.fates)
    ensures CountersAgree(start, Run(w, steps).disk.metrics, Run(w, steps).fates)
    decreases |steps|
  {
    if steps != [] {
      StepCounts(start, w, steps[0]);
      S.StepKeepsInv(w, steps[0]);
      RunCounts(start, After(w, steps[0]), steps[1..]);
    }
  }

  lemma OpenedCounts(disk: Disk, limits: Limits)
    requires OneFileEach(disk.files)
    ensures CountersAgree(disk.metrics, disk.metrics, S.Opened(disk, limits).fates)
  {
    assert forall fate :: OfFate(map[], fate) == {};
  }
}
