/**
 No record is lost or duplicated, whatever enqueuers, consumers, crashes and recoveries do. The
 world adds to the directory who is working on it and a ledger of what became of every record.
 */
module SpoolConservation {
  import opened Basics
  import opened SessionTypes
  import opened SpoolModel
  import L = SpoolLimits

  datatype Fate = Committed | Expired | Evicted | Malformed

  datatype Handle = Handle(base: Base, record: Record)

  /**
   `writers` are the enqueues between staging and the lock, `handles` the claims held by live
   consumers by their unique tag. The ledger: `used` holds the bases drawn so far, `promoted` what
   entered the queue, `fates` how it left.
   */
  datatype World = World(
    disk: Disk,
    limits: Limits,
    writers: set<Base>,
    handles: map<nat, Handle>,
    used: set<Base>,
    promoted: map<Base, Content>,
    fates: map<Base, Fate>)

  datatype Step =
    | Stage(base: Base, event: Event, size: nat)
    | Finish(base: Base)
    | Abandon(base: Base)
    | Take(now: u64, tag: nat)
    | CommitTaken(tag: nat)
    | ReleaseTaken(tag: nat, spare: Base)
    | RecoverAll(entries: seq<Name>, spares: seq<Base>)
    | Crash(writers: set<Base>, tags: set<nat>)

  /** A recovery visits every file of the directory once, in any order. */
  ghost predicate Lists(files: Files, entries: seq<Name>) {
    Distinct(entries) && Elements(entries) == files.Keys
  }

  ghost predicate Enabled(w: World, step: Step) {
    match step
    case Stage(base, event, size) => base !in w.used
    case Finish(base) => base in w.writers
    case Abandon(base) => base in w.writers
    case Take(_, tag) => tag !in w.handles
    case CommitTaken(tag) => tag in w.handles
    case ReleaseTaken(tag, spare) => tag in w.handles && spare !in w.used
    case RecoverAll(entries, spares) =>
      && Lists(w.disk.files, entries) && |spares| == |entries|
      && Distinct(spares) && forall spare :: spare in spares ==> spare !in w.used
    case Crash(_, _) => true
  }

  // ---- The ledger ----

  function Marked(fates: map<Base, Fate>, bases: set<Base>, fate: Fate): map<Base, Fate> {
    map base | base in fates.Keys + bases :: if base in bases then fate else fates[base]
  }

  function SweptFates(w: World, files: Files, now: u64): map<Base, Fate> {
    Marked(Marked(w.fates, ExpiredBases(files, now, w.limits), Expired), MalformedBases(files), Malformed)
  }

  function Entered(promoted: map<Base, Content>, before: Files, after: Files): map<Base, Content> {
    promoted + map name | name in after && name.Pending? && Staged(name.base) in before && Staged(name.base) !in after
                 :: name.base := after[name]
  }

  // ---- Steps ----

  function StageStep(w: World, base: Base, event: Event, size: nat): World {
    if Admissible(w.limits, event, size).Some? then w
    else
      w.(disk := w.disk.(files := w.disk.files[Staged(base) := Good(Record(base.stamp, event), size)]),
         writers := w.writers + {base},
         used := w.used + {base})
  }

  ghost function FinishStep(w: World, base: Base): World {
    var (disk, result) := FinishEnqueue(w.disk, base, w.limits);
    var done := w.(disk := disk, writers := w.writers - {base});
    match Promote(w.disk.files, base)
    case Err(_) => done
    case Ok(files) =>
      var swept := Sweep(w.disk.(files := files), base.stamp, w.limits);
      done.(promoted := Entered(w.promoted, w.disk.files, files),
            fates := Marked(SweptFates(w, files, base.stamp), EvictedBases(swept.files, w.limits), Evicted))
  }

  ghost function TakeStep(w: World, now: u64, tag: nat): World {
    if !w.limits.WithinHardBounds() then w
    else
      var (disk, claimed) := ClaimNext(w.disk, now, tag, w.limits);
      var swept := w.(disk := disk, fates := SweptFates(w, w.disk.files, now));
      if claimed.None? then swept
      else
        ClaimedIsThere(w.disk, now, tag, w.limits);
        swept.(handles := w.handles[tag := Handle(claimed.value, disk.files[Claim(claimed.value, tag)].record)])
  }

  lemma ClaimedIsThere(disk: Disk, now: u64, tag: nat, limits: Limits)
    ensures var (after, claimed) := ClaimNext(disk, now, tag, limits);
            claimed.Some? ==>
              && Claim(claimed.value, tag) in after.files && after.files[Claim(claimed.value, tag)].Good?
              && Pending(claimed.value) in disk.files
              && disk.files[Pending(claimed.value)] == after.files[Claim(claimed.value, tag)]
  {
    var swept := Sweep(disk, now, limits);
    L.SweepLeavesFreshRecords(disk, now, limits);
    var order := ClaimOrder(Queued(swept.files));
    if order != [] {
      L.OrderIsQueued(swept.files, order[0]);
    }
  }

  function CommitStep(w: World, tag: nat): World
    requires tag in w.handles
  {
    var base := w.handles[tag].base;
    var (files, removed) := Commit(w.disk.files, base, tag);
    w.(disk := w.disk.(files := files),
       handles := w.handles - {tag},
       fates := if removed then w.fates[base := Committed] else w.fates)
  }

  function ReleaseStep(w: World, tag: nat, spare: Base): World
    requires tag in w.handles
  {
    w.(disk := w.disk.(files := Release(w.disk.files, w.handles[tag].base, tag, spare)),
       handles := w.handles - {tag})
  }

  ghost function RecoverStep(w: World, entries: seq<Name>, spares: seq<Base>): World
    requires Lists(w.disk.files, entries) && |spares| == |entries|
  {
    assert forall name :: name in entries ==> name in Elements(entries);
    var files := Recover(w.disk.files, entries, spares).files;
    w.(disk := w.disk.(files := files), promoted := Entered(w.promoted, w.disk.files, files))
  }

  ghost function After(w: World, step: Step): World
    requires Enabled(w, step)
  {
    match step
    case Stage(base, event, size) => StageStep(w, base, event, size)
    case Finish(base) => FinishStep(w, base)
    case Abandon(base) =>
      w.(disk := w.disk.(files := w.disk.files - {Staged(base)}), writers := w.writers - {base})
    case Take(now, tag) => TakeStep(w, now, tag)
    case CommitTaken(tag) => CommitStep(w, tag)
    case ReleaseTaken(tag, spare) => ReleaseStep(w, tag, spare)
    case RecoverAll(entries, spares) => RecoverStep(w, entries, spares)
    case Crash(writers, tags) => w.(writers := w.writers - writers, handles := w.handles - tags)
  }

  ghost predicate AllEnabled(w: World, steps: seq<Step>)
    decreases |steps|
  {
    steps == [] || (Enabled(w, steps[0]) && AllEnabled(After(w, steps[0]), steps[1..]))
  }

  ghost function Run(w: World, steps: seq<Step>): World
    requires AllEnabled(w, steps)
    decreases |steps|
  {
    if steps == [] then w else Run(After(w, steps[0]), steps[1..])
  }

  // ---- Invariant ----

  predicate InQueue(files: Files, name: Name) {
    name in files && !name.Staged?
  }

  /** No two files belong to the same record. */
  ghost predicate OneFileEach(files: Files) {
    forall a, b :: a in files && b in files && a.base == b.base ==> a == b
  }

  /** The records in the queue, pending or claimed. */
  function Present(files: Files): set<Base> {
    set name | name in files && InQueue(files, name) :: name.base
  }

  /** What entered and has no fate is in the directory, unchanged, and nothing else is. */
  ghost predicate Accounted(files: Files, promoted: map<Base, Content>, fates: map<Base, Fate>) {
    && Present(files) == promoted.Keys - fates.Keys
    && fates.Keys <= promoted.Keys
    && (forall name :: InQueue(files, name) ==> name.base in promoted && promoted[name.base] == files[name])
  }

  ghost predicate UsedOk(w: World) {
    && (forall name :: name in w.disk.files ==> name.base in w.used)
    && (forall base :: base in w.promoted ==> base in w.used)
    && (forall base :: base in w.writers ==> base in w.used)
    && (forall base :: Staged(base) in w.disk.files ==> base !in w.promoted)
    && (forall base :: base in w.writers && Staged(base) !in w.disk.files ==> base in w.promoted)
  }

  ghost predicate HandlesOk(w: World) {
    forall tag :: tag in w.handles ==>
      && w.handles[tag].base in w.promoted
      && w.promoted[w.handles[tag].base].Good?
      && w.promoted[w.handles[tag].base].record == w.handles[tag].record
  }

  ghost predicate Inv(w: World) {
    && OneFileEach(w.disk.files)
    && Accounted(w.disk.files, w.promoted, w.fates)
    && UsedOk(w)
    && HandlesOk(w)
  }
}
