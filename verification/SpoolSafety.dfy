/** Conservation of records over every interleaving, and the counters that report the losses. */
module SpoolSafety {
  import opened Basics
  import opened SessionTypes
  import opened SpoolModel
  import opened SpoolConservation
  import L = SpoolLimits

  /** The part of the invariant that ties the directory to the ledger. */
  ghost predicate Books(files: Files, promoted: map<Base, Content>, fates: map<Base, Fate>) {
    && OneFileEach(files)
    && Accounted(files, promoted, fates)
    && (forall base :: Staged(base) in files ==> base !in promoted)
  }

  // ---- Moves that keep the books ----

  lemma PresentWithout(files: Files, bases: set<Base>)
    requires OneFileEach(files) && forall base :: base in bases ==> Pending(base) in files
    ensures Present(WithoutPending(files, bases)) == Present(files) - bases
  {
    var after := WithoutPending(files, bases);
    forall name | InQueue(files, name)
      ensures InQueue(after, name) <==> name.base !in bases
    {
    }
  }

  lemma MarkedAdds(fates: map<Base, Fate>, bases: set<Base>, fate: Fate)
    ensures Marked(fates, bases, fate).Keys == fates.Keys + bases
  {
  }

  lemma FewerFiles(files: Files, after: Files)
    requires OneFileEach(files) && forall name :: name in after ==> name in files
    ensures OneFileEach(after)
  {
  }

  lemma PendingArePresent(files: Files, bases: set<Base>)
    requires forall base :: base in bases ==> Pending(base) in files
    ensures bases <= Present(files)
  {
    forall base | base in bases
      ensures base in Present(files)
    {
      assert InQueue(files, Pending(base));
    }
  }

  lemma DropKeepsBooks(
    files: Files, promoted: map<Base, Content>, fates: map<Base, Fate>, bases: set<Base>, fate: Fate)
    requires Books(files, promoted, fates) && forall base :: base in bases ==> Pending(base) in files
    ensures Books(WithoutPending(files, bases), promoted, Marked(fates, bases, fate))
  {
    var after := WithoutPending(files, bases);
    PresentWithout(files, bases);
    PendingArePresent(files, bases);
    MarkedAdds(fates, bases, fate);
    FewerFiles(files, after);
    forall name | InQueue(after, name)
      ensures name.base in promoted && promoted[name.base] == after[name]
    {
      assert InQueue(files, name);
    }
    assert Present(after) == promoted.Keys - Marked(fates, bases, fate).Keys;
    assert Accounted(after, promoted, Marked(fates, bases, fate));
    forall base | Staged(base) in after
      ensures base !in promoted
    {
      assert Staged(base) in files;
    }
  }

  lemma DropsAdd(files: Files, a: set<Base>, b: set<Base>)
    ensures WithoutPending(WithoutPending(files, a), b) == WithoutPending(files, a + b)
  {
  }

  lemma SweepKeepsBooks(w: World, files: Files, now: u64)
    requires Books(files, w.promoted, w.fates)
    ensures Books(Sweep(w.disk.(files := files), now, w.limits).files, w.promoted, SweptFates(w, files, now))
  {
    var expired, malformed := ExpiredBases(files, now, w.limits), MalformedBases(files);
    DropKeepsBooks(files, w.promoted, w.fates, expired, Expired);
    DropKeepsBooks(WithoutPending(files, expired), w.promoted, Marked(w.fates, expired, Expired), malformed, Malformed);
    DropsAdd(files, expired, malformed);
  }

  lemma EvictedArePending(files: Files, limits: Limits)
    ensures forall base :: base in EvictedBases(files, limits) ==> Pending(base) in files
  {
    var order := EvictionOrder(Queued(files));
    forall rank | rank in order
      ensures Pending(rank.base) in files
    {
      L.OrderIsQueued(files, rank);
    }
  }

  /** A file takes another name of its record. */
  lemma RenameKeepsBooks(files: Files, promoted: map<Base, Content>, fates: map<Base, Fate>, from: Name, to: Name)
    requires Books(files, promoted, fates) && from in files && !from.Staged?
    requires !to.Staged? && to.base == from.base
    ensures Books(Renamed(files, from, to), promoted, fates)
  {
    var after := Renamed(files, from, to);
    forall base
      ensures base in Present(after) <==> base in Present(files)
    {
      assert InQueue(files, from) && InQueue(after, to);
      assert forall name :: name != from && name != to ==> (InQueue(files, name) <==> InQueue(after, name));
    }
  }

  lemma RemoveClaimKeepsBooks(files: Files, promoted: map<Base, Content>, fates: map<Base, Fate>, base: Base, tag: nat)
    requires Books(files, promoted, fates) && Claim(base, tag) in files
    ensures Books(files - {Claim(base, tag)}, promoted, fates[base := Committed])
  {
    var after := files - {Claim(base, tag)};
    assert InQueue(files, Claim(base, tag));
    assert forall name :: InQueue(after, name) <==> InQueue(files, name) && name != Claim(base, tag);
    assert Present(after) == Present(files) - {base};
  }

  lemma StagedFilesAreFree(
    files: Files, after: Files, promoted: map<Base, Content>, fates: map<Base, Fate>, base: Base)
    requires Books(files, promoted, fates) && base !in promoted
    requires forall name :: name in files && name.base == base ==> name.Staged?
    requires after - {Staged(base)} == files - {Staged(base)}
    ensures Books(after, promoted, fates)
  {
    forall name | name != Staged(base)
      ensures name in after <==> name in files
      ensures name in files ==> after[name] == files[name]
    {
      assert name in after <==> name in after - {Staged(base)};
      assert name in files <==> name in files - {Staged(base)};
      assert name in files ==> (after - {Staged(base)})[name] == (files - {Staged(base)})[name];
    }
    assert forall name :: InQueue(after, name) <==> InQueue(files, name);
    assert Present(after) == Present(files);
  }

  // ---- Moving up to pending: promotion and recovery ----

  predicate MovesTo(files: Files, after: Files, name: Name) {
    && name in files && !name.Pending? && name !in after
    && Pending(name.base) in after && after[Pending(name.base)] == files[name]
  }

  /** Some staged and claimed files have become pending; the others are where they were. */
  ghost predicate MovedUp(files: Files, after: Files) {
    && (forall name :: name in files ==> (name in after && after[name] == files[name]) || MovesTo(files, after, name))
    && (forall name :: name in after ==>
          || name in files
          || (name.Pending? && exists from :: MovesTo(files, after, from) && from.base == name.base))
  }

  lemma RecoverOneMovesUp(files: Files, name: Name, spare: Base)
    requires OneFileEach(files) && name in files && !name.Pending? && files[name].Good?
    ensures MovedUp(files, RecoverOne(files, name, spare)) && OneFileEach(RecoverOne(files, name, spare))
    ensures Pending(name.base) !in files
    ensures RecoverOne(files, name, spare) == Renamed(files, name, Pending(name.base))
  {
    var after := RecoverOne(files, name, spare);
    assert MovesTo(files, after, name);
  }

  lemma MovedUpTransitive(a: Files, b: Files, c: Files)
    requires MovedUp(a, b) && MovedUp(b, c) && OneFileEach(a) && OneFileEach(b) && OneFileEach(c)
    ensures MovedUp(a, c)
  {
    forall name | name in a
      ensures (name in c && c[name] == a[name]) || MovesTo(a, c, name)
    {
      if name in b && b[name] == a[name] {
      } else {
        assert MovesTo(a, b, name);
        assert Pending(name.base) in c;
        assert name !in c;
      }
    }
    forall name | name in c && name !in a
      ensures name.Pending? && exists from :: MovesTo(a, c, from) && from.base == name.base
    {
      if name in b {
        var from :| MovesTo(a, b, from) && from.base == name.base;
        assert MovesTo(a, c, from);
      } else {
        var from :| MovesTo(b, c, from) && from.base == name.base;
        assert from in a;
        assert MovesTo(a, c, from);
      }
    }
  }

  lemma {:induction false} RecoverMovesUp(files: Files, entries: seq<Name>, spares: seq<Base>)
    requires OneFileEach(files)
    requires |entries| == |spares| && Distinct(entries) && forall name :: name in entries ==> name in files
    ensures var r := Recover(files, entries, spares);
            && MovedUp(files, r.files) && OneFileEach(r.files)
            && r.recovered <= |entries|
            && (r.ok <==> forall name :: name in entries && !name.Pending? ==> files[name].Good?)
            && (r.ok ==> forall name :: name in entries && !name.Pending? ==> name !in r.files)
    decreases |entries|
  {
    if entries != [] {
      var name, rest := entries[0], entries[1..];
      assert entries == [name] + rest;
      if name.Pending? {
        RecoverMovesUp(files, rest, spares[1..]);
      } else if files[name].Good? {
        var next := RecoverOne(files, name, spares[0]);
        RecoverOneMovesUp(files, name, spares[0]);
        assert forall other :: other in rest ==> other != name && next[other] == files[other];
        RecoverMovesUp(next, rest, spares[1..]);
        var r := Recover(next, rest, spares[1..]);
        MovedUpTransitive(files, next, r.files);
        assert name !in next;
        assert name !in r.files;
      } else {
        assert name in entries;
      }
    }
  }

  lemma MoveUpPresents(files: Files, after: Files, promoted: map<Base, Content>)
    requires OneFileEach(files) && MovedUp(files, after) && OneFileEach(after)
    requires forall base :: Staged(base) in files ==> base !in promoted
    ensures Present(after) == Present(files) + (Entered(promoted, files, after).Keys - promoted.Keys)
  {
    forall name | InQueue(files, name)
      ensures InQueue(after, name) || InQueue(after, Pending(name.base))
    {
    }
    forall name | InQueue(after, name)
      ensures InQueue(files, name) || (Staged(name.base) in files && Staged(name.base) !in after && name.Pending?)
              || exists from :: InQueue(files, from) && from.base == name.base
    {
      if name !in files {
        var from :| MovesTo(files, after, from) && from.base == name.base;
        assert from.Staged? || InQueue(files, from);
      }
    }
  }

  lemma EnteredIs(files: Files, after: Files, promoted: map<Base, Content>, base: Base)
    requires OneFileEach(after)
    ensures var entered := Entered(promoted, files, after);
            var moved := Pending(base) in after && Staged(base) in files && Staged(base) !in after;
            && (base in entered <==> (base in promoted || moved))
            && (base in entered ==> entered[base] == if moved then after[Pending(base)] else promoted[base])
  {
  }

  lemma MoveUpContents(
    files: Files, after: Files, promoted: map<Base, Content>, fates: map<Base, Fate>, name: Name)
    requires Books(files, promoted, fates) && MovedUp(files, after) && OneFileEach(after)
    requires InQueue(after, name)
    ensures var entered := Entered(promoted, files, after);
            name.base in entered && entered[name.base] == after[name]
  {
    EnteredIs(files, after, promoted, name.base);
    if name in files {
      assert InQueue(files, name);
    } else {
      var from :| MovesTo(files, after, from) && from.base == name.base;
      assert from.Staged? || InQueue(files, from);
    }
  }

  lemma MoveUpKeys(files: Files, after: Files, promoted: map<Base, Content>, fates: map<Base, Fate>)
    requires Books(files, promoted, fates) && MovedUp(files, after) && OneFileEach(after)
    ensures var entered := Entered(promoted, files, after);
            Present(after) == entered.Keys - fates.Keys && promoted.Keys <= entered.Keys
  {
    var entered := Entered(promoted, files, after);
    MoveUpPresents(files, after, promoted);
    assert promoted.Keys <= entered.Keys;
  }

  lemma StagedStayOutside(files: Files, after: Files, promoted: map<Base, Content>, base: Base)
    requires MovedUp(files, after) && OneFileEach(after) && Staged(base) in after
    requires Staged(base) in files ==> base !in promoted
    ensures base !in Entered(promoted, files, after)
  {
    EnteredIs(files, after, promoted, base);
  }

  lemma MoveUpKeepsBooks(files: Files, after: Files, promoted: map<Base, Content>, fates: map<Base, Fate>)
    requires Books(files, promoted, fates) && MovedUp(files, after) && OneFileEach(after)
    ensures Books(after, Entered(promoted, files, after), fates)
  {
    var entered := Entered(promoted, files, after);
    MoveUpKeys(files, after, promoted, fates);
    forall name | InQueue(after, name)
      ensures name.base in entered && entered[name.base] == after[name]
    {
      MoveUpContents(files, after, promoted, fates, name);
    }
    assert Accounted(after, entered, fates);
    forall base | Staged(base) in after
      ensures base !in entered
    {
      StagedStayOutside(files, after, promoted, base);
    }
  }

  // ---- Steps ----

  /** The rest of the invariant follows when records only enter, staged files leave only by entering. */
  lemma RestKept(w: World, after: World)
    requires UsedOk(w) && HandlesOk(w)
    requires after.used == w.used && after.writers <= w.writers
    requires forall name :: name in after.disk.files ==> exists from :: from in w.disk.files && from.base == name.base
    requires forall base :: base in w.promoted ==> base in after.promoted && after.promoted[base] == w.promoted[base]
    requires forall base :: base in after.promoted ==> base in w.promoted || Staged(base) in w.disk.files
    requires forall base :: Staged(base) in after.disk.files ==> base !in after.promoted
    requires forall base :: Staged(base) in w.disk.files && base in after.writers && base !in after.promoted ==>
      Staged(base) in after.disk.files
    requires forall tag :: tag in after.handles ==> tag in w.handles && after.handles[tag] == w.handles[tag]
    ensures UsedOk(after) && HandlesOk(after)
  {
    forall name | name in after.disk.files
      ensures name.base in w.used
    {
      var from :| from in w.disk.files && from.base == name.base;
    }
  }

  lemma MoveUpKeepsRest(w: World, files: Files)
    requires Inv(w) && MovedUp(w.disk.files, files) && OneFileEach(files)
    ensures UsedOk(w.(disk := w.disk.(files := files), promoted := Entered(w.promoted, w.disk.files, files)))
    ensures HandlesOk(w.(disk := w.disk.(files := files), promoted := Entered(w.promoted, w.disk.files, files)))
  {
    var entered := Entered(w.promoted, w.disk.files, files);
    forall base
      ensures base in w.promoted ==> base in entered && entered[base] == w.promoted[base]
      ensures base in entered ==> base in w.promoted || Staged(base) in w.disk.files
      ensures Staged(base) in files ==> base !in entered
      ensures Staged(base) in w.disk.files && base !in entered ==> Staged(base) in files
    {
      EnteredIs(w.disk.files, files, w.promoted, base);
    }
    forall name | name in files
      ensures exists from :: from in w.disk.files && from.base == name.base
    {
      if name !in w.disk.files {
        var from :| MovesTo(w.disk.files, files, from) && from.base == name.base;
      }
    }
    RestKept(w, w.(disk := w.disk.(files := files), promoted := entered));
  }

  lemma RecoverKeepsInv(w: World, entries: seq<Name>, spares: seq<Base>)
    requires Inv(w) && Enabled(w, RecoverAll(entries, spares))
    ensures Inv(RecoverStep(w, entries, spares))
  {
    assert forall name :: name in entries ==> name in Elements(entries);
    var files := Recover(w.disk.files, entries, spares).files;
    RecoverMovesUp(w.disk.files, entries, spares);
    MoveUpKeepsBooks(w.disk.files, files, w.promoted, w.fates);
    MoveUpKeepsRest(w, files);
  }

  lemma StageKeepsInv(w: World, base: Base, event: Event, size: nat)
    requires Inv(w) && base !in w.used
    ensures Inv(StageStep(w, base, event, size))
  {
    if Admissible(w.limits, event, size).None? {
      var after := StageStep(w, base, event, size);
      assert forall name :: name in w.disk.files ==> name.base != base;
      assert after.disk.files - {Staged(base)} == w.disk.files - {Staged(base)};
      StagedFilesAreFree(w.disk.files, after.disk.files, w.promoted, w.fates, base);
    }
  }

  lemma AbandonKeepsInv(w: World, base: Base)
    requires Inv(w) && base in w.writers
    ensures Inv(w.(disk := w.disk.(files := w.disk.files - {Staged(base)}), writers := w.writers - {base}))
  {
    var files := w.disk.files - {Staged(base)};
    if Staged(base) in w.disk.files {
      assert forall name :: name in w.disk.files && name.base == base ==> name == Staged(base);
      assert files - {Staged(base)} == w.disk.files - {Staged(base)};
      StagedFilesAreFree(w.disk.files, files, w.promoted, w.fates, base);
    } else {
      assert files == w.disk.files;
    }
  }

  /** Promotion within an enqueue moves the staged file up, or finds that a recovery did. */
  lemma PromoteMovesUp(files: Files, base: Base)
    requires OneFileEach(files)
    ensures match Promote(files, base)
            case Ok(after) => MovedUp(files, after) && OneFileEach(after)
            case Err(error) => Staged(base) !in files
  {
    if Staged(base) in files {
      assert Pending(base) !in files;
      var after := Renamed(files, Staged(base), Pending(base));
      assert MovesTo(files, after, Staged(base));
    }
  }

  lemma RemovalKeepsRest(w: World, after: World)
    requires Inv(w)
    requires after.(disk := w.disk, fates := w.fates) == w
    requires forall name :: name in after.disk.files ==> name in w.disk.files
    requires forall base :: Staged(base) in w.disk.files ==> Staged(base) in after.disk.files
    ensures UsedOk(after) && HandlesOk(after)
  {
    RestKept(w, after);
  }

  lemma SweepKeepsInv(w: World, now: u64)
    requires Inv(w)
    ensures Inv(w.(disk := Sweep(w.disk, now, w.limits), fates := SweptFates(w, w.disk.files, now)))
  {
    SweepKeepsBooks(w, w.disk.files, now);
    assert w.disk.(files := w.disk.files) == w.disk;
    RemovalKeepsRest(w, w.(disk := Sweep(w.disk, now, w.limits), fates := SweptFates(w, w.disk.files, now)));
  }

  lemma EvictKeepsInv(w: World)
    requires Inv(w)
    ensures Inv(w.(disk := Enforce(w.disk, w.limits),
                   fates := Marked(w.fates, EvictedBases(w.disk.files, w.limits), Evicted)))
  {
    EvictedArePending(w.disk.files, w.limits);
    DropKeepsBooks(w.disk.files, w.promoted, w.fates, EvictedBases(w.disk.files, w.limits), Evicted);
    RemovalKeepsRest(w, w.(disk := Enforce(w.disk, w.limits),
                           fates := Marked(w.fates, EvictedBases(w.disk.files, w.limits), Evicted)));
  }

  lemma FewerWriters(w: World, writers: set<Base>)
    requires Inv(w) && writers <= w.writers
    ensures Inv(w.(writers := writers))
  {
  }

  lemma FinishKeepsInv(w: World, base: Base)
    requires Inv(w) && base in w.writers
    ensures Inv(FinishStep(w, base))
  {
    PromoteMovesUp(w.disk.files, base);
    match Promote(w.disk.files, base)
    case Err(_) =>
      assert w.disk.files - {Staged(base)} == w.disk.files;
      FewerWriters(w, w.writers - {base});
    case Ok(files) =>
      var moved := w.(disk := w.disk.(files := files), promoted := Entered(w.promoted, w.disk.files, files));
      MoveUpKeepsBooks(w.disk.files, files, w.promoted, w.fates);
      MoveUpKeepsRest(w, files);
      var fates := SweptFates(moved, files, base.stamp);
      var swept := moved.(disk := Sweep(moved.disk, base.stamp, w.limits), fates := fates);
      SweepKeepsInv(moved, base.stamp);
      EvictKeepsInv(swept);
      FewerWriters(swept.(disk := Enforce(swept.disk, w.limits),
                          fates := Marked(swept.fates, EvictedBases(swept.disk.files, w.limits), Evicted)),
                   w.writers - {base});
  }

  lemma ClaimKeepsInv(w: World, base: Base, tag: nat)
    requires Inv(w) && Pending(base) in w.disk.files && w.disk.files[Pending(base)].Good?
    ensures Inv(ClaimedWorld(w, base, tag))
  {
    var files := Renamed(w.disk.files, Pending(base), Claim(base, tag));
    RenameKeepsBooks(w.disk.files, w.promoted, w.fates, Pending(base), Claim(base, tag));
    assert InQueue(w.disk.files, Pending(base));
    RestKept(w, w.(disk := w.disk.(files := files)));
  }

  function SweptWorld(w: World, now: u64): World {
    w.(disk := Sweep(w.disk, now, w.limits), fates := SweptFates(w, w.disk.files, now))
  }

  function ClaimedWorld(w: World, base: Base, tag: nat): World
    requires Pending(base) in w.disk.files && w.disk.files[Pending(base)].Good?
  {
    w.(disk := w.disk.(files := Renamed(w.disk.files, Pending(base), Claim(base, tag))),
       handles := w.handles[tag := Handle(base, w.disk.files[Pending(base)].record)])
  }

  /** A claim is a sweep and then, if something is left, the renaming of the first in order. */
  lemma TakeIs(w: World, now: u64, tag: nat)
    requires w.limits.WithinHardBounds()
    ensures var swept := SweptWorld(w, now);
            var order := ClaimOrder(Queued(swept.disk.files));
            if order == [] then TakeStep(w, now, tag) == swept
            else
              && Pending(order[0].base) in swept.disk.files && swept.disk.files[Pending(order[0].base)].Good?
              && TakeStep(w, now, tag) == ClaimedWorld(swept, order[0].base, tag)
  {
    var swept := SweptWorld(w, now);
    var order := ClaimOrder(Queued(swept.disk.files));
    if order != [] {
      L.OrderIsQueued(swept.disk.files, order[0]);
    }
  }

  lemma TakeKeepsInv(w: World, now: u64, tag: nat)
    requires Inv(w) && tag !in w.handles
    ensures Inv(TakeStep(w, now, tag))
  {
    if w.limits.WithinHardBounds() {
      SweepKeepsInv(w, now);
      TakeIs(w, now, tag);
      var swept := SweptWorld(w, now);
      var order := ClaimOrder(Queued(swept.disk.files));
      if order != [] {
        ClaimKeepsInv(swept, order[0].base, tag);
      }
    }
  }

  lemma CommitKeepsInv(w: World, tag: nat)
    requires Inv(w) && tag in w.handles
    ensures Inv(CommitStep(w, tag))
  {
    var base := w.handles[tag].base;
    var after := CommitStep(w, tag);
    if Claim(base, tag) in w.disk.files {
      RemoveClaimKeepsBooks(w.disk.files, w.promoted, w.fates, base, tag);
    } else {
      assert after.disk.files == w.disk.files;
    }
    assert forall name :: name in after.disk.files ==> name in w.disk.files;
    RestKept(w, after);
  }

  lemma ReleaseKeepsInv(w: World, tag: nat, spare: Base)
    requires Inv(w) && tag in w.handles
    ensures Inv(ReleaseStep(w, tag, spare))
  {
    var base := w.handles[tag].base;
    if Claim(base, tag) in w.disk.files {
      assert Pending(base) !in w.disk.files;
      RenameKeepsBooks(w.disk.files, w.promoted, w.fates, Claim(base, tag), Pending(base));
    }
    RestKept(w, ReleaseStep(w, tag, spare));
  }

  lemma StepKeepsInv(w: World, step: Step)
    requires Inv(w) && Enabled(w, step)
    ensures Inv(After(w, step))
  {
    match step
    case Stage(base, event, size) => StageKeepsInv(w, base, event, size);
    case Finish(base) => FinishKeepsInv(w, base);
    case Abandon(base) => AbandonKeepsInv(w, base);
    case Take(now, tag) => TakeKeepsInv(w, now, tag);
    case CommitTaken(tag) => CommitKeepsInv(w, tag);
    case ReleaseTaken(tag, spare) => ReleaseKeepsInv(w, tag, spare);
    case RecoverAll(entries, spares) => RecoverKeepsInv(w, entries, spares);
    case Crash(_, _) =>
  }

  // ---- Whole runs ----

  lemma {:induction false} RunKeepsInv(w: World, steps: seq<Step>)
    requires Inv(w) && AllEnabled(w, steps)
    ensures Inv(Run(w, steps))
    decreases |steps|
  {
    if steps != [] {
      StepKeepsInv(w, steps[0]);
      RunKeepsInv(After(w, steps[0]), steps[1..]);
    }
  }

  /** A directory found on opening: what is pending or claimed has entered the queue. */
  function Opened(disk: Disk, limits: Limits): World
    requires OneFileEach(disk.files)
  {
    World(disk, limits, {}, map[], set name | name in disk.files :: name.base,
          map name | name in disk.files && !name.Staged? :: name.base := disk.files[name], map[])
  }

  lemma OpenedIsInv(disk: Disk, limits: Limits)
    requires OneFileEach(disk.files)
    ensures Inv(Opened(disk, limits))
  {
    var w := Opened(disk, limits);
    assert forall name :: InQueue(disk.files, name) ==> name.base in w.promoted;
    assert Present(disk.files) == w.promoted.Keys;
  }

  predicate Preserves<T(==)>(before: map<Base, T>, after: map<Base, T>) {
    forall base :: base in before ==> base in after && after[base] == before[base]
  }

  lemma MarkedPreserves(fates: map<Base, Fate>, bases: set<Base>, fate: Fate)
    requires bases !! fates.Keys
    ensures Preserves(fates, Marked(fates, bases, fate))
  {
  }

  lemma PendingHaveNoFate(files: Files, promoted: map<Base, Content>, fates: map<Base, Fate>, bases: set<Base>)
    requires Books(files, promoted, fates) && forall base :: base in bases ==> Pending(base) in files
    ensures bases !! fates.Keys
  {
    PendingArePresent(files, bases);
  }

  lemma SweepPreserves(w: World, files: Files, now: u64)
    requires Books(files, w.promoted, w.fates)
    ensures Preserves(w.fates, SweptFates(w, files, now))
  {
    PendingHaveNoFate(files, w.promoted, w.fates, ExpiredBases(files, now, w.limits));
    PendingHaveNoFate(files, w.promoted, w.fates, MalformedBases(files));
  }

  lemma EnteredPreserves(w: World, after: Files)
    requires Inv(w) && OneFileEach(after)
    ensures Preserves(w.promoted, Entered(w.promoted, w.disk.files, after))
  {
    forall base | base in w.promoted
      ensures base in Entered(w.promoted, w.disk.files, after)
      ensures Entered(w.promoted, w.disk.files, after)[base] == w.promoted[base]
    {
      EnteredIs(w.disk.files, after, w.promoted, base);
    }
  }

  lemma FinishPreserves(w: World, base: Base)
    requires Inv(w) && base in w.writers
    ensures Preserves(w.fates, FinishStep(w, base).fates) && Preserves(w.promoted, FinishStep(w, base).promoted)
  {
    PromoteMovesUp(w.disk.files, base);
    if Promote(w.disk.files, base).Ok? {
      var files := Promote(w.disk.files, base).value;
      var entered := Entered(w.promoted, w.disk.files, files);
      EnteredPreserves(w, files);
      MoveUpKeepsBooks(w.disk.files, files, w.promoted, w.fates);
      var moved := w.(disk := w.disk.(files := files), promoted := entered);
      SweepPreserves(moved, files, base.stamp);
      SweepKeepsBooks(moved, files, base.stamp);
      var swept := Sweep(w.disk.(files := files), base.stamp, w.limits).files;
      var fates := SweptFates(w, files, base.stamp);
      EvictedArePending(swept, w.limits);
      PendingHaveNoFate(swept, entered, fates, EvictedBases(swept, w.limits));
      MarkedPreserves(fates, EvictedBases(swept, w.limits), Evicted);
    }
  }

  lemma TakePreserves(w: World, now: u64, tag: nat)
    requires Inv(w)
    ensures TakeStep(w, now, tag).promoted == w.promoted && Preserves(w.fates, TakeStep(w, now, tag).fates)
  {
    if w.limits.WithinHardBounds() {
      TakeIs(w, now, tag);
      SweepPreserves(w, w.disk.files, now);
    }
  }

  lemma CommitPreserves(w: World, tag: nat)
    requires Inv(w) && tag in w.handles
    ensures CommitStep(w, tag).promoted == w.promoted && Preserves(w.fates, CommitStep(w, tag).fates)
  {
    assert InQueue(w.disk.files, Claim(w.handles[tag].base, tag)) ==> w.handles[tag].base in Present(w.disk.files);
  }

  lemma RecoverPreserves(w: World, entries: seq<Name>, spares: seq<Base>)
    requires Inv(w) && Lists(w.disk.files, entries) && |spares| == |entries|
    ensures RecoverStep(w, entries, spares).fates == w.fates
    ensures Preserves(w.promoted, RecoverStep(w, entries, spares).promoted)
  {
    assert forall name :: name in entries ==> name in Elements(entries);
    RecoverMovesUp(w.disk.files, entries, spares);
    EnteredPreserves(w, Recover(w.disk.files, entries, spares).files);
  }

  /** Nothing that entered changes, and a fate is final. */
  lemma StepPreserves(w: World, step: Step)
    requires Inv(w) && Enabled(w, step)
    ensures Preserves(w.promoted, After(w, step).promoted) && Preserves(w.fates, After(w, step).fates)
  {
    match step
    case Finish(base) => FinishPreserves(w, base);
    case Take(now, tag) => TakePreserves(w, now, tag);
    case CommitTaken(tag) => CommitPreserves(w, tag);
    case RecoverAll(entries, spares) => RecoverPreserves(w, entries, spares);
    case _ =>
  }

  lemma {:induction false} RunPreserves(w: World, steps: seq<Step>)
    requires Inv(w) && AllEnabled(w, steps)
    ensures Preserves(w.promoted, Run(w, steps).promoted) && Preserves(w.fates, Run(w, steps).fates)
    decreases |steps|
  {
    if steps != [] {
      StepPreserves(w, steps[0]);
      StepKeepsInv(w, steps[0]);
      RunPreserves(After(w, steps[0]), steps[1..]);
    }
  }

  /** The record has exactly one file, pending or claimed. */
  ghost predicate InExactlyOneFile(files: Files, base: Base, content: Content) {
    exists name :: InQueue(files, name) && name.base == base && files[name] == content
                   && forall other :: other in files && other.base == base ==> other == name
  }

  /**
   Conservation: from any directory with one file per record, after any interleaving, a record that
   ever entered the queue has either left it with one final fate or sits unchanged in exactly one
   file.
   */
  lemma RunConserves(w: World, first: seq<Step>, rest: seq<Step>, base: Base)
    requires Inv(w) && AllEnabled(w, first) && AllEnabled(Run(w, first), rest)
    requires base in Run(w, first).promoted
    ensures var mid, end := Run(w, first), Run(Run(w, first), rest);
            && base in end.promoted && end.promoted[base] == mid.promoted[base]
            && (base in mid.fates ==> base in end.fates && end.fates[base] == mid.fates[base])
            && (base in end.fates <==> forall name :: name in end.disk.files ==> name.base != base)
            && (base !in end.fates <==> InExactlyOneFile(end.disk.files, base, mid.promoted[base]))
  {
    var mid := Run(w, first);
    RunKeepsInv(w, first);
    RunKeepsInv(mid, rest);
    RunPreserves(mid, rest);
    var end := Run(mid, rest);
    if base !in end.fates {
      assert base in Present(end.disk.files);
      var name :| InQueue(end.disk.files, name) && name.base == base;
    } else {
      forall name | name in end.disk.files
        ensures name.base != base
      {
        assert InQueue(end.disk.files, name) ==> name.base in Present(end.disk.files);
      }
    }
  }

  predicate Commits(w: World, tag: nat) {
    tag in w.handles && Claim(w.handles[tag].base, tag) in w.disk.files
  }

  /**
   A commit that succeeds removes the very record its consumer was given, and no other commit of
   that record ever succeeds, even if another process recovered and claimed it again.
   */
  lemma CommittedOnce(w: World, tag: nat, steps: seq<Step>, other: nat)
    requires Inv(w) && Commits(w, tag)
    requires AllEnabled(After(w, CommitTaken(tag)), steps)
    ensures var file := w.disk.files[Claim(w.handles[tag].base, tag)];
            file.Good? && file.record == w.handles[tag].record
    ensures var end := Run(After(w, CommitTaken(tag)), steps);
            Commits(end, other) ==> end.handles[other].base != w.handles[tag].base
  {
    var base := w.handles[tag].base;
    assert InQueue(w.disk.files, Claim(base, tag));
    var next := After(w, CommitTaken(tag));
    StepKeepsInv(w, CommitTaken(tag));
    RunKeepsInv(next, steps);
    RunPreserves(next, steps);
    var end := Run(next, steps);
    assert base in end.fates;
    if Commits(end, other) {
      assert InQueue(end.disk.files, Claim(end.handles[other].base, other));
      assert end.handles[other].base in Present(end.disk.files);
    }
  }

  /**
   An enqueue that reaches the lock fails exactly if a recovery has promoted its record before it and
   the record is no longer pending and readable: claimed by now, gone with a fate, or unreadable.
   */
  lemma FinishFailsExactly(w: World, base: Base)
    requires Inv(w) && base in w.writers
    ensures FinishEnqueue(w.disk, base, w.limits).1.Err?
            <==> base in w.promoted
                 && !(Pending(base) in w.disk.files && w.disk.files[Pending(base)].Good?)
  {
    PromoteMovesUp(w.disk.files, base);
    if Staged(base) in w.disk.files {
      assert base !in w.promoted;
    }
  }

  /**
   What an enqueue that reaches the lock can tell its caller. A failure means that a recovery
   promoted the record first and that it has since been claimed or has left the queue, or that its
   file was found unreadable; the record itself is never lost by it.
   */
  lemma FinishTells(w: World, base: Base)
    requires Inv(w) && base in w.writers
    ensures var after := FinishStep(w, base);
            match FinishEnqueue(w.disk, base, w.limits).1
            case Err(error) =>
              && after == w.(writers := w.writers - {base})
              && base in w.promoted
              && (error == NotFound || error == MalformedRecord)
              && (error == NotFound <==> Pending(base) !in w.disk.files)
            case Ok(outcome) =>
              && base in after.promoted
              && (outcome == Stored <==> Pending(base) in after.disk.files)
              && (outcome == Stored <==> base !in after.fates)
  {
    PromoteMovesUp(w.disk.files, base);
    FinishKeepsInv(w, base);
    var after := FinishStep(w, base);
    match Promote(w.disk.files, base)
    case Err(_) =>
      assert w.disk.files - {Staged(base)} == w.disk.files;
    case Ok(files) =>
      EnteredIs(w.disk.files, files, w.promoted, base);
      assert Pending(base) in files;
      assert InQueue(files, Pending(base));
      assert forall name :: name in after.disk.files ==> name in files;
      assert forall name :: name in after.disk.files && name.base == base ==> name == Pending(base);
      if base !in after.fates {
        assert base in Present(after.disk.files);
      }
      if Pending(base) in after.disk.files {
        assert InQueue(after.disk.files, Pending(base));
      }
  }
}
