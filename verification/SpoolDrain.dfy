/** What recovery brings back, and the order in which repeated claims deliver it. */
module SpoolDrain {
  import opened Basics
  import opened SessionTypes
  import opened SpoolModel
  import C = SpoolConservation
  import L = SpoolLimits
  import S = SpoolSafety

  // ---- Recovery ----

  /** Every file under its pending name. */
  ghost function AllPending(files: Files): Files
    requires C.OneFileEach(files)
  {
    map name | name in files :: Pending(name.base) := files[name]
  }

  ghost function Stuck(entries: seq<Name>): set<Name> {
    set name | name in entries && !name.Pending?
  }

  lemma {:induction false} RecoverCounts(files: Files, entries: seq<Name>, spares: seq<Base>)
    requires |entries| == |spares| && Distinct(entries) && forall name :: name in entries ==> name in files
    requires Recover(files, entries, spares).ok
    ensures Recover(files, entries, spares).recovered == |Stuck(entries)|
    decreases |entries|
  {
    if entries != [] {
      var name, rest := entries[0], entries[1..];
      assert entries == [name] + rest;
      if name.Pending? {
        RecoverCounts(files, rest, spares[1..]);
        assert Stuck(entries) == Stuck(rest);
      } else {
        RecoverCounts(RecoverOne(files, name, spares[0]), rest, spares[1..]);
        assert name !in rest;
        assert Stuck(entries) == Stuck(rest) + {name};
      }
    } else {
      assert Stuck(entries) == {};
    }
  }

  /**
   Recovery succeeds exactly when every staged and claimed file is readable. It then makes all of
   them pending, whatever the order in which the directory lists them, and counts them.
   */
  lemma RecoverExactly(files: Files, entries: seq<Name>, spares: seq<Base>)
    requires C.OneFileEach(files) && C.Lists(files, entries) && |spares| == |entries|
    ensures forall name :: name in entries ==> name in files
    ensures var r := Recover(files, entries, spares);
            && (r.ok <==> forall name :: name in files && !name.Pending? ==> files[name].Good?)
            && (r.ok ==> r.files == AllPending(files) && r.recovered == |Stuck(entries)|)
  {
    forall name
      ensures name in entries <==> name in files
    {
      assert name in entries <==> name in Elements(entries);
    }
    var r := Recover(files, entries, spares);
    S.RecoverMovesUp(files, entries, spares);
    if r.ok {
      RecoverCounts(files, entries, spares);
      MovedUpIsAllPending(files, r.files);
    }
  }

  lemma MovedUpIsAllPending(files: Files, after: Files)
    requires C.OneFileEach(files) && S.MovedUp(files, after)
    requires forall name :: name in files && !name.Pending? ==> name !in after
    ensures after == AllPending(files)
  {
    var all := AllPending(files);
    forall name
      ensures name in after <==> name in all
      ensures name in after ==> after[name] == all[name]
    {
      if name in after {
        if name !in files {
          var from :| S.MovesTo(files, after, from) && from.base == name.base;
        }
      }
      if name in all {
        var from :| from in files && Pending(from.base) == name;
        assert from in after || S.MovesTo(files, after, from);
      }
    }
  }

  // ---- Draining ----

  /** The records that are neither unreadable nor overdue. */
  function Deliverable(files: Files, now: u64, limits: Limits): set<Rank> {
    set name | name in files && name.Pending? && files[name].Good? && !Overdue(files[name].record, now, limits)
             :: RankOf(name.base, files[name].record)
  }

  lemma SweptAreDeliverable(disk: Disk, now: u64, limits: Limits)
    ensures Queued(Sweep(disk, now, limits).files) == Deliverable(disk.files, now, limits)
  {
    var after := Sweep(disk, now, limits).files;
    L.SweepLeavesFreshRecords(disk, now, limits);
    forall rank | rank in Deliverable(disk.files, now, limits)
      ensures rank in Queued(after)
    {
      assert !IsExpired(disk.files, Pending(rank.base), now, limits) && !IsMalformed(disk.files, Pending(rank.base));
      assert Pending(rank.base) in after;
    }
  }

  /** One claim and its commit. */
  ghost function Round(disk: Disk, now: u64, tag: nat, limits: Limits): (Disk, Option<Record>) {
    var (claimed, base) := ClaimNext(disk, now, tag, limits);
    if base.None? then (claimed, None)
    else
      C.ClaimedIsThere(disk, now, tag, limits);
      (claimed.(files := Commit(claimed.files, base.value, tag).0),
       Some(claimed.files[Claim(base.value, tag)].record))
  }

  /** Claim and commit until nothing is left; the claims are numbered from `tag` on. */
  ghost function Drain(disk: Disk, now: u64, tag: nat, limits: Limits): (Disk, seq<Record>)
    decreases |Deliverable(disk.files, now, limits)|
  {
    var (left, record) := Round(disk, now, tag, limits);
    if record.None? then (left, [])
    else
      RoundDelivers(disk, now, tag, limits);
      var (last, records) := Drain(left, now, tag + 1, limits);
      (last, [record.value] + records)
  }

  /** A round delivers the first in order of the deliverable records and leaves the others. */
  lemma RoundDelivers(disk: Disk, now: u64, tag: nat, limits: Limits)
    ensures var (left, record) := Round(disk, now, tag, limits);
            var ranks := Deliverable(disk.files, now, limits);
            var order := ClaimOrder(ranks);
            && (record.None? <==> order == [])
            && (record.Some? ==>
                  && Pending(order[0].base) in disk.files
                  && disk.files[Pending(order[0].base)] == Good(record.value, SizeAt(disk.files, order[0].base))
                  && Deliverable(left.files, now, limits) == ranks - {order[0]}
                  && |Deliverable(left.files, now, limits)| < |ranks|)
  {
    var swept := Sweep(disk, now, limits);
    SweptAreDeliverable(disk, now, limits);
    L.SweepLeavesFreshRecords(disk, now, limits);
    var order := ClaimOrder(Queued(swept.files));
    if order != [] {
      L.OrderIsQueued(swept.files, order[0]);
      var base := order[0].base;
      var left := Commit(Renamed(swept.files, Pending(base), Claim(base, tag)), base, tag).0;
      forall rank
        ensures rank in Deliverable(left, now, limits) <==> rank in Queued(swept.files) && rank != order[0]
      {
        assert Pending(rank.base) in left <==> Pending(rank.base) in swept.files && rank.base != base;
      }
      assert Deliverable(left, now, limits) == Deliverable(disk.files, now, limits) - {order[0]};
    }
  }

  lemma OrderTail(ranks: set<Rank>)
    requires ClaimOrder(ranks) != []
    ensures ClaimOrder(ranks - {ClaimOrder(ranks)[0]}) == ClaimOrder(ranks)[1..]
  {
    var order := ClaimOrder(ranks);
    forall rank
      ensures rank in Elements(order[1..]) <==> rank in ranks && rank != order[0]
    {
      assert rank in ranks <==> rank in Elements(order);
      assert order == [order[0]] + order[1..];
      if rank in order[1..] {
        assert Stronger(order[0], rank);
      }
    }
    assert Elements(order[1..]) == ranks - {order[0]};
    ClaimOrderUnique(order[1..]);
  }

  /** A round leaves a part of the directory, and outside the queue all of it. */
  lemma RoundLeaves(disk: Disk, now: u64, tag: nat, limits: Limits)
    requires C.OneFileEach(disk.files)
    ensures var (left, record) := Round(disk, now, tag, limits);
            && C.OneFileEach(left.files)
            && (forall name :: name in left.files ==> name in disk.files && left.files[name] == disk.files[name])
            && (forall name :: name in disk.files && !name.Pending? ==> name in left.files)
            && (record.None? ==> forall name :: name in left.files ==> !name.Pending?)
  {
    var swept := Sweep(disk, now, limits);
    L.SweepLeavesFreshRecords(disk, now, limits);
    var order := ClaimOrder(Queued(swept.files));
    if order != [] {
      L.OrderIsQueued(swept.files, order[0]);
    } else {
      forall name | name in swept.files
        ensures !name.Pending?
      {
        if name.Pending? {
          L.OrderIsQueued(swept.files, RankOf(name.base, swept.files[name].record));
        }
      }
    }
  }

  predicate Delivers(files: Files, order: seq<Rank>, records: seq<Record>) {
    && |records| == |order|
    && forall i :: 0 <= i < |order| ==>
         && Pending(order[i].base) in files
         && files[Pending(order[i].base)] == Good(records[i], SizeAt(files, order[i].base))
  }

  lemma DeliversMore(files: Files, left: Files, order: seq<Rank>, record: Record, records: seq<Record>)
    requires order != [] && Delivers(left, order[1..], records)
    requires forall name :: name in left ==> name in files && left[name] == files[name]
    requires Pending(order[0].base) in files
    requires files[Pending(order[0].base)] == Good(record, SizeAt(files, order[0].base))
    ensures Delivers(files, order, [record] + records)
  {
    forall i | 1 <= i < |order|
      ensures Pending(order[i].base) in files
      ensures files[Pending(order[i].base)] == Good(records[i - 1], SizeAt(files, order[i].base))
    {
      assert order[i] == order[1..][i - 1];
    }
  }

  /**
   Claiming and committing until nothing is left delivers every readable record that is not overdue
   exactly once, the highest priority first, then the earliest, then by file name.
   */
  lemma {:induction false} DrainDelivers(disk: Disk, now: u64, tag: nat, limits: Limits)
    requires C.OneFileEach(disk.files)
    ensures Delivers(disk.files, ClaimOrder(Deliverable(disk.files, now, limits)), Drain(disk, now, tag, limits).1)
    decreases |Deliverable(disk.files, now, limits)|
  {
    var (left, record) := Round(disk, now, tag, limits);
    var ranks := Deliverable(disk.files, now, limits);
    RoundDelivers(disk, now, tag, limits);
    if record.Some? {
      RoundLeaves(disk, now, tag, limits);
      OrderTail(ranks);
      DrainDelivers(left, now, tag + 1, limits);
      DeliversMore(disk.files, left.files, ClaimOrder(ranks), record.value, Drain(left, now, tag + 1, limits).1);
    }
  }

  /** Then the queue is empty, and staged files and the claims of others are as they were. */
  lemma {:induction false} DrainEmpties(disk: Disk, now: u64, tag: nat, limits: Limits)
    requires C.OneFileEach(disk.files)
    ensures var last := Drain(disk, now, tag, limits).0;
            forall name ::
              if name in disk.files && !name.Pending?
              then name in last.files && last.files[name] == disk.files[name]
              else name !in last.files
    decreases |Deliverable(disk.files, now, limits)|
  {
    var (left, record) := Round(disk, now, tag, limits);
    RoundDelivers(disk, now, tag, limits);
    RoundLeaves(disk, now, tag, limits);
    if record.Some? {
      DrainEmpties(left, now, tag + 1, limits);
    }
  }

  /** After a crash of everyone, a recovery and a drain deliver every record still in the directory. */
  lemma RecoverThenDrain(
    disk: Disk, entries: seq<Name>, spares: seq<Base>, now: u64, tag: nat, limits: Limits, name: Name)
    requires C.OneFileEach(disk.files) && C.Lists(disk.files, entries) && |spares| == |entries|
    requires forall other :: other in disk.files ==> disk.files[other].Good?
    requires name in disk.files && !Overdue(disk.files[name].record, now, limits)
    ensures forall other :: other in entries ==> other in disk.files
    ensures var recovered := disk.(files := Recover(disk.files, entries, spares).files);
            disk.files[name].record in Drain(recovered, now, tag, limits).1
  {
    RecoverExactly(disk.files, entries, spares);
    var recovered := disk.(files := Recover(disk.files, entries, spares).files);
    assert recovered.files == AllPending(disk.files);
    assert Pending(name.base) in recovered.files;
    assert forall pending :: pending in recovered.files ==> pending.Pending?;
    DrainDelivers(recovered, now, tag, limits);
    var rank := RankOf(name.base, disk.files[name].record);
    assert rank in Deliverable(recovered.files, now, limits);
    DeliversRank(recovered.files, Deliverable(recovered.files, now, limits),
                 Drain(recovered, now, tag, limits).1, rank);
  }

  lemma DeliversRank(files: Files, ranks: set<Rank>, records: seq<Record>, rank: Rank)
    requires Delivers(files, ClaimOrder(ranks), records) && rank in ranks
    ensures Pending(rank.base) in files && files[Pending(rank.base)].Good?
    ensures files[Pending(rank.base)].record in records
  {
    var order := ClaimOrder(ranks);
    assert rank in Elements(order);
    var i :| 0 <= i < |order| && order[i] == rank;
    assert records[i] == files[Pending(rank.base)].record;
  }

  // ---- Urgency ----

  /** Questions before failures, failures before news of activity, and these before what is over. */
  predicate MoreUrgent(a: EventKind, b: EventKind) {
    || (a.AttentionRequired? && !b.AttentionRequired?)
    || (a.TurnFailed? && !b.AttentionRequired? && !b.TurnFailed?)
    || (!a.TurnCompleted? && !a.SessionEnded? && (b.TurnCompleted? || b.SessionEnded?))
  }

  lemma UrgencyRanks(a: Base, x: Record, b: Base, y: Record)
    requires MoreUrgent(x.event.kind, y.event.kind)
    ensures Stronger(RankOf(a, x), RankOf(b, y)) && Weaker(RankOf(b, y), RankOf(a, x))
  {
  }

  /** No deliverable record is more urgent than the one claimed next. */
  lemma ClaimIsMostUrgent(disk: Disk, now: u64, tag: nat, limits: Limits, name: Name)
    requires name in disk.files && name.Pending? && disk.files[name].Good?
    requires !Overdue(disk.files[name].record, now, limits)
    ensures var record := Round(disk, now, tag, limits).1;
            record.Some? && !MoreUrgent(disk.files[name].record.event.kind, record.value.event.kind)
  {
    RoundDelivers(disk, now, tag, limits);
    var order := ClaimOrder(Deliverable(disk.files, now, limits));
    var rank := RankOf(name.base, disk.files[name].record);
    assert rank in Deliverable(disk.files, now, limits);
    assert rank in Elements(order);
    var i :| 0 <= i < |order| && order[i] == rank;
    var first := Round(disk, now, tag, limits).1.value;
    FirstIs(disk.files, now, limits);
    if MoreUrgent(disk.files[name].record.event.kind, first.event.kind) {
      UrgencyRanks(name.base, disk.files[name].record, order[0].base, first);
    }
  }

  lemma FirstIs(files: Files, now: u64, limits: Limits)
    requires ClaimOrder(Deliverable(files, now, limits)) != []
    ensures var first := ClaimOrder(Deliverable(files, now, limits))[0];
            Pending(first.base) in files && files[Pending(first.base)].Good?
            && first == RankOf(first.base, files[Pending(first.base)].record)
  {
    var order := ClaimOrder(Deliverable(files, now, limits));
    assert order[0] in Elements(order);
  }

  /** Eviction never takes a record and keeps a less urgent one. */
  lemma EvictionSparesUrgent(disk: Disk, limits: Limits, gone: Base, kept: Base)
    requires gone in EvictedBases(disk.files, limits)
    requires Pending(kept) in Enforce(disk, limits).files && Enforce(disk, limits).files[Pending(kept)].Good?
    ensures Pending(gone) in disk.files && disk.files[Pending(gone)].Good?
    ensures !MoreUrgent(disk.files[Pending(gone)].record.event.kind,
                        Enforce(disk, limits).files[Pending(kept)].record.event.kind)
  {
    L.EvictionIsShortest(disk, limits);
    var order := EvictionOrder(Queued(disk.files));
    var n := Surplus(disk.files, order, limits);
    var after := Enforce(disk, limits).files;
    var g :| g in order[..n] && g.base == gone;
    L.OrderIsQueued(disk.files, g);
    var k := RankOf(kept, after[Pending(kept)].record);
    assert k in Queued(after);
    L.OrderIsQueued(after, k);
    assert Weaker(g, k);
    if MoreUrgent(disk.files[Pending(gone)].record.event.kind, after[Pending(kept)].record.event.kind) {
      UrgencyRanks(gone, disk.files[Pending(gone)].record, kept, after[Pending(kept)].record);
    }
  }
}
