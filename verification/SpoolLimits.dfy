/** What enforcing the limits evicts, and when an enqueued record survives it. */
module SpoolLimits {
  import opened Basics
  import opened Ordering
  import opened SessionTypes
  import opened SpoolModel

  // ---- Totals over suffixes ----

  lemma {:induction false} SuffixIsLighter(files: Files, order: seq<Rank>, k: nat)
    requires k <= |order|
    ensures Total(files, order[k..]) <= Total(files, order)
  {
    if k > 0 {
      assert order[k..] == order[1..][k - 1..];
      SuffixIsLighter(files, order[1..], k - 1);
    }
  }

  lemma ExceedsIsMonotone(files: Files, order: seq<Rank>, limits: Limits, k: nat)
    requires k <= |order| && Exceeds(files, order[k..], limits)
    ensures Exceeds(files, order, limits)
  {
    SuffixIsLighter(files, order, k);
  }

  lemma {:induction false} TotalDepends(files: Files, other: Files, order: seq<Rank>)
    requires forall rank :: rank in order ==> SizeAt(files, rank.base) == SizeAt(other, rank.base)
    ensures Total(files, order) == Total(other, order)
  {
    if order != [] {
      TotalDepends(files, other, order[1..]);
    }
  }

  /** Dropping the surplus is enough, and dropping any fewer of the first in order is not. */
  lemma {:induction false} SurplusIsLeast(files: Files, order: seq<Rank>, limits: Limits)
    ensures !Exceeds(files, order[Surplus(files, order, limits)..], limits)
    ensures forall k :: 0 <= k < Surplus(files, order, limits) ==> Exceeds(files, order[k..], limits)
  {
    if Exceeds(files, order, limits) {
      SurplusIsLeast(files, order[1..], limits);
      var n := Surplus(files, order[1..], limits);
      assert order[1..][n..] == order[n + 1..];
      forall k | 0 <= k < n + 1
        ensures Exceeds(files, order[k..], limits)
      {
        if k == 0 {
          assert order[0..] == order;
        } else {
          assert order[k..] == order[1..][k - 1..];
        }
      }
    } else {
      assert order[0..] == order;
    }
  }

  // ---- The queue after an eviction ----

  lemma OrderIsQueued(files: Files, rank: Rank)
    ensures rank in EvictionOrder(Queued(files)) <==> rank in Queued(files)
    ensures rank in ClaimOrder(Queued(files)) <==> rank in Queued(files)
  {
    assert rank in EvictionOrder(Queued(files)) <==> rank in Elements(EvictionOrder(Queued(files)));
    assert rank in ClaimOrder(Queued(files)) <==> rank in Elements(ClaimOrder(Queued(files)));
  }

  lemma SortedSuffix(order: seq<Rank>, n: nat)
    requires n <= |order| && Sorted(order, Weaker)
    ensures Sorted(order[n..], Weaker)
    ensures forall a, b :: a in order[..n] && b in order[n..] ==> Weaker(a, b)
  {
  }

  /** No record after the cut shares its base with one before. */
  lemma KeptBase(files: Files, n: nat, rank: Rank)
    requires n <= |EvictionOrder(Queued(files))| && rank in EvictionOrder(Queued(files))[n..]
    ensures rank.base !in Bases(EvictionOrder(Queued(files))[..n])
  {
    var order := EvictionOrder(Queued(files));
    SortedSuffix(order, n);
    forall gone | gone in order[..n]
      ensures gone.base != rank.base
    {
      OrderIsQueued(files, gone);
      OrderIsQueued(files, rank);
    }
  }

  /** The records still waiting after an eviction are exactly those from the cut on, in the same order. */
  lemma KeptAre(files: Files, n: nat)
    requires n <= |EvictionOrder(Queued(files))|
    ensures var order := EvictionOrder(Queued(files));
            var after := WithoutPending(files, Bases(order[..n]));
            && EvictionOrder(Queued(after)) == order[n..]
            && Total(after, order[n..]) == Total(files, order[n..])
  {
    var order := EvictionOrder(Queued(files));
    var after := WithoutPending(files, Bases(order[..n]));
    SortedSuffix(order, n);
    assert order == order[..n] + order[n..];
    forall rank
      ensures rank in order[n..] <==> rank in Queued(after)
    {
      OrderIsQueued(files, rank);
      if rank in order[n..] {
        KeptBase(files, n, rank);
        assert Pending(rank.base) in after;
      }
      if rank in Queued(after) {
        assert rank in Queued(files);
        assert rank.base !in Bases(order[..n]);
      }
    }
    assert Elements(order[n..]) == Queued(after);
    EvictionOrderUnique(order[n..]);
    forall rank | rank in order[n..]
      ensures SizeAt(files, rank.base) == SizeAt(after, rank.base)
    {
      assert rank in Queued(after);
    }
    TotalDepends(after, files, order[n..]);
  }

  ghost predicate WithinLimits(files: Files, limits: Limits) {
    !Exceeds(files, EvictionOrder(Queued(files)), limits)
  }

  /**
   Eviction leaves the queue within its limits by removing the shortest sufficient run of the
   weakest records: none evicted outranks any kept, and one eviction fewer would not have done.
   */
  lemma EvictionIsShortest(disk: Disk, limits: Limits)
    ensures WithinLimits(Enforce(disk, limits).files, limits)
    ensures var order := EvictionOrder(Queued(disk.files));
            var n := Surplus(disk.files, order, limits);
            && EvictedBases(disk.files, limits) == Bases(order[..n])
            && EvictionOrder(Queued(Enforce(disk, limits).files)) == order[n..]
            && (forall k :: 0 <= k < n ==> Exceeds(disk.files, order[k..], limits))
            && (forall gone, kept :: gone in order[..n] && kept in order[n..] ==> Weaker(gone, kept))
  {
    var order := EvictionOrder(Queued(disk.files));
    var n := Surplus(disk.files, order, limits);
    SurplusIsLeast(disk.files, order, limits);
    KeptAre(disk.files, n);
    SortedSuffix(order, n);
  }

  /**
   A waiting record is evicted exactly if it, together with everything that outranks it, is more
   than the limits allow.
   */
  lemma EvictedExactly(disk: Disk, limits: Limits, i: nat)
    requires i < |EvictionOrder(Queued(disk.files))|
    ensures var order := EvictionOrder(Queued(disk.files));
            order[i].base in EvictedBases(disk.files, limits) <==> Exceeds(disk.files, order[i..], limits)
  {
    var order := EvictionOrder(Queued(disk.files));
    var n := Surplus(disk.files, order, limits);
    SurplusIsLeast(disk.files, order, limits);
    if i < n {
      assert order[i] in order[..n];
    } else {
      assert order[i..] == order[n..][i - n..];
      if Exceeds(disk.files, order[i..], limits) {
        ExceedsIsMonotone(disk.files, order[n..], limits, i - n);
      }
      assert order[i] in order[n..];
      KeptBase(disk.files, n, order[i]);
    }
  }

  // ---- Enqueueing ----

  /** What the queue holds when the limits are enforced on an enqueue. */
  function Contenders(disk: Disk, base: Base, limits: Limits): Files
    requires Promote(disk.files, base).Ok?
  {
    Sweep(disk.(files := Promote(disk.files, base).value), base.stamp, limits).files
  }

  /** After an enqueue that promoted its record, the queue is readable, unexpired and within limits. */
  lemma EnqueueKeepsLimits(disk: Disk, base: Base, limits: Limits)
    requires FinishEnqueue(disk, base, limits).1.Ok?
    ensures var after := FinishEnqueue(disk, base, limits).0.files;
            && WithinLimits(after, limits)
            && (forall name :: name in after && name.Pending? ==>
                  after[name].Good? && !Overdue(after[name].record, base.stamp, limits))
  {
    var promoted := disk.(files := Promote(disk.files, base).value);
    SweepLeavesFreshRecords(promoted, base.stamp, limits);
    EvictionIsShortest(Sweep(promoted, base.stamp, limits), limits);
  }

  lemma SweepLeavesFreshRecords(disk: Disk, now: u64, limits: Limits)
    ensures var after := Sweep(disk, now, limits).files;
            forall name :: name in after ==>
              && name in disk.files && after[name] == disk.files[name]
              && (name.Pending? ==> after[name].Good? && !Overdue(after[name].record, now, limits))
    ensures forall name :: name in disk.files && name !in Sweep(disk, now, limits).files ==>
      IsExpired(disk.files, name, now, limits) || IsMalformed(disk.files, name)
  {
    var after := Sweep(disk, now, limits).files;
    forall name | name in after && name.Pending?
      ensures after[name].Good? && !Overdue(after[name].record, now, limits)
    {
      assert name.base !in ExpiredBases(disk.files, now, limits);
      assert name.base !in MalformedBases(disk.files);
    }
  }

  /**
   The caller of an enqueue is told that its record is stored exactly if the record and everything
   outranking it fit the limits together.
   */
  lemma StoredExactly(disk: Disk, base: Base, limits: Limits, i: nat)
    requires Promote(disk.files, base).Ok?
    requires var order := EvictionOrder(Queued(Contenders(disk, base, limits)));
             i < |order| && order[i].base == base
    ensures var contenders := Contenders(disk, base, limits);
            var better := EvictionOrder(Queued(contenders))[i..];
            FinishEnqueue(disk, base, limits).1
            == Ok(if Exceeds(contenders, better, limits) then DroppedByLimit else Stored)
  {
    var swept := Sweep(disk.(files := Promote(disk.files, base).value), base.stamp, limits);
    EvictedExactly(swept, limits, i);
    OrderIsQueued(swept.files, EvictionOrder(Queued(swept.files))[i]);
  }

  /** A record that was staged and is not overdue does contend. */
  lemma EnqueuedContends(disk: Disk, base: Base, limits: Limits)
    requires Staged(base) in disk.files && Pending(base) !in disk.files
    requires disk.files[Staged(base)].Good? && !Overdue(disk.files[Staged(base)].record, base.stamp, limits)
    ensures Promote(disk.files, base).Ok?
    ensures var order := EvictionOrder(Queued(Contenders(disk, base, limits)));
            exists i :: 0 <= i < |order| && order[i].base == base
  {
    var files := Promote(disk.files, base).value;
    var contenders := Contenders(disk, base, limits);
    assert Pending(base) in files && files[Pending(base)] == disk.files[Staged(base)];
    assert Pending(base) in contenders;
    var rank := RankOf(base, contenders[Pending(base)].record);
    assert rank in Queued(contenders);
    OrderIsQueued(contenders, rank);
  }
}
