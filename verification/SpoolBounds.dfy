/** What expires, what fits and what goes first in the spool, in plain numbers. */
module SpoolBounds {
  import opened Basics
  import opened Ordering
  import opened SessionTypes
  import opened SpoolModel
  import opened SpoolDrain
  import L = SpoolLimits

  // ---- Expiry ----

  predicate IsLate(record: Record, now: u64, limits: Limits) {
    now > record.enqueuedAt + limits.maxAge
  }

  /** The pending files that can be read. */
  function Readable(files: Files): set<Name> {
    set name | name in files && name.Pending? && files[name].Good?
  }

  function Late(files: Files, now: u64, limits: Limits): set<Name> {
    set name | name in files && name.Pending? && files[name].Good? && IsLate(files[name].record, now, limits)
  }

  function Unreadable(files: Files): set<Name> {
    set name | name in files && name.Pending? && files[name].Bad?
  }

  function Raised(counter: u64, n: nat): u64 {
    if counter + n > U64_MAX then U64_MAX else counter + n
  }

  lemma SameSize(names: set<Name>, bases: set<Base>)
    requires forall name :: name in names ==> name.Pending?
    requires forall base :: base in bases <==> Pending(base) in names
    ensures |names| == |bases|
    decreases |names|
  {
    if names != {} {
      var name :| name in names;
      SameSize(names - {name}, bases - {name.base});
    } else {
      assert bases == {};
    }
  }

  /**
   Collecting removes exactly the pending files that cannot be read or whose record is older than the
   greatest age, and raises the two counters by their numbers. Everything else stays as it is.
   */
  lemma CollectedExactly(disk: Disk, now: u64, limits: Limits)
    ensures var after := Sweep(disk, now, limits);
            && after.files.Keys == disk.files.Keys - Late(disk.files, now, limits) - Unreadable(disk.files)
            && (forall name :: name in after.files ==> after.files[name] == disk.files[name])
            && after.metrics.expired == Raised(disk.metrics.expired, |Late(disk.files, now, limits)|)
            && after.metrics.malformed == Raised(disk.metrics.malformed, |Unreadable(disk.files)|)
            && after.metrics.limit == disk.metrics.limit
  {
    SameSize(Late(disk.files, now, limits), ExpiredBases(disk.files, now, limits));
    SameSize(Unreadable(disk.files), MalformedBases(disk.files));
    var after := Sweep(disk, now, limits);
    forall name | name in disk.files
      ensures name in after.files <==> name !in Late(disk.files, now, limits) && name !in Unreadable(disk.files)
    {
      assert IsExpired(disk.files, name, now, limits) <==> name in Late(disk.files, now, limits);
      assert IsMalformed(disk.files, name) <==> name in Unreadable(disk.files);
      if name.Pending? {
        assert name == Pending(name.base);
        assert name.base in ExpiredBases(disk.files, now, limits) <==> name in Late(disk.files, now, limits);
        assert name.base in MalformedBases(disk.files) <==> name in Unreadable(disk.files);
      }
    }
  }

  // ---- Order ----

  /** Of two records equally urgent the one enqueued first, then the one with the smaller name. */
  predicate IsEarlier(a: Base, x: Record, b: Base, y: Record) {
    || x.enqueuedAt < y.enqueuedAt
    || (x.enqueuedAt == y.enqueuedAt
        && (a.stamp < b.stamp || (a.stamp == b.stamp && a.nonce < b.nonce)))
  }

  predicate GoesFirst(a: Base, x: Record, b: Base, y: Record) {
    || MoreUrgent(x.event.kind, y.event.kind)
    || (!MoreUrgent(y.event.kind, x.event.kind) && IsEarlier(a, x, b, y))
  }

  lemma StrongerGoesFirst(a: Base, x: Record, b: Base, y: Record)
    requires Stronger(RankOf(a, x), RankOf(b, y))
    ensures GoesFirst(a, x, b, y)
  {
  }

  lemma WeakerGoesFirst(a: Base, x: Record, b: Base, y: Record)
    requires Weaker(RankOf(a, x), RankOf(b, y))
    ensures || MoreUrgent(y.event.kind, x.event.kind)
            || (!MoreUrgent(x.event.kind, y.event.kind) && IsEarlier(a, x, b, y))
  {
  }

  /**
   A claim hands out a readable record in date, exactly if there is one, under the claim's name; every
   other such record is less urgent, or as urgent and enqueued later.
   */
  lemma ClaimIsFirst(disk: Disk, now: u64, tag: nat, limits: Limits)
    ensures var (after, claimed) := ClaimNext(disk, now, tag, limits);
            && (claimed.Some? <==> Readable(disk.files) - Late(disk.files, now, limits) != {})
            && (claimed.Some? ==>
                  && Pending(claimed.value) in Readable(disk.files) - Late(disk.files, now, limits)
                  && Claim(claimed.value, tag) in after.files
                  && after.files[Claim(claimed.value, tag)] == disk.files[Pending(claimed.value)]
                  && now <= disk.files[Pending(claimed.value)].record.enqueuedAt + limits.maxAge
                  && forall name :: name in Readable(disk.files) - Late(disk.files, now, limits) ==>
                       name.base == claimed.value
                       || GoesFirst(claimed.value, disk.files[Pending(claimed.value)].record,
                                    name.base, disk.files[name].record))
  {
    CollectedExactly(disk, now, limits);
    var swept := Sweep(disk, now, limits);
    var order := ClaimOrder(Queued(swept.files));
    forall name | name in Readable(disk.files) - Late(disk.files, now, limits)
      ensures name in swept.files && RankOf(name.base, disk.files[name].record) in order
    {
      L.OrderIsQueued(swept.files, RankOf(name.base, disk.files[name].record));
    }
    if order != [] {
      L.OrderIsQueued(swept.files, order[0]);
      forall name | name in Readable(disk.files) - Late(disk.files, now, limits) && name.base != order[0].base
        ensures GoesFirst(order[0].base, disk.files[Pending(order[0].base)].record, name.base, disk.files[name].record)
      {
        var rank := RankOf(name.base, disk.files[name].record);
        var i :| 0 <= i < |order| && order[i] == rank;
        StrongerGoesFirst(order[0].base, disk.files[Pending(order[0].base)].record,
                          name.base, disk.files[name].record);
      }
    }
  }

  // ---- Limits ----

  function SizeOf(files: Files, name: Name): nat {
    if name in files && files[name].Good? then files[name].size else 0
  }

  ghost function Bytes(files: Files, names: set<Name>): nat {
    if names == {} then 0
    else
      var name :| name in names;
      SizeOf(files, name) + Bytes(files, names - {name})
  }

  lemma {:induction false} BytesWithout(files: Files, names: set<Name>, name: Name)
    requires name in names
    ensures Bytes(files, names) == SizeOf(files, name) + Bytes(files, names - {name})
    decreases names
  {
    var picked :| picked in names && Bytes(files, names) == SizeOf(files, picked) + Bytes(files, names - {picked});
    if picked != name {
      BytesWithout(files, names - {picked}, name);
      BytesWithout(files, names - {name}, picked);
      assert names - {picked} - {name} == names - {name} - {picked};
    }
  }

  lemma {:induction false} BytesDepend(files: Files, other: Files, names: set<Name>)
    requires forall name :: name in names ==> SizeOf(files, name) == SizeOf(other, name)
    ensures Bytes(files, names) == Bytes(other, names)
    decreases names
  {
    if names != {} {
      var name :| name in names;
      BytesWithout(files, names, name);
      BytesWithout(other, names, name);
      BytesDepend(files, other, names - {name});
    }
  }

  /** The readable pending files, their number and their bytes are within the limits. */
  ghost predicate Fits(files: Files, names: set<Name>, limits: Limits) {
    |names| <= limits.maxCount && Bytes(files, names) <= limits.maxBytes
  }

  ghost function NamesOf(order: seq<Rank>): set<Name> {
    set rank | rank in order :: Pending(rank.base)
  }

  /** Ranks of different files. */
  ghost predicate Apart(order: seq<Rank>) {
    forall i, j :: 0 <= i < j < |order| ==> order[i].base != order[j].base
  }

  lemma FirstName(order: seq<Rank>)
    requires order != [] && Apart(order)
    ensures Apart(order[1..])
    ensures Pending(order[0].base) in NamesOf(order)
    ensures NamesOf(order[1..]) == NamesOf(order) - {Pending(order[0].base)}
  {
    assert order == [order[0]] + order[1..];
    assert forall i :: 0 <= i < |order[1..]| ==> order[1..][i] == order[i + 1];
  }

  lemma NamesFrom(order: seq<Rank>, i: nat)
    requires i < |order| && Apart(order)
    ensures Apart(order[i..]) && NamesOf(order[i..]) == NamesOf(order[i + 1..]) + {Pending(order[i].base)}
  {
    assert order[i..] == [order[i]] + order[i + 1..];
  }

  lemma {:induction false} TotalIsBytes(files: Files, order: seq<Rank>)
    requires Apart(order)
    ensures Total(files, order) == Bytes(files, NamesOf(order)) && |order| == |NamesOf(order)|
  {
    if order != [] {
      var name := Pending(order[0].base);
      FirstName(order);
      TotalIsBytes(files, order[1..]);
      BytesWithout(files, NamesOf(order), name);
    } else {
      assert NamesOf(order) == {};
    }
  }

  lemma QueueIsReadable(files: Files)
    ensures Apart(EvictionOrder(Queued(files))) && NamesOf(EvictionOrder(Queued(files))) == Readable(files)
  {
    var order := EvictionOrder(Queued(files));
    forall i, j | 0 <= i < j < |order|
      ensures order[i].base != order[j].base
    {
      L.OrderIsQueued(files, order[i]);
      L.OrderIsQueued(files, order[j]);
      assert Weaker(order[i], order[j]);
    }
    forall name
      ensures name in NamesOf(order) <==> name in Readable(files)
    {
      if name in Readable(files) {
        L.OrderIsQueued(files, RankOf(name.base, files[name].record));
      }
      if name in NamesOf(order) {
        var rank :| rank in order && Pending(rank.base) == name;
        L.OrderIsQueued(files, rank);
      }
    }
  }

  lemma ExceedsMeans(files: Files, order: seq<Rank>, limits: Limits)
    requires Apart(order)
    ensures Exceeds(files, order, limits) <==> !Fits(files, NamesOf(order), limits)
  {
    TotalIsBytes(files, order);
  }

  /** After the limits are enforced the queue is within them; nothing but records of it went, each counted. */
  lemma EnforcedFits(disk: Disk, limits: Limits)
    ensures var before, after := disk.files, Enforce(disk, limits).files;
            && Fits(after, Readable(after), limits)
            && (forall name :: name in after ==> name in before && after[name] == before[name])
            && before.Keys - after.Keys <= Readable(before)
            && Enforce(disk, limits).metrics
               == disk.metrics.(limit := Raised(disk.metrics.limit, |before.Keys - after.Keys|))
  {
    var before, after := disk.files, Enforce(disk, limits).files;
    L.EvictionIsShortest(disk, limits);
    var order := EvictionOrder(Queued(after));
    QueueIsReadable(after);
    ExceedsMeans(after, order, limits);
    forall name | name in before && name !in after
      ensures name in Readable(before)
    {
      var gone :| gone in EvictionOrder(Queued(before)) && gone.base == name.base;
      L.OrderIsQueued(before, gone);
    }
    forall base
      ensures base in EvictedBases(before, limits) <==> Pending(base) in before.Keys - after.Keys
    {
      if base in EvictedBases(before, limits) {
        var gone :| gone in EvictionOrder(Queued(before)) && gone.base == base;
        L.OrderIsQueued(before, gone);
      }
    }
    SameSize(before.Keys - after.Keys, EvictedBases(before, limits));
  }

  /** After an enqueue that promoted its record the queue is within the limits, readable and in date. */
  lemma EnqueueFits(disk: Disk, base: Base, limits: Limits)
    requires FinishEnqueue(disk, base, limits).1.Ok?
    ensures var after := FinishEnqueue(disk, base, limits).0.files;
            && Fits(after, Readable(after), limits)
            && Late(after, base.stamp, limits) == {} && Unreadable(after) == {}
  {
    var promoted := disk.(files := Promote(disk.files, base).value);
    CollectedExactly(promoted, base.stamp, limits);
    EnforcedFits(Sweep(promoted, base.stamp, limits), limits);
  }

  /** A queue within the limits loses nothing. */
  lemma FittingStays(disk: Disk, limits: Limits)
    requires Fits(disk.files, Readable(disk.files), limits)
    ensures Enforce(disk, limits) == disk
  {
    var order := EvictionOrder(Queued(disk.files));
    QueueIsReadable(disk.files);
    ExceedsMeans(disk.files, order, limits);
    assert order[..0] == [];
    assert EvictedBases(disk.files, limits) == {};
  }

  /** Whatever goes is less urgent than what is kept, or as urgent and enqueued earlier. */
  lemma GoneGoesBeforeKept(disk: Disk, limits: Limits, gone: Name, kept: Name)
    requires gone in disk.files && gone !in Enforce(disk, limits).files
    requires kept in Readable(Enforce(disk, limits).files)
    ensures gone in Readable(disk.files) && kept in Readable(disk.files)
    ensures var x, y := disk.files[gone].record, disk.files[kept].record;
            || MoreUrgent(y.event.kind, x.event.kind)
            || (!MoreUrgent(x.event.kind, y.event.kind) && IsEarlier(gone.base, x, kept.base, y))
  {
    var after := Enforce(disk, limits).files;
    EnforcedFits(disk, limits);
    L.EvictionIsShortest(disk, limits);
    var order := EvictionOrder(Queued(disk.files));
    var n := Surplus(disk.files, order, limits);
    var g :| g in order[..n] && g.base == gone.base;
    L.OrderIsQueued(disk.files, g);
    var k := RankOf(kept.base, after[kept].record);
    L.OrderIsQueued(after, k);
    assert Weaker(g, k);
    WeakerGoesFirst(gone.base, disk.files[gone].record, kept.base, disk.files[kept].record);
  }

  /** Nothing goes that could stay: the last to go did not fit beside what is kept. */
  lemma LastGoneDidNotFit(disk: Disk, limits: Limits)
    requires Enforce(disk, limits).files != disk.files
    ensures exists last :: last in Readable(disk.files) && last !in Enforce(disk, limits).files
                           && !Fits(disk.files, Readable(Enforce(disk, limits).files) + {last}, limits)
  {
    var order := EvictionOrder(Queued(disk.files));
    var after := Enforce(disk, limits).files;
    var n := Surplus(disk.files, order, limits);
    L.EvictionIsShortest(disk, limits);
    QueueIsReadable(disk.files);
    QueueIsReadable(after);
    assert order[..0] == [];
    assert n > 0;
    var last := Pending(order[n - 1].base);
    NamesFrom(order, n - 1);
    ExceedsMeans(disk.files, order[n - 1..], limits);
    L.OrderIsQueued(disk.files, order[n - 1]);
    assert order[n - 1] in order[..n];
    assert order[n - 1].base in Bases(order[..n]);
  }

  // ---- Entering and coming back ----

  /** A record is written exactly within these bounds; the failure of an earlier check hides later ones. */
  lemma StagedExactly(limits: Limits, event: Event, size: nat)
    ensures var bounded := && 1 <= limits.maxCount <= 256 && 1 <= limits.maxBytes <= 4_194_304
                           && 1 <= limits.maxAge <= 86_400_000;
            var whole := event.turn.Some? || event.kind == SessionStarted || event.kind == SessionEnded;
            && (Admissible(limits, event, size) == None <==> bounded && whole && size <= 65_536)
            && (Admissible(limits, event, size) == Some(InvalidLimits) <==> !bounded)
            && (Admissible(limits, event, size) == Some(InvalidEvent) <==> bounded && !whole)
            && (Admissible(limits, event, size) == Some(RecordTooLarge) <==> bounded && whole && size > 65_536)
  {
  }

  /** A record given back is pending again, under its own name if that is free, and nothing else moves. */
  lemma ReleasedIsPending(files: Files, base: Base, tag: nat, spare: Base)
    requires Claim(base, tag) in files && Pending(spare) !in files
    ensures var after := Release(files, base, tag, spare);
            var back := if Pending(base) in files then Pending(spare) else Pending(base);
            && after.Keys == files.Keys - {Claim(base, tag)} + {back}
            && after[back] == files[Claim(base, tag)]
            && forall name :: name in after && name != back ==> after[name] == files[name]
  {
  }

  /** So a record given back in time is handed out again, unless another one goes first. */
  lemma ReleasedGoesOn(disk: Disk, base: Base, tag: nat, spare: Base, now: u64, again: nat, limits: Limits)
    requires Claim(base, tag) in disk.files && disk.files[Claim(base, tag)].Good? && Pending(spare) !in disk.files
    requires !IsLate(disk.files[Claim(base, tag)].record, now, limits)
    ensures var released := disk.(files := Release(disk.files, base, tag, spare));
            var back := if Pending(base) in disk.files then spare else base;
            var claimed := ClaimNext(released, now, again, limits).1;
            && claimed.Some?
            && (claimed.value == back
                || (&& Pending(claimed.value) in Readable(disk.files)
                    && GoesFirst(claimed.value, disk.files[Pending(claimed.value)].record,
                                 back, disk.files[Claim(base, tag)].record)))
  {
    ReleasedIsPending(disk.files, base, tag, spare);
    var released := disk.(files := Release(disk.files, base, tag, spare));
    ClaimIsFirst(released, now, again, limits);
    var back := if Pending(base) in disk.files then spare else base;
    assert Pending(back) in Readable(released.files) - Late(released.files, now, limits);
  }
}
