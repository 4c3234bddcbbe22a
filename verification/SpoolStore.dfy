/** The spool as a program over a directory; each method is one holding of the directory lock. */
module SpoolStore {
  import opened Basics
  import opened Ordering
  import opened SessionTypes
  import opened SpoolModel
  import L = SpoolLimits

  class SpoolStore {
    const limits: Limits
    var files: Files
    var metrics: Metrics

    function Contents(): Disk
      reads this
    {
      Disk(files, metrics)
    }

    constructor (disk: Disk, limits: Limits)
      ensures Contents() == disk && this.limits == limits
    {
      this.limits := limits;
      files := disk.files;
      metrics := disk.metrics;
    }

    // ---- Enqueueing ----

    /** Write the record under its staged name; this needs no lock. */
    method Stage(base: Base, event: Event, size: nat) returns (error: Option<SpoolError>)
      modifies this
      ensures error == Admissible(limits, event, size)
      ensures metrics == old(metrics)
      ensures files == if error.None? then old(files)[Staged(base) := Good(Record(base.stamp, event), size)]
                       else old(files)
    {
      if !limits.WithinHardBounds() {
        return Some(InvalidLimits);
      }
      if !event.Valid() {
        return Some(InvalidEvent);
      }
      if size > MAX_RECORD_BYTES {
        return Some(RecordTooLarge);
      }
      files := files[Staged(base) := Good(Record(base.stamp, event), size)];
      error := None;
    }

    method FinishEnqueue(base: Base) returns (result: Result<EnqueueOutcome, SpoolError>)
      modifies this
      ensures (Contents(), result) == SpoolModel.FinishEnqueue(old(Contents()), base, limits)
    {
      if Staged(base) in files {
        if Pending(base) in files {
          files := files - {Staged(base)};
          return Err(UnsafePath);
        }
        files := (files - {Staged(base)})[Pending(base) := files[Staged(base)]];
      } else if Pending(base) !in files {
        assert files - {Staged(base)} == files;
        return Err(NotFound);
      } else if files[Pending(base)].Bad? {
        assert files - {Staged(base)} == files;
        return Err(MalformedRecord);
      }
      var candidates := CollectPending(base.stamp);
      L.SweepLeavesFreshRecords(old(Contents()).(files := Promote(old(files), base).value), base.stamp, limits);
      var retained := EnforceLimits(candidates);
      var stored := Retains(retained, base);
      result := Ok(if stored then Stored else DroppedByLimit);
    }

    method Retains(retained: seq<Rank>, base: Base) returns (stored: bool)
      requires Elements(retained) == Queued(files)
      requires Pending(base) in files ==> files[Pending(base)].Good?
      ensures stored <==> Pending(base) in files
    {
      stored := false;
      for i := 0 to |retained|
        invariant stored <==> exists j :: 0 <= j < i && retained[j].base == base
      {
        if retained[i].base == base {
          stored := true;
        }
      }
      if Pending(base) in files {
        var rank := RankOf(base, files[Pending(base)].record);
        assert rank in Queued(files);
        assert rank in Elements(retained);
      }
      if stored {
        var j :| 0 <= j < |retained| && retained[j].base == base;
        assert retained[j] in Elements(retained);
      }
    }

    /** The rank is that of a pending file that stays. */
    ghost predicate Stays(before: Files, rank: Rank, now: u64) {
      && Pending(rank.base) in before && before[Pending(rank.base)].Good?
      && !Overdue(before[Pending(rank.base)].record, now, limits)
      && rank == RankOf(rank.base, before[Pending(rank.base)].record)
    }

    static ghost function Visited(before: Files, entries: set<Name>): Files {
      map name | name in before && name !in entries :: before[name]
    }

    /** The directory when everything but `entries` has been read. */
    ghost predicate Collected(before: Disk, now: u64, entries: set<Name>, after: Disk) {
      var visited := Visited(before.files, entries);
      entries <= before.files.Keys
      && Dropped(before, ExpiredBases(visited, now, limits), MalformedBases(visited), after)
    }

    ghost predicate Lists(before: Files, now: u64, entries: set<Name>, candidates: seq<Rank>) {
      && Distinct(candidates)
      && forall rank :: rank in candidates <==> (Stays(before, rank, now) && Pending(rank.base) !in entries)
    }

    /** What reading one file does to the directory. */
    ghost function OneLess(disk: Disk, name: Name, now: u64): Disk {
      var expired, malformed := IsExpired(disk.files, name, now, limits), IsMalformed(disk.files, name);
      Disk(if expired || malformed then disk.files - {name} else disk.files,
           disk.metrics.(expired := Counted(disk.metrics.expired, if expired then 1 else 0),
                         malformed := Counted(disk.metrics.malformed, if malformed then 1 else 0)))
    }

    lemma VisitOne(before: Files, now: u64, entries: set<Name>, name: Name)
      requires name in entries && name in before
      ensures var was, visited := Visited(before, entries), Visited(before, entries - {name});
              && visited == was[name := before[name]] && name !in was
              && ExpiredBases(visited, now, limits) ==
                 ExpiredBases(was, now, limits) + (if IsExpired(before, name, now, limits) then {name.base} else {})
              && MalformedBases(visited) ==
                 MalformedBases(was) + (if IsMalformed(before, name) then {name.base} else {})
              && (name.Pending? ==> name.base !in ExpiredBases(was, now, limits) && name.base !in MalformedBases(was))
    {
    }

    static lemma DropOne(files: Files, gone: set<Base>, name: Name)
      requires name in files && (name.Pending? ==> name.base !in gone)
      ensures name in WithoutPending(files, gone) && WithoutPending(files, gone)[name] == files[name]
      ensures name.Pending? ==> WithoutPending(files, gone + {name.base}) == WithoutPending(files, gone) - {name}
    {
    }

    ghost predicate Dropped(before: Disk, expired: set<Base>, malformed: set<Base>, after: Disk) {
      && after.files == WithoutPending(before.files, expired + malformed)
      && after.metrics == before.metrics.(expired := Counted(before.metrics.expired, |expired|),
                                          malformed := Counted(before.metrics.malformed, |malformed|))
    }

    lemma DropMore(
      before: Disk, expired: set<Base>, malformed: set<Base>, after: Disk, name: Name, late: bool, bad: bool)
      requires Dropped(before, expired, malformed, after) && name in before.files && !(late && bad)
      requires name.Pending? ==> name.base !in expired && name.base !in malformed
      requires late || bad ==> name.Pending?
      ensures name in after.files && after.files[name] == before.files[name]
      ensures Dropped(before,
                      expired + (if late then {name.base} else {}),
                      malformed + (if bad then {name.base} else {}),
                      Disk(if late || bad then after.files - {name} else after.files,
                           after.metrics.(expired := Counted(after.metrics.expired, if late then 1 else 0),
                                          malformed := Counted(after.metrics.malformed, if bad then 1 else 0))))
    {
      DropOne(before.files, expired + malformed, name);
      UnionMore(expired, malformed, name.base);
    }

    static lemma UnionMore(a: set<Base>, b: set<Base>, base: Base)
      ensures a + {} == a && b + {} == b
      ensures (a + {base}) + b == (a + b) + {base} && a + (b + {base}) == (a + b) + {base}
      ensures base !in a ==> |a + {base}| == |a| + 1
      ensures base !in b ==> |b + {base}| == |b| + 1
    {
    }

    lemma CollectMore(before: Disk, now: u64, entries: set<Name>, name: Name, after: Disk)
      requires Collected(before, now, entries, after) && name in entries
      ensures name in after.files && after.files[name] == before.files[name]
      ensures Collected(before, now, entries - {name}, OneLess(after, name, now))
    {
      VisitOne(before.files, now, entries, name);
      var was := Visited(before.files, entries);
      DropMore(before, ExpiredBases(was, now, limits), MalformedBases(was), after, name,
               IsExpired(before.files, name, now, limits), IsMalformed(before.files, name));
    }

    lemma ListMore(before: Files, now: u64, entries: set<Name>, name: Name, candidates: seq<Rank>)
      requires Lists(before, now, entries, candidates) && name in entries && name in before
      ensures Lists(before, now, entries - {name},
                    candidates + if KeptRank(before, name, now).Some? then [KeptRank(before, name, now).value] else [])
    {
      var kept := KeptRank(before, name, now);
      if kept.Some? {
        assert kept.value !in candidates && Stays(before, kept.value, now);
      }
    }

    ghost function KeptRank(files: Files, name: Name, now: u64): Option<Rank>
      requires name in files
    {
      if name.Pending? && !IsExpired(files, name, now, limits) && !IsMalformed(files, name)
      then Some(RankOf(name.base, files[name].record)) else None
    }

    /** Remove and count what is overdue or unreadable; list the rest in no particular order. */
    method CollectPending(now: u64) returns (candidates: seq<Rank>)
      modifies this
      ensures Contents() == Sweep(old(Contents()), now, limits)
      ensures Distinct(candidates) && Elements(candidates) == Queued(files)
    {
      candidates := [];
      var entries := files.Keys;
      assert Visited(files, entries) == map[];
      while entries != {}
        invariant Collected(old(Contents()), now, entries, Contents())
        invariant Lists(old(files), now, entries, candidates)
        decreases |entries|
      {
        var name :| name in entries;
        CollectMore(old(Contents()), now, entries, name, Contents());
        var kept := CollectOne(name, now);
        ListMore(old(files), now, entries, name, candidates);
        entries := entries - {name};
        if kept.Some? {
          candidates := candidates + [kept.value];
        }
      }
      assert Visited(old(files), {}) == old(files);
      StayingAreQueued(old(files), files, candidates, now);
    }

    lemma StayingAreQueued(before: Files, after: Files, candidates: seq<Rank>, now: u64)
      requires after == WithoutPending(before, ExpiredBases(before, now, limits) + MalformedBases(before))
      requires forall rank :: rank in candidates <==> Stays(before, rank, now)
      ensures Elements(candidates) == Queued(after)
    {
      L.SweepLeavesFreshRecords(Disk(before, Metrics(0, 0, 0)), now, limits);
      forall rank
        ensures rank in Elements(candidates) <==> rank in Queued(after)
      {
        if Stays(before, rank, now) {
          assert Pending(rank.base) in after;
        }
      }
    }

    /** Read one file of the directory. */
    method CollectOne(name: Name, now: u64) returns (kept: Option<Rank>)
      requires name in files
      modifies this
      ensures Contents() == OneLess(old(Contents()), name, now)
      ensures kept == KeptRank(old(files), name, now)
    {
      if !name.Pending? {
        return None;
      }
      match files[name]
      case Good(record, _) =>
        if SaturatingSub(now, record.enqueuedAt) > limits.maxAge {
          files := files - {name};
          metrics := metrics.(expired := SaturatingAdd(metrics.expired, 1));
          return None;
        }
        kept := Some(RankOf(name.base, record));
      case Bad =>
        files := files - {name};
        metrics := metrics.(malformed := SaturatingAdd(metrics.malformed, 1));
        kept := None;
    }

    static method Order(candidates: seq<Rank>, strongestFirst: bool) returns (order: seq<Rank>)
      requires Distinct(candidates)
      ensures order == if strongestFirst then ClaimOrder(Elements(candidates)) else EvictionOrder(Elements(candidates))
    {
      RanksOrder();
      if strongestFirst {
        order := SortBy(candidates, Stronger);
        ClaimOrderUnique(order);
      } else {
        order := SortBy(candidates, Weaker);
        EvictionOrderUnique(order);
      }
    }

    method SumSizes(order: seq<Rank>) returns (total: nat)
      ensures total == Total(files, order)
    {
      total := 0;
      assert order[0..] == order;
      for i := 0 to |order|
        invariant total + Total(files, order[i..]) == Total(files, order)
      {
        assert order[i..][1..] == order[i + 1..];
        total := total + SizeAt(files, order[i].base);
      }
    }

    /** Evict from the weak end, keeping the running total, until count and bytes are within limits. */
    method EnforceLimits(candidates: seq<Rank>) returns (retained: seq<Rank>)
      requires Distinct(candidates) && Elements(candidates) == Queued(files)
      modifies this
      ensures Contents() == Enforce(old(Contents()), limits)
      ensures Elements(retained) == Queued(files)
    {
      retained := Order(candidates, false);
      ghost var order := retained;
      ghost var n := Surplus(files, order, limits);
      var total := SumSizes(retained);
      ghost var k := 0;
      assert order[..0] == [];
      while |retained| > limits.maxCount || total > limits.maxBytes
        invariant k <= |order| && retained == order[k..]
        invariant k + Surplus(old(files), order[k..], limits) == n
        invariant total == Total(old(files), retained)
        invariant files == WithoutPending(old(files), Bases(order[..k]))
        invariant metrics == old(metrics).(limit := Counted(old(metrics).limit, |Bases(order[..k])|))
        invariant order == EvictionOrder(Queued(old(files)))
        decreases |retained|
      {
        var candidate := retained[0];
        EvictOne(old(files), order, k);
        var size := SizeAt(files, candidate.base);
        total := if size <= total then total - size else 0;
        files := files - {Pending(candidate.base)};
        metrics := metrics.(limit := SaturatingAdd(metrics.limit, 1));
        retained := retained[1..];
        k := k + 1;
      }
      L.KeptAre(old(files), n);
      assert k == n;
    }

    /** The next to go is still there and is the next in order. */
    static lemma EvictOne(files: Files, order: seq<Rank>, k: nat)
      requires order == EvictionOrder(Queued(files)) && k < |order|
      ensures order[k..][1..] == order[k + 1..]
      ensures Bases(order[..k + 1]) == Bases(order[..k]) + {order[k].base} && order[k].base !in Bases(order[..k])
      ensures Pending(order[k].base) in WithoutPending(files, Bases(order[..k]))
      ensures SizeAt(WithoutPending(files, Bases(order[..k])), order[k].base) == SizeAt(files, order[k].base)
      ensures WithoutPending(files, Bases(order[..k + 1]))
              == WithoutPending(files, Bases(order[..k])) - {Pending(order[k].base)}
    {
      assert order[k..][0] == order[k];
      L.KeptBase(files, k, order[k]);
      L.OrderIsQueued(files, order[k]);
      assert order[..k + 1] == order[..k] + [order[k]];
      assert Bases(order[..k + 1]) == Bases(order[..k]) + {order[k].base};
    }

    // ---- Claims ----

    method ClaimNext(now: u64, tag: nat) returns (result: Result<Option<(Base, Record)>, SpoolError>)
      modifies this
      ensures !limits.WithinHardBounds() ==> result == Err(InvalidLimits) && Contents() == old(Contents())
      ensures limits.WithinHardBounds() ==>
        var (disk, claimed) := SpoolModel.ClaimNext(old(Contents()), now, tag, limits);
        && Contents() == disk
        && result.Ok? && result.value.Some? == claimed.Some?
        && (claimed.Some? ==>
              && result.value.value.0 == claimed.value
              && Claim(claimed.value, tag) in files && files[Claim(claimed.value, tag)].Good?
              && result.value.value.1 == files[Claim(claimed.value, tag)].record)
    {
      if !limits.WithinHardBounds() {
        return Err(InvalidLimits);
      }
      var candidates := CollectPending(now);
      var order := Order(candidates, true);
      if order == [] {
        return Ok(None);
      }
      L.OrderIsQueued(files, order[0]);
      var base := order[0].base;
      var record := files[Pending(base)].record;
      files := (files - {Pending(base)})[Claim(base, tag) := files[Pending(base)]];
      result := Ok(Some((base, record)));
    }

    /** Delete the claimed file; this needs no lock and fails when a recovery took the file away. */
    method Commit(base: Base, tag: nat) returns (removed: bool)
      modifies this
      ensures metrics == old(metrics) && (files, removed) == SpoolModel.Commit(old(files), base, tag)
    {
      if Claim(base, tag) !in files {
        assert files - {Claim(base, tag)} == files;
        return false;
      }
      files := files - {Claim(base, tag)};
      removed := true;
    }

    /** Put the record back, also when a consumer gives up without committing. */
    method Release(base: Base, tag: nat, spare: Base)
      modifies this
      ensures metrics == old(metrics) && files == SpoolModel.Release(old(files), base, tag, spare)
    {
      if Claim(base, tag) in files {
        var target := if Pending(base) in files then Pending(spare) else Pending(base);
        files := (files - {Claim(base, tag)})[target := files[Claim(base, tag)]];
      }
    }

    /** Make every staged and claimed file pending again; `spares` are the numbers drawn on the way. */
    method RecoverClaims(entries: seq<Name>, spares: seq<Base>) returns (result: Result<nat, SpoolError>)
      requires |entries| == |spares| && Distinct(entries) && forall name :: name in entries ==> name in files
      modifies this
      ensures metrics == old(metrics)
      ensures var r := Recover(old(files), entries, spares);
              files == r.files && result == if r.ok then Ok(r.recovered) else Err(MalformedRecord)
    {
      var recovered := 0;
      assert entries[0..] == entries && spares[0..] == spares;
      for i := 0 to |entries|
        invariant metrics == old(metrics)
        invariant forall name :: name in entries[i..] ==> name in files
        invariant Distinct(entries[i..])
        invariant var all, rest := Recover(old(files), entries, spares), Recover(files, entries[i..], spares[i..]);
                  all == rest.(recovered := recovered + rest.recovered)
      {
        var name := entries[i];
        assert entries[i..][0] == name && entries[i..][1..] == entries[i + 1..];
        assert spares[i..][0] == spares[i] && spares[i..][1..] == spares[i + 1..];
        assert name in entries[i..];
        if name.Pending? {
          continue;
        }
        if files[name].Bad? {
          return Err(MalformedRecord);
        }
        var target := if Pending(name.base) in files then Pending(spares[i]) else Pending(name.base);
        files := (files - {name})[target := files[name]];
        recovered := recovered + 1;
      }
      result := Ok(recovered);
    }
  }
}
