/**
 The offline spool: a directory whose files move from staged to pending to claimed and away.
 Every function here is the effect of one holding of the directory lock, or of one removal.
 */
module SpoolModel {
  import opened Basics
  import opened Ordering
  import opened SessionTypes

  const HARD_MAX_AGE: u64 := 24 * 60 * 60 * 1_000
  const HARD_MAX_BYTES: u64 := 4 * 1024 * 1024
  const HARD_MAX_COUNT: u64 := 256
  const MAX_RECORD_BYTES: nat := 64 * 1024

  datatype Limits = Limits(maxCount: u64, maxBytes: u64, maxAge: u64) {
    predicate WithinHardBounds() {
      && 0 < maxCount <= HARD_MAX_COUNT
      && 0 < maxBytes <= HARD_MAX_BYTES
      && 0 < maxAge <= HARD_MAX_AGE
    }
  }

  /** What the three names of a record share: the time of its creation and a random number. */
  datatype Base = Base(stamp: u64, nonce: nat) {
    predicate Before(other: Base) {
      stamp < other.stamp || (stamp == other.stamp && nonce < other.nonce)
    }
  }

  datatype Name =
    | Staged(base: Base)
    | Pending(base: Base)
    | Claim(base: Base, tag: nat)

  datatype Record = Record(enqueuedAt: u64, event: Event)

  /** A file holds a record of some encoded size, or something that cannot be read as one. */
  datatype Content = Good(record: Record, size: nat) | Bad

  type Files = map<Name, Content>

  datatype Metrics = Metrics(expired: u64, limit: u64, malformed: u64)

  datatype Disk = Disk(files: Files, metrics: Metrics)

  datatype SpoolError = InvalidLimits | InvalidEvent | RecordTooLarge | UnsafePath | NotFound | MalformedRecord

  datatype EnqueueOutcome = Stored | DroppedByLimit

  /** A counter after `n` saturating increments. */
  function Counted(counter: u64, n: nat): u64 {
    if counter + n <= U64_MAX then counter + n else U64_MAX
  }

  function Renamed(files: Files, from: Name, to: Name): Files
    requires from in files
  {
    (files - {from})[to := files[from]]
  }

  // ---- Expiry and unreadable files ----

  predicate Overdue(record: Record, now: u64, limits: Limits) {
    SaturatingSub(now, record.enqueuedAt) > limits.maxAge
  }

  predicate IsExpired(files: Files, name: Name, now: u64, limits: Limits) {
    name in files && name.Pending? && files[name].Good? && Overdue(files[name].record, now, limits)
  }

  predicate IsMalformed(files: Files, name: Name) {
    name in files && name.Pending? && files[name].Bad?
  }

  function ExpiredBases(files: Files, now: u64, limits: Limits): set<Base> {
    set name | name in files && IsExpired(files, name, now, limits) :: name.base
  }

  function MalformedBases(files: Files): set<Base> {
    set name | name in files && IsMalformed(files, name) :: name.base
  }

  function WithoutPending(files: Files, bases: set<Base>): Files {
    map name | name in files && !(name.Pending? && name.base in bases) :: files[name]
  }

  /** Every pending file is read; the overdue and the unreadable ones are removed and counted. */
  function Sweep(disk: Disk, now: u64, limits: Limits): Disk {
    var expired, malformed := ExpiredBases(disk.files, now, limits), MalformedBases(disk.files);
    Disk(WithoutPending(disk.files, expired + malformed),
         disk.metrics.(expired := Counted(disk.metrics.expired, |expired|),
                       malformed := Counted(disk.metrics.malformed, |malformed|)))
  }

  // ---- The queue ----

  function Priority(kind: EventKind): nat {
    match kind
    case AttentionRequired => 3
    case TurnFailed => 2
    case SessionStarted => 1
    case TurnStarted => 1
    case AttentionResolved => 1
    case TurnCompleted => 0
    case SessionEnded => 0
  }

  /** What decides the turn of a pending record. */
  datatype Rank = Rank(priority: nat, enqueuedAt: u64, base: Base)

  function RankOf(base: Base, record: Record): Rank {
    Rank(Priority(record.event.kind), record.enqueuedAt, base)
  }

  predicate EarlierThan(a: Rank, b: Rank) {
    a.enqueuedAt < b.enqueuedAt || (a.enqueuedAt == b.enqueuedAt && a.base.Before(b.base))
  }

  /** First to be evicted. */
  predicate Weaker(a: Rank, b: Rank) {
    a.priority < b.priority || (a.priority == b.priority && EarlierThan(a, b))
  }

  /** First to be claimed. */
  predicate Stronger(a: Rank, b: Rank) {
    a.priority > b.priority || (a.priority == b.priority && EarlierThan(a, b))
  }

  function Queued(files: Files): set<Rank> {
    set name | name in files && name.Pending? && files[name].Good? :: RankOf(name.base, files[name].record)
  }

  lemma RanksOrder()
    ensures StrictTotalOrder(Weaker)
    ensures StrictTotalOrder(Stronger)
  {
    forall x, y: Rank | x != y
      ensures Weaker(x, y) || Weaker(y, x)
      ensures Stronger(x, y) || Stronger(y, x)
    {
      assert x.priority != y.priority || x.enqueuedAt != y.enqueuedAt
             || x.base.stamp != y.base.stamp || x.base.nonce != y.base.nonce;
    }
  }

  lemma OrdersExist(ranks: set<Rank>)
    ensures exists s :: Elements(s) == ranks && Sorted(s, Weaker)
    ensures exists s :: Elements(s) == ranks && Sorted(s, Stronger)
  {
    RanksOrder();
    var w, s := Ranked(ranks, Weaker), Ranked(ranks, Stronger);
    assert Elements(w) == ranks && Sorted(w, Weaker);
    assert Elements(s) == ranks && Sorted(s, Stronger);
  }

  ghost function EvictionOrder(ranks: set<Rank>): (s: seq<Rank>)
    ensures Elements(s) == ranks && Sorted(s, Weaker)
  {
    OrdersExist(ranks);
    var s :| Elements(s) == ranks && Sorted(s, Weaker);
    s
  }

  ghost function ClaimOrder(ranks: set<Rank>): (s: seq<Rank>)
    ensures Elements(s) == ranks && Sorted(s, Stronger)
  {
    OrdersExist(ranks);
    var s :| Elements(s) == ranks && Sorted(s, Stronger);
    s
  }

  lemma EvictionOrderUnique(s: seq<Rank>)
    requires Sorted(s, Weaker)
    ensures EvictionOrder(Elements(s)) == s
  {
    RanksOrder();
    SortedUnique(EvictionOrder(Elements(s)), s, Weaker);
  }

  lemma ClaimOrderUnique(s: seq<Rank>)
    requires Sorted(s, Stronger)
    ensures ClaimOrder(Elements(s)) == s
  {
    RanksOrder();
    SortedUnique(ClaimOrder(Elements(s)), s, Stronger);
  }

  // ---- Limits ----

  function SizeAt(files: Files, base: Base): nat {
    if Pending(base) in files && files[Pending(base)].Good? then files[Pending(base)].size else 0
  }

  function Total(files: Files, order: seq<Rank>): nat {
    if order == [] then 0 else SizeAt(files, order[0].base) + Total(files, order[1..])
  }

  predicate Exceeds(files: Files, order: seq<Rank>, limits: Limits) {
    |order| > limits.maxCount || Total(files, order) > limits.maxBytes
  }

  /** How many of the first in order have to go. */
  function Surplus(files: Files, order: seq<Rank>, limits: Limits): (n: nat)
    ensures n <= |order|
    decreases |order|
  {
    if Exceeds(files, order, limits) then 1 + Surplus(files, order[1..], limits) else 0
  }

  function Bases(order: seq<Rank>): set<Base> {
    set rank | rank in order :: rank.base
  }

  ghost function EvictedBases(files: Files, limits: Limits): set<Base> {
    var order := EvictionOrder(Queued(files));
    Bases(order[..Surplus(files, order, limits)])
  }

  ghost function Enforce(disk: Disk, limits: Limits): Disk {
    var evicted := EvictedBases(disk.files, limits);
    Disk(WithoutPending(disk.files, evicted),
         disk.metrics.(limit := Counted(disk.metrics.limit, |evicted|)))
  }

  // ---- Operations ----

  /** The checks before anything is written. */
  function Admissible(limits: Limits, event: Event, size: nat): Option<SpoolError> {
    if !limits.WithinHardBounds() then Some(InvalidLimits)
    else if !event.Valid() then Some(InvalidEvent)
    else if size > MAX_RECORD_BYTES then Some(RecordTooLarge)
    else None
  }

  function Promote(files: Files, base: Base): Result<Files, SpoolError> {
    if Staged(base) in files then
      if Pending(base) in files then Err(UnsafePath) else Ok(Renamed(files, Staged(base), Pending(base)))
    else if Pending(base) !in files then Err(NotFound)
    else if files[Pending(base)].Bad? then Err(MalformedRecord)
    else Ok(files)
  }

  /** The rest of an enqueue at the time its base records; a failed one takes its staged file back. */
  ghost function FinishEnqueue(disk: Disk, base: Base, limits: Limits)
    : (Disk, Result<EnqueueOutcome, SpoolError>)
  {
    match Promote(disk.files, base)
    case Err(error) => (disk.(files := disk.files - {Staged(base)}), Err(error))
    case Ok(files) =>
      var after := Enforce(Sweep(disk.(files := files), base.stamp, limits), limits);
      (after, Ok(if Pending(base) in after.files then Stored else DroppedByLimit))
  }

  ghost function ClaimNext(disk: Disk, now: u64, tag: nat, limits: Limits): (Disk, Option<Base>) {
    var swept := Sweep(disk, now, limits);
    var order := ClaimOrder(Queued(swept.files));
    if order == [] then (swept, None)
    else
      var base := order[0].base;
      assert order[0] in Elements(order);
      (swept.(files := Renamed(swept.files, Pending(base), Claim(base, tag))), Some(base))
  }

  function Commit(files: Files, base: Base, tag: nat): (Files, bool) {
    (files - {Claim(base, tag)}, Claim(base, tag) in files)
  }

  /** Back to its pending name, or to a new one when that is taken. */
  function Release(files: Files, base: Base, tag: nat, spare: Base): Files {
    if Claim(base, tag) !in files then files
    else Renamed(files, Claim(base, tag), if Pending(base) in files then Pending(spare) else Pending(base))
  }

  function RecoverOne(files: Files, name: Name, spare: Base): Files
    requires name in files
  {
    Renamed(files, name, if Pending(name.base) in files then Pending(spare) else Pending(name.base))
  }

  datatype Recovery = Recovery(files: Files, recovered: nat, ok: bool)

  /** Go through the directory in whatever order it lists; an unreadable file ends the recovery. */
  function Recover(files: Files, entries: seq<Name>, spares: seq<Base>): Recovery
    requires |entries| == |spares| && Distinct(entries) && forall name :: name in entries ==> name in files
    decreases |entries|
  {
    if entries == [] then Recovery(files, 0, true)
    else if entries[0].Pending? then Recover(files, entries[1..], spares[1..])
    else if files[entries[0]].Bad? then Recovery(files, 0, false)
    else
      var rest := Recover(RecoverOne(files, entries[0], spares[0]), entries[1..], spares[1..]);
      rest.(recovered := rest.recovered + 1)
  }
}
