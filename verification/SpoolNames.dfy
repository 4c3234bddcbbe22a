/**
 The file names of the spool as text. The queue sorts by path and the recovery recognises files by
 their names; both agree with the abstract names of the model.
 */
module SpoolNames {
  import opened Basics
  import opened SpoolModel

  // ---- Text ----

  /** Bytewise order of names. */
  predicate Less(a: string, b: string) {
    b != [] && (a == [] || a[0] < b[0] || (a[0] == b[0] && Less(a[1..], b[1..])))
  }

  predicate EndsWith(s: string, suffix: string) {
    |suffix| <= |s| && s[|s| - |suffix|..] == suffix
  }

  /** Where `pattern` first occurs, if it does. */
  function Find(s: string, pattern: string): (at: Option<nat>)
    ensures at.Some? ==> at.value + |pattern| <= |s|
  {
    if |s| < |pattern| then None
    else if s[..|pattern|] == pattern then Some(0)
    else match Find(s[1..], pattern)
      case None => None
      case Some(at) => Some(at + 1)
  }

  function StripSuffix(s: string, suffix: string): Option<string> {
    if EndsWith(s, suffix) then Some(s[..|s| - |suffix|]) else None
  }

  function Pow(radix: nat, n: nat): (p: nat)
    requires radix > 0
    ensures p > 0
  {
    if n == 0 then 1 else radix * Pow(radix, n - 1)
  }

  function Digit(d: nat): char
    requires d < 16
  {
    if d < 10 then '0' + d as char else 'a' + (d - 10) as char
  }

  lemma QuotientIsDigit(n: nat, radix: nat, p: nat)
    requires p > 0 && n < radix * p
    ensures n / p < radix && n % p < p
  {
    if n / p >= radix {
      TimesMonotone(radix, n / p, p);
    }
  }

  /** `n` with exactly `width` digits, leading zeros included. */
  function Padded(n: nat, width: nat, radix: nat): (s: string)
    requires 2 <= radix <= 16 && n < Pow(radix, width)
    ensures |s| == width
  {
    if width == 0 then []
    else
      var p := Pow(radix, width - 1);
      QuotientIsDigit(n, radix, p);
      [Digit(n / p)] + Padded(n % p, width - 1, radix)
  }

  // ---- Names ----

  const STAMP_WIDTH := 20
  const NONCE_WIDTH := 32

  predicate Drawn(base: Base) {
    base.nonce < Pow(16, NONCE_WIDTH)
  }

  lemma StampFits(stamp: u64)
    ensures stamp < Pow(10, STAMP_WIDTH)
  {
    assert Pow(10, 5) == 100_000;
    assert Pow(10, 10) == 10_000_000_000;
    assert Pow(10, 15) == 1_000_000_000_000_000;
    assert Pow(10, 20) == 100_000_000_000_000_000_000;
  }

  function Stem(base: Base): string
    requires Drawn(base)
  {
    StampFits(base.stamp);
    Padded(base.stamp, STAMP_WIDTH, 10) + "-" + Padded(base.nonce, NONCE_WIDTH, 16)
  }

  /** `tag` is the text of process and sequence number in a claim's name. */
  function FileName(name: Name, tag: string): string
    requires Drawn(name.base)
  {
    match name
    case Staged(base) => Stem(base) + ".staged"
    case Pending(base) => Stem(base) + ".pending"
    case Claim(base, _) => Stem(base) + ".claim-" + tag
  }

  function NonEmpty(stem: Option<string>, suffix: string): Option<string> {
    if stem.Some? && stem.value != [] then Some(stem.value + suffix) else None
  }

  function PendingFromClaim(name: string): Option<string> {
    match Find(name, ".claim-")
    case None => None
    case Some(at) => NonEmpty(Some(name[..at]), ".pending")
  }

  function StagedFromPending(name: string): Option<string> {
    NonEmpty(StripSuffix(name, ".pending"), ".staged")
  }

  function PendingFromStaged(name: string): Option<string> {
    NonEmpty(StripSuffix(name, ".staged"), ".pending")
  }

  // ---- Order ----

  lemma DigitsRank(a: nat, b: nat)
    requires a < 16 && b < 16
    ensures Digit(a) < Digit(b) <==> a < b
    ensures Digit(a) == Digit(b) <==> a == b
  {
  }

  lemma SplitRanks(p: nat, q: nat, r: nat, q': nat, r': nat)
    requires r < p && r' < p
    ensures q * p + r < q' * p + r' <==> (q < q' || (q == q' && r < r'))
    ensures q * p + r == q' * p + r' <==> (q == q' && r == r')
  {
    TimesMonotone(q + 1, q', p);
    TimesMonotone(q' + 1, q, p);
    assert (q + 1) * p == q * p + p && (q' + 1) * p == q' * p + p;
  }

  lemma ConsRanks(x: char, s: string, y: char, t: string)
    ensures Less([x] + s, [y] + t) <==> (x < y || (x == y && Less(s, t)))
    ensures [x] + s == [y] + t <==> (x == y && s == t)
  {
    assert ([x] + s)[1..] == s && ([y] + t)[1..] == t;
    assert ([x] + s)[0] == x && ([y] + t)[0] == y;
  }

  lemma PaddedSplits(n: nat, width: nat, radix: nat) returns (q: nat, r: nat)
    requires width > 0 && 2 <= radix <= 16 && n < Pow(radix, width)
    ensures q < radix && r < Pow(radix, width - 1) && n == q * Pow(radix, width - 1) + r
    ensures Padded(n, width, radix) == [Digit(q)] + Padded(r, width - 1, radix)
  {
    var p := Pow(radix, width - 1);
    QuotientIsDigit(n, radix, p);
    q, r := n / p, n % p;
    assert n == p * (n / p) + n % p;
  }

  lemma {:induction false} PaddedRanks(n: nat, m: nat, width: nat, radix: nat)
    requires 2 <= radix <= 16 && n < Pow(radix, width) && m < Pow(radix, width)
    ensures Less(Padded(n, width, radix), Padded(m, width, radix)) <==> n < m
    ensures Padded(n, width, radix) == Padded(m, width, radix) <==> n == m
  {
    if width > 0 {
      var q, r := PaddedSplits(n, width, radix);
      var q', r' := PaddedSplits(m, width, radix);
      PaddedRanks(r, r', width - 1, radix);
      DigitsRank(q, q');
      SplitRanks(Pow(radix, width - 1), q, r, q', r');
      ConsRanks(Digit(q), Padded(r, width - 1, radix), Digit(q'), Padded(r', width - 1, radix));
    }
  }

  lemma {:induction false} LessOfParts(a: string, b: string, c: string, d: string)
    requires |a| == |b|
    ensures Less(a + c, b + d) <==> Less(a, b) || (a == b && Less(c, d))
  {
    if a == [] {
      assert a + c == c && b + d == d;
    } else {
      assert (a + c)[1..] == a[1..] + c && (b + d)[1..] == b[1..] + d;
      LessOfParts(a[1..], b[1..], c, d);
    }
  }

  lemma {:induction false} LessIrreflexive(a: string)
    ensures !Less(a, a)
  {
    if a != [] {
      LessIrreflexive(a[1..]);
    }
  }

  lemma SameParts(a: string, b: string, c: string, d: string)
    requires |a| == |b|
    ensures a + c == b + d <==> (a == b && c == d)
  {
    if a + c == b + d {
      assert (a + c)[..|a|] == a && (b + d)[..|b|] == b;
      assert (a + c)[|a|..] == c && (b + d)[|b|..] == d;
    }
  }

  /** The parts of two names, compared one after the other. */
  lemma NamesOfParts(s: string, s': string, n: string, n': string, end: string)
    requires |s| == |s'| && |n| == |n'|
    ensures Less(s + "-" + n + end, s' + "-" + n' + end) <==> (Less(s, s') || (s == s' && Less(n, n')))
    ensures s + "-" + n + end == s' + "-" + n' + end <==> (s == s' && n == n')
  {
    LessIrreflexive(end);
    LessOfParts(s + "-" + n, s' + "-" + n', end, end);
    LessOfParts(s + "-", s' + "-", n, n');
    LessIrreflexive("-");
    LessOfParts(s, s', "-", "-");
    SameParts(s, s', "-", "-");
    SameParts(s + "-", s' + "-", n, n');
    SameParts(s + "-" + n, s' + "-" + n', end, end);
  }

  /** Pending files sort by name as the model sorts them: by the time in the name, then the number. */
  lemma NamesRank(a: Base, b: Base)
    requires Drawn(a) && Drawn(b)
    ensures Less(FileName(Pending(a), []), FileName(Pending(b), [])) <==> a.Before(b)
    ensures FileName(Pending(a), []) == FileName(Pending(b), []) <==> a == b
  {
    StampFits(a.stamp);
    StampFits(b.stamp);
    PaddedRanks(a.stamp, b.stamp, STAMP_WIDTH, 10);
    PaddedRanks(a.nonce, b.nonce, NONCE_WIDTH, 16);
    NamesOfParts(Padded(a.stamp, STAMP_WIDTH, 10), Padded(b.stamp, STAMP_WIDTH, 10),
                 Padded(a.nonce, NONCE_WIDTH, 16), Padded(b.nonce, NONCE_WIDTH, 16), ".pending");
  }

  // ---- Conversions ----

  predicate NoDot(s: string) {
    forall i :: 0 <= i < |s| ==> s[i] != '.'
  }

  lemma {:induction false} PaddedHasNoDot(n: nat, width: nat, radix: nat)
    requires 2 <= radix <= 16 && n < Pow(radix, width)
    ensures NoDot(Padded(n, width, radix))
  {
    if width > 0 {
      var q, r := PaddedSplits(n, width, radix);
      PaddedHasNoDot(r, width - 1, radix);
      assert Digit(q) != '.';
    }
  }

  lemma StemHasNoDot(base: Base)
    requires Drawn(base)
    ensures NoDot(Stem(base)) && |Stem(base)| == STAMP_WIDTH + 1 + NONCE_WIDTH
  {
    StampFits(base.stamp);
    PaddedHasNoDot(base.stamp, STAMP_WIDTH, 10);
    PaddedHasNoDot(base.nonce, NONCE_WIDTH, 16);
  }

  lemma {:induction false} FindAfterStem(stem: string, rest: string, pattern: string)
    requires NoDot(stem) && pattern != [] && pattern[0] == '.'
    ensures Find(stem + rest, pattern) == match Find(rest, pattern)
                                          case None => None
                                          case Some(at) => Some(|stem| + at)
  {
    if stem == [] {
      assert stem + rest == rest;
    } else {
      var s := stem + rest;
      assert s[1..] == stem[1..] + rest;
      FindAfterStem(stem[1..], rest, pattern);
      if |s| >= |pattern| {
        assert s[..|pattern|][0] == stem[0] != '.';
      } else {
        FindNeedsRoom(rest, pattern);
      }
    }
  }

  lemma FindNeedsRoom(s: string, pattern: string)
    requires |s| < |pattern|
    ensures Find(s, pattern) == None
  {
  }

  /** The conversions between the three names of a record undo each other. */
  lemma ConversionsRoundTrip(base: Base, n: nat, tag: string)
    requires Drawn(base)
    ensures StagedFromPending(FileName(Pending(base), [])) == Some(FileName(Staged(base), []))
    ensures PendingFromStaged(FileName(Staged(base), [])) == Some(FileName(Pending(base), []))
    ensures PendingFromClaim(FileName(Claim(base, n), tag)) == Some(FileName(Pending(base), []))
  {
    StemHasNoDot(base);
    var stem := Stem(base);
    FindAfterStem(stem, ".claim-" + tag, ".claim-");
    assert (".claim-" + tag)[..7] == ".claim-";
    assert FileName(Claim(base, n), tag) == stem + (".claim-" + tag);
    assert (stem + (".claim-" + tag))[..|stem|] == stem;
    assert (stem + ".pending")[|stem|..] == ".pending" && (stem + ".pending")[..|stem|] == stem;
    assert (stem + ".staged")[|stem|..] == ".staged" && (stem + ".staged")[..|stem|] == stem;
  }

  /** What the code takes a directory entry for. */
  datatype Kind = IsStaged | IsClaim | IsPending | Other

  function KindOf(name: string): Kind {
    if EndsWith(name, ".staged") then IsStaged
    else if Find(name, ".claim-").Some? then IsClaim
    else if EndsWith(name, ".pending") then IsPending
    else Other
  }

  predicate IsTag(tag: string) {
    forall i :: 0 <= i < |tag| ==> '0' <= tag[i] <= '9' || tag[i] == '-'
  }

  lemma LastChars(s: string, suffix: string, k: nat)
    requires 1 <= k <= |suffix|
    ensures EndsWith(s, suffix) ==> s[|s| - k] == suffix[|suffix| - k]
  {
    if EndsWith(s, suffix) {
      assert s[|s| - |suffix|..][|suffix| - k] == s[|s| - k];
    }
  }

  lemma StagedIsRecognised(stem: string)
    ensures KindOf(stem + ".staged") == IsStaged && !EndsWith(stem + ".staged", ".pending")
  {
    var text := stem + ".staged";
    assert text[|stem|..] == ".staged";
    assert text[|text| - 3] == 'g';
    LastChars(text, ".pending", 3);
  }

  lemma NoClaimInSuffix()
    ensures Find(".pending", ".claim-") == None
  {
    assert ".pending"[1..] == "pending";
    assert ".pending"[..7][1] == 'p' && ".claim-"[1] == 'c';
    FindNothing("pending", ".claim-");
  }

  lemma PendingIsRecognised(stem: string)
    requires NoDot(stem)
    ensures KindOf(stem + ".pending") == IsPending
  {
    var text := stem + ".pending";
    assert text[|stem|..] == ".pending";
    FindAfterStem(stem, ".pending", ".claim-");
    NoClaimInSuffix();
    LastChars(text, ".staged", 3);
  }

  lemma ClaimIsRecognised(stem: string, tag: string)
    requires NoDot(stem) && IsTag(tag) && tag != []
    ensures KindOf(stem + (".claim-" + tag)) == IsClaim && !EndsWith(stem + (".claim-" + tag), ".pending")
  {
    var text := stem + (".claim-" + tag);
    FindAfterStem(stem, ".claim-" + tag, ".claim-");
    assert (".claim-" + tag)[..7] == ".claim-";
    assert text[|text| - 1] == tag[|tag| - 1];
    LastChars(text, ".staged", 1);
    LastChars(text, ".pending", 1);
  }

  /** Each file is taken for what it is, and the collection of pending files sees no other. */
  lemma KindsAreRecognised(name: Name, tag: string)
    requires Drawn(name.base) && IsTag(tag) && tag != []
    ensures KindOf(FileName(name, tag)) == match name
                                           case Staged(_) => IsStaged
                                           case Pending(_) => IsPending
                                           case Claim(_, _) => IsClaim
    ensures EndsWith(FileName(name, tag), ".pending") <==> name.Pending?
  {
    var stem := Stem(name.base);
    StemHasNoDot(name.base);
    match name
    case Staged(_) => StagedIsRecognised(stem);
    case Pending(_) => PendingIsRecognised(stem);
    case Claim(_, _) =>
      assert FileName(name, tag) == stem + (".claim-" + tag);
      ClaimIsRecognised(stem, tag);
  }

  lemma {:induction false} FindNothing(s: string, pattern: string)
    requires NoDot(s) && pattern != [] && pattern[0] == '.'
    ensures Find(s, pattern) == None
  {
    if |s| >= |pattern| {
      assert s[..|pattern|][0] == s[0];
      FindNothing(s[1..], pattern);
    }
  }
}
