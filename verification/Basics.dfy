/** Shared vocabulary: optional and fallible values, and unsigned 64-bit arithmetic. */
module Basics {

  datatype Option<+T> = None | Some(value: T)

  datatype Result<+T, +E> = Ok(value: T) | Err(error: E)

  const U64_MAX: nat := 0xFFFF_FFFF_FFFF_FFFF

  /** Times, revisions and counters are unsigned 64-bit machine words. */
  type u64 = x: int | 0 <= x <= U64_MAX

  function SaturatingAdd(a: u64, b: u64): u64 {
    if a + b <= U64_MAX then a + b else U64_MAX
  }

  function SaturatingSub(a: u64, b: u64): u64 {
    if b <= a then a - b else 0
  }

  predicate Distinct<T(==)>(s: seq<T>) {
    forall i, j :: 0 <= i < j < |s| ==> s[i] != s[j]
  }

  function Elements<T>(s: seq<T>): set<T> {
    set x | x in s
  }

  /** The newest `limit` elements. */
  function Newest<T>(s: seq<T>, limit: nat): seq<T> {
    if |s| <= limit then s else s[|s| - limit..]
  }

  lemma SubsetSize<T>(a: set<T>, b: set<T>)
    requires a <= b
    ensures |a| <= |b|
  {
    assert b == a + (b - a);
  }

  lemma TimesMonotone(a: int, b: int, p: nat)
    ensures a <= b ==> a * p <= b * p
  {
  }
}
