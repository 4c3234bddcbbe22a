/**
 Sorting by a strict total order. `Ranked` is the unique enumeration of a finite set in
 increasing order; `SortBy` computes it from an arbitrary enumeration of the set.
 */
module Ordering {
  import opened Basics

  ghost predicate StrictTotalOrder<T(!new)>(lt: (T, T) -> bool) {
    && (forall x :: !lt(x, x))
    && (forall x, y :: x != y ==> lt(x, y) || lt(y, x))
    && (forall x, y, z :: lt(x, y) && lt(y, z) ==> lt(x, z))
  }

  ghost predicate Sorted<T>(s: seq<T>, lt: (T, T) -> bool) {
    forall i, j :: 0 <= i < j < |s| ==> lt(s[i], s[j])
  }

  lemma {:induction false} LeastExists<T(!new)>(items: set<T>, lt: (T, T) -> bool)
    requires StrictTotalOrder(lt) && items != {}
    ensures exists m :: m in items && forall y :: y in items && y != m ==> lt(m, y)
  {
    var x :| x in items;
    if items == {x} {
    } else {
      LeastExists(items - {x}, lt);
      var m :| m in items - {x} && forall y :: y in items - {x} && y != m ==> lt(m, y);
      var least := if lt(x, m) then x else m;
      forall y | y in items && y != least
        ensures lt(least, y)
      {
        if y != x && y != m {
          assert lt(m, y);
        }
      }
    }
  }

  /** The elements of `items` in increasing order. */
  ghost function Ranked<T(!new)>(items: set<T>, lt: (T, T) -> bool): (s: seq<T>)
    requires StrictTotalOrder(lt)
    ensures Elements(s) == items && Sorted(s, lt) && |s| == |items|
  {
    if items == {} then []
    else
      LeastExists(items, lt);
      var m :| m in items && forall y :: y in items && y != m ==> lt(m, y);
      var rest := Ranked(items - {m}, lt);
      assert forall x :: x in [m] + rest <==> x == m || x in Elements(rest);
      [m] + rest
  }

  /** Two increasing enumerations of the same elements are the same sequence. */
  lemma {:induction false} SortedUnique<T(!new)>(s: seq<T>, t: seq<T>, lt: (T, T) -> bool)
    requires StrictTotalOrder(lt) && Sorted(s, lt) && Sorted(t, lt)
    requires Elements(s) == Elements(t)
    ensures s == t
  {
    assert forall k :: 0 <= k < |s| ==> s[k] in Elements(t);
    assert forall k :: 0 <= k < |t| ==> t[k] in Elements(s);
    if s != [] && t != [] {
      var i :| 0 <= i < |t| && t[i] == s[0];
      var j :| 0 <= j < |s| && s[j] == t[0];
      assert s[0] == t[0];
      forall x
        ensures x in Elements(s[1..]) <==> x in Elements(t[1..])
      {
        if x in s[1..] {
          assert x in Elements(s);
          assert x in t;
          assert x != t[0];
        }
        if x in t[1..] {
          assert x in Elements(t);
          assert x in s;
          assert x != s[0];
        }
      }
      SortedUnique(s[1..], t[1..], lt);
      assert s == [s[0]] + s[1..] && t == [t[0]] + t[1..];
    }
  }

  /** Stable enumeration to increasing order, one insertion at a time. */
  method SortBy<T(==,!new)>(items: seq<T>, lt: (T, T) -> bool) returns (sorted: seq<T>)
    requires StrictTotalOrder(lt) && Distinct(items)
    ensures sorted == Ranked(Elements(items), lt)
  {
    sorted := [];
    for i := 0 to |items|
      invariant Sorted(sorted, lt)
      invariant forall x :: x in sorted <==> x in items[..i]
    {
      var at := 0;
      while at < |sorted| && lt(sorted[at], items[i])
        invariant 0 <= at <= |sorted|
        invariant forall k :: 0 <= k < at ==> lt(sorted[k], items[i])
      {
        at := at + 1;
      }
      ghost var before := sorted;
      forall k | at <= k < |sorted|
        ensures lt(items[i], sorted[k])
      {
        assert sorted[k] in items[..i];
      }
      sorted := sorted[..at] + [items[i]] + sorted[at..];
      assert forall x :: x in sorted <==> x in before || x == items[i];
      assert items[..i + 1] == items[..i] + [items[i]];
    }
    assert items[..|items|] == items;
    assert Elements(sorted) == Elements(items);
    SortedUnique(sorted, Ranked(Elements(items), lt), lt);
  }
}
