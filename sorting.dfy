/** Python's sorted() on floats and list.sort() on (time, value) tuples,
    modelled as insertion sorts (both orders are total, so the sorted result
    is determined by the multiset of elements). */
module Sorting {
  import opened Basics

  function InsertReal(x: real, s: seq<real>): (r: seq<real>)
    requires Ascending(s)
    ensures |r| == |s| + 1 && multiset(r) == multiset(s) + multiset{x}
    ensures Ascending(r)
  {
    if s == [] || x <= s[0] then
      [x] + s
    else
      assert Ascending(s[1..]) by {
        assert forall i :: 0 <= i < |s| - 1 ==> s[1..][i] == s[i + 1];
      }
      var rest := InsertReal(x, s[1..]);
      RealLowerBound(s[0], x, s[1..], rest);
      assert s == [s[0]] + s[1..];
      ConsAscending(s[0], rest);
      [s[0]] + rest
  }

  /** A bound below x and below every element of t is below every element of
      any arrangement of t with x added. */
  lemma RealLowerBound(lo: real, x: real, t: seq<real>, r: seq<real>)
    requires lo <= x && (forall i :: 0 <= i < |t| ==> lo <= t[i])
    requires multiset(r) == multiset(t) + multiset{x}
    ensures forall i :: 0 <= i < |r| ==> lo <= r[i]
  {
    forall i | 0 <= i < |r|
      ensures lo <= r[i]
    {
      assert r[i] in multiset(r);
      if r[i] != x {
        assert r[i] in t;
      }
    }
  }

  lemma ConsAscending(x: real, s: seq<real>)
    requires Ascending(s) && forall i :: 0 <= i < |s| ==> x <= s[i]
    ensures Ascending([x] + s)
  {
    var r := [x] + s;
    forall i, j | 0 <= i <= j < |r|
      ensures r[i] <= r[j]
    {
      if i > 0 {
        assert r[i] == s[i - 1] && r[j] == s[j - 1];
      } else if j > 0 {
        assert r[j] == s[j - 1];
      }
    }
  }

  /** sorted(): an ascending permutation. */
  function SortReals(s: seq<real>): (r: seq<real>)
    ensures |r| == |s| && multiset(r) == multiset(s)
    ensures Ascending(r)
  {
    if s == [] then []
    else
      assert s == [s[0]] + s[1..];
      InsertReal(s[0], SortReals(s[1..]))
  }

  /** Python's order on (time, value) tuples: by time, then by value. */
  predicate PointLe(p: Point, q: Point)
  {
    p.time < q.time || (p.time == q.time && p.value <= q.value)
  }

  predicate SortedPoints(s: seq<Point>)
  {
    forall i, j :: 0 <= i <= j < |s| ==> PointLe(s[i], s[j])
  }

  function InsertPoint(p: Point, s: seq<Point>): (r: seq<Point>)
    requires SortedPoints(s)
    ensures |r| == |s| + 1 && multiset(r) == multiset(s) + multiset{p}
    ensures SortedPoints(r)
  {
    if s == [] || PointLe(p, s[0]) then
      [p] + s
    else
      var rest := InsertPoint(p, s[1..]);
      PointLowerBound(s[0], p, s[1..], rest);
      assert s == [s[0]] + s[1..];
      [s[0]] + rest
  }

  lemma PointLowerBound(lo: Point, p: Point, t: seq<Point>, r: seq<Point>)
    requires PointLe(lo, p) && (forall i :: 0 <= i < |t| ==> PointLe(lo, t[i]))
    requires multiset(r) == multiset(t) + multiset{p}
    ensures forall i :: 0 <= i < |r| ==> PointLe(lo, r[i])
  {
    forall i | 0 <= i < |r|
      ensures PointLe(lo, r[i])
    {
      assert r[i] in multiset(r);
      if r[i] != p {
        assert r[i] in t;
      }
    }
  }

  /** list.sort() on points: a permutation ordered by time, then value. */
  function SortPoints(s: seq<Point>): (r: seq<Point>)
    ensures |r| == |s| && multiset(r) == multiset(s)
    ensures SortedPoints(r)
  {
    if s == [] then []
    else
      assert s == [s[0]] + s[1..];
      InsertPoint(s[0], SortPoints(s[1..]))
  }
}
