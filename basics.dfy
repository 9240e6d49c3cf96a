/** Values shared by every part of the morph core: samples, errors and
    small facts about sequences of reals. */
module Basics {

  /** A (time, value) sample: a pitch point, or a duration control point. */
  datatype Point = Point(time: real, value: real)

  /** The exceptions the core raises, as values. */
  datatype MorphError =
    | RelativizeSequenceError  // fewer than two values, or all values equal
    | NoChunkRetained          // pop from an empty list: no chunk could be morphed
    | EmptyDataList            // unpacking zip(*[]) of an empty point list
    | ZeroDivision             // a float division by zero
    | EmptyParameterList       // indexing [0] of an empty window list

  datatype Result<T> = Success(value: T) | Failure(error: MorphError)

  function Abs(x: real): real
  {
    if x < 0.0 then -x else x
  }

  /** The smallest element (Python's min). */
  function Min(s: seq<real>): (m: real)
    requires |s| > 0
    ensures m in s
    ensures forall i :: 0 <= i < |s| ==> m <= s[i]
  {
    if |s| == 1 then s[0]
    else
      var rest := Min(s[1..]);
      assert forall i :: 1 <= i < |s| ==> s[i] == s[1..][i - 1];
      if s[0] <= rest then s[0] else rest
  }

  /** The largest element (Python's max). */
  function Max(s: seq<real>): (m: real)
    requires |s| > 0
    ensures m in s
    ensures forall i :: 0 <= i < |s| ==> s[i] <= m
  {
    if |s| == 1 then s[0]
    else
      var rest := Max(s[1..]);
      assert forall i :: 1 <= i < |s| ==> s[i] == s[1..][i - 1];
      if rest <= s[0] then s[0] else rest
  }

  /** The first position of `v` (Python's list.index). */
  function IndexOf(s: seq<real>, v: real): (i: nat)
    requires v in s
    ensures i < |s| && s[i] == v
    ensures forall j :: 0 <= j < i ==> s[j] != v
  {
    if s[0] == v then 0 else 1 + IndexOf(s[1..], v)
  }

  /** Every element equals the first: the set of values has one element. */
  predicate AllEqual(s: seq<real>)
  {
    forall i :: 0 <= i < |s| ==> s[i] == s[0]
  }

  predicate Ascending(s: seq<real>)
  {
    forall i, j :: 0 <= i <= j < |s| ==> s[i] <= s[j]
  }

  predicate StrictlyAscending(s: seq<real>)
  {
    forall i, j :: 0 <= i < j < |s| ==> s[i] < s[j]
  }

  function Times(pts: seq<Point>): (ts: seq<real>)
    ensures |ts| == |pts|
    ensures forall i :: 0 <= i < |pts| ==> ts[i] == pts[i].time
  {
    seq(|pts|, i requires 0 <= i < |pts| => pts[i].time)
  }

  function Values(pts: seq<Point>): (vs: seq<real>)
    ensures |vs| == |pts|
    ensures forall i :: 0 <= i < |pts| ==> vs[i] == pts[i].value
  {
    seq(|pts|, i requires 0 <= i < |pts| => pts[i].value)
  }

  /** Extending a prefix by one element. */
  lemma PrefixSnoc<T>(s: seq<T>, k: nat)
    requires k < |s|
    ensures s[..k + 1] == s[..k] + [s[k]]
  {
  }

  /** A sequence that is not constant has its minimum strictly below its maximum. */
  lemma MinBelowMax(s: seq<real>)
    requires |s| >= 2 && !AllEqual(s)
    ensures Min(s) < Max(s)
  {
    var i :| 0 <= i < |s| && s[i] != s[0];
    assert Min(s) <= s[i] <= Max(s) && Min(s) <= s[0] <= Max(s);
  }

  /** On an ascending list the first position of a value is monotone in the value. */
  lemma IndexOfMonotone(s: seq<real>, v1: real, v2: real)
    requires Ascending(s) && v1 in s && v2 in s && v1 <= v2
    ensures IndexOf(s, v1) <= IndexOf(s, v2)
  {
  }
}
