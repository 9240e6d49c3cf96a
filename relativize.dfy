/** The sequence relativizer of morph_sequence.py: an affine map of a series
    onto [0,1], its inverse, and the same two maps applied to the time axis
    of a point list. */
module Relativize {
  import opened Basics

  /** A series that can be made relative: at least two values, not all equal. */
  predicate Relativizable(s: seq<real>)
  {
    |s| >= 2 && !AllEqual(s)
  }

  function ToRelative(v: real, lo: real, hi: real): real
    requires lo < hi
  {
    (v - lo) / (hi - lo)
  }

  function ToAbsolute(v: real, lo: real, hi: real): real
  {
    v * (hi - lo) + lo
  }

  lemma RelativeRoundTrip(v: real, lo: real, hi: real)
    requires lo < hi
    ensures ToAbsolute(ToRelative(v, lo, hi), lo, hi) == v
  {
  }

  lemma DivOrder(x: real, y: real, d: real)
    requires d > 0.0
    ensures x <= y <==> x / d <= y / d
    ensures x == y <==> x / d == y / d
  {
  }

  lemma MulBounds(v: real, d: real)
    requires 0.0 <= v <= 1.0 && d > 0.0
    ensures 0.0 <= v * d <= d
  {
    assert d - v * d == (1.0 - v) * d;
  }

  /** The relative map is strictly increasing, so it keeps the order of values. */
  lemma RelativeOrder(a: real, b: real, lo: real, hi: real)
    requires lo < hi
    ensures a <= b <==> ToRelative(a, lo, hi) <= ToRelative(b, lo, hi)
    ensures a == b <==> ToRelative(a, lo, hi) == ToRelative(b, lo, hi)
  {
    DivOrder(a - lo, b - lo, hi - lo);
  }

  /** The relative map sends [lo, hi] onto [0, 1], lo to 0 and hi to 1. */
  lemma RelativeBounds(v: real, lo: real, hi: real)
    requires lo <= v <= hi && lo < hi
    ensures 0.0 <= ToRelative(v, lo, hi) <= 1.0
    ensures v == lo ==> ToRelative(v, lo, hi) == 0.0
    ensures v == hi ==> ToRelative(v, lo, hi) == 1.0
  {
    DivOrder(0.0, v - lo, hi - lo);
    DivOrder(v - lo, hi - lo, hi - lo);
    assert (hi - lo) / (hi - lo) == 1.0;
    assert 0.0 / (hi - lo) == 0.0;
  }

  /** The absolute map sends [0, 1] onto [lo, hi]. */
  lemma AbsoluteBounds(v: real, lo: real, hi: real)
    requires 0.0 <= v <= 1.0 && lo < hi
    ensures lo <= ToAbsolute(v, lo, hi) <= hi
  {
    var d := hi - lo;
    MulBounds(v, d);
    var p := v * d;
    assert ToAbsolute(v, lo, hi) == lo + p;
    assert lo + p <= lo + d;
  }

  /** Each value of `s` mapped to its relative position in [lo, hi]. */
  function RelativeSeq(s: seq<real>, lo: real, hi: real): (rel: seq<real>)
    requires lo < hi
    requires forall i :: 0 <= i < |s| ==> lo <= s[i] <= hi
    ensures |rel| == |s|
    ensures forall i :: 0 <= i < |s| ==> 0.0 <= rel[i] <= 1.0
    ensures forall i :: 0 <= i < |s| ==> (s[i] == lo <==> rel[i] == 0.0)
    ensures forall i :: 0 <= i < |s| ==> (s[i] == hi <==> rel[i] == 1.0)
  {
    var rel := seq(|s|, i requires 0 <= i < |s| => ToRelative(s[i], lo, hi));
    forall i | 0 <= i < |s|
      ensures 0.0 <= rel[i] <= 1.0
      ensures s[i] == lo <==> rel[i] == 0.0
      ensures s[i] == hi <==> rel[i] == 1.0
    {
      RelativeBounds(s[i], lo, hi);
      RelativeOrder(s[i], lo, lo, hi);
      RelativeOrder(s[i], hi, lo, hi);
    }
    rel
  }

  /** The relative series orders its entries exactly as the original does. */
  lemma RelativeSeqOrder(s: seq<real>, lo: real, hi: real, i: nat, j: nat)
    requires lo < hi
    requires forall k :: 0 <= k < |s| ==> lo <= s[k] <= hi
    requires i < |s| && j < |s|
    ensures s[i] <= s[j] <==> RelativeSeq(s, lo, hi)[i] <= RelativeSeq(s, lo, hi)[j]
    ensures s[i] == s[j] <==> RelativeSeq(s, lo, hi)[i] == RelativeSeq(s, lo, hi)[j]
  {
    RelativeOrder(s[i], s[j], lo, hi);
  }

  /** Relativizing keeps an ascending series ascending. */
  lemma RelativeSeqAscending(s: seq<real>, lo: real, hi: real)
    requires lo < hi
    requires forall k :: 0 <= k < |s| ==> lo <= s[k] <= hi
    requires Ascending(s)
    ensures Ascending(RelativeSeq(s, lo, hi))
  {
    forall i, j | 0 <= i <= j < |s|
      ensures RelativeSeq(s, lo, hi)[i] <= RelativeSeq(s, lo, hi)[j]
    {
      RelativeSeqOrder(s, lo, hi, i, j);
    }
  }

  /** Relativizing keeps a strictly ascending series strictly ascending. */
  lemma RelativeSeqStrictlyAscending(s: seq<real>, lo: real, hi: real)
    requires lo < hi
    requires forall k :: 0 <= k < |s| ==> lo <= s[k] <= hi
    requires StrictlyAscending(s)
    ensures StrictlyAscending(RelativeSeq(s, lo, hi))
  {
    forall i, j | 0 <= i < j < |s|
      ensures RelativeSeq(s, lo, hi)[i] < RelativeSeq(s, lo, hi)[j]
    {
      RelativeSeqOrder(s, lo, hi, i, j);
    }
  }

  /** makeSequenceRelative: each value mapped to (value - min) / (max - min),
      returned with (min, max); fails when there are fewer than two values or
      they are all equal. */
  function MakeSequenceRelative(absVSequence: seq<real>): (r: Result<(seq<real>, real, real)>)
    ensures r.Failure? <==> !Relativizable(absVSequence)
    ensures r.Failure? ==> r.error == RelativizeSequenceError
    ensures r.Success? ==>
      && r.value.1 == Min(absVSequence) && r.value.2 == Max(absVSequence) && r.value.1 < r.value.2
      && r.value.0 == RelativeSeq(absVSequence, r.value.1, r.value.2)
  {
    if |absVSequence| < 2 || AllEqual(absVSequence) then
      Failure(RelativizeSequenceError)
    else
      var minV := Min(absVSequence);
      var maxV := Max(absVSequence);
      MinBelowMax(absVSequence);
      Success((RelativeSeq(absVSequence, minV, maxV), minV, maxV))
  }

  /** makeSequenceAbsolute: each value mapped to value * (max - min) + min. */
  function MakeSequenceAbsolute(relVSequence: seq<real>, minV: real, maxV: real): (r: seq<real>)
    ensures |r| == |relVSequence|
    ensures forall i :: 0 <= i < |r| && relVSequence[i] == 0.0 ==> r[i] == minV
    ensures forall i :: 0 <= i < |r| && relVSequence[i] == 1.0 ==> r[i] == maxV
    ensures minV < maxV ==> forall i :: 0 <= i < |r| && 0.0 <= relVSequence[i] <= 1.0 ==>
              minV <= r[i] <= maxV
  {
    var r := seq(|relVSequence|, i requires 0 <= i < |relVSequence| =>
                   ToAbsolute(relVSequence[i], minV, maxV));
    assert minV < maxV ==> forall i :: 0 <= i < |r| && 0.0 <= relVSequence[i] <= 1.0 ==>
             minV <= r[i] <= maxV by {
      if minV < maxV {
        forall i | 0 <= i < |r| && 0.0 <= relVSequence[i] <= 1.0
          ensures minV <= r[i] <= maxV
        {
          AbsoluteBounds(relVSequence[i], minV, maxV);
        }
      }
    }
    r
  }

  /** makeSequenceAbsolute undoes makeSequenceRelative exactly. */
  lemma {:induction false} SequenceRoundTrip(s: seq<real>)
    requires Relativizable(s)
    ensures MakeSequenceRelative(s).Success?
    ensures var (rel, minV, maxV) := MakeSequenceRelative(s).value;
            MakeSequenceAbsolute(rel, minV, maxV) == s
  {
    var (rel, minV, maxV) := MakeSequenceRelative(s).value;
    var back := MakeSequenceAbsolute(rel, minV, maxV);
    forall i | 0 <= i < |s|
      ensures back[i] == s[i]
    {
      RelativeRoundTrip(s[i], minV, maxV);
    }
  }

  /** Replaces the time of every point, keeping its value. */
  function WithTimes(pts: seq<Point>, ts: seq<real>): (r: seq<Point>)
    requires |ts| == |pts|
    ensures |r| == |pts| && Times(r) == ts && Values(r) == Values(pts)
  {
    seq(|pts|, i requires 0 <= i < |pts| => Point(ts[i], pts[i].value))
  }

  /** _makeTimingRelative: times relativized onto [0,1], values untouched,
      returned with the start and end time. */
  function MakeTimingRelative(absoluteDataList: seq<Point>): (r: Result<(seq<Point>, real, real)>)
    ensures r.Failure? <==> !Relativizable(Times(absoluteDataList))
    ensures r.Failure? ==> r.error == RelativizeSequenceError
    ensures r.Success? ==>
      var (rel, startTime, endTime) := r.value;
      && |rel| == |absoluteDataList|
      && Values(rel) == Values(absoluteDataList)
      && startTime == Min(Times(absoluteDataList)) && endTime == Max(Times(absoluteDataList))
      && startTime < endTime
      && (forall i :: 0 <= i < |rel| ==> 0.0 <= rel[i].time <= 1.0)
      && (Ascending(Times(absoluteDataList)) ==> Ascending(Times(rel)))
  {
    match MakeSequenceRelative(Times(absoluteDataList))
    case Failure(e) => Failure(e)
    case Success((relTimingSeq, startTime, endTime)) =>
      assert Ascending(Times(absoluteDataList)) ==> Ascending(relTimingSeq) by {
        if Ascending(Times(absoluteDataList)) {
          RelativeSeqAscending(Times(absoluteDataList), startTime, endTime);
        }
      }
      Success((WithTimes(absoluteDataList, relTimingSeq), startTime, endTime))
  }

  /** Strictly ascending times stay strictly ascending in relative time. */
  lemma TimingRelativeKeepsStrictOrder(pts: seq<Point>)
    requires Relativizable(Times(pts)) && StrictlyAscending(Times(pts))
    ensures StrictlyAscending(Times(MakeTimingRelative(pts).value.0))
  {
    var (rel, lo, hi) := MakeSequenceRelative(Times(pts)).value;
    RelativeSeqStrictlyAscending(Times(pts), lo, hi);
    assert Times(MakeTimingRelative(pts).value.0) == rel;
  }

  /** _makeTimingAbsolute: times mapped back into [startTime, endTime]. */
  function MakeTimingAbsolute(relativeDataList: seq<Point>, startTime: real, endTime: real): (r: seq<Point>)
    ensures |r| == |relativeDataList| && Values(r) == Values(relativeDataList)
    ensures startTime < endTime ==> forall i :: 0 <= i < |r| && 0.0 <= relativeDataList[i].time <= 1.0 ==>
              startTime <= r[i].time <= endTime
  {
    WithTimes(relativeDataList, MakeSequenceAbsolute(Times(relativeDataList), startTime, endTime))
  }

  /** _makeTimingAbsolute keeps the time order of the points. */
  lemma TimingAbsoluteKeepsOrder(relativeDataList: seq<Point>, startTime: real, endTime: real)
    requires startTime <= endTime && Ascending(Times(relativeDataList))
    ensures Ascending(Times(MakeTimingAbsolute(relativeDataList, startTime, endTime)))
  {
    var r := MakeTimingAbsolute(relativeDataList, startTime, endTime);
    var rt := Times(relativeDataList);
    var d := endTime - startTime;
    forall i, j | 0 <= i <= j < |r|
      ensures Times(r)[i] <= Times(r)[j]
    {
      assert rt[i] <= rt[j];
      var gap := rt[j] - rt[i];
      assert Times(r)[j] - Times(r)[i] == gap * d;
      MulNonNegative(gap, d);
    }
  }

  lemma MulNonNegative(x: real, y: real)
    requires x >= 0.0 && y >= 0.0
    ensures x * y >= 0.0
  {
  }

  /** _makeTimingAbsolute undoes _makeTimingRelative exactly. */
  lemma {:induction false} TimingRoundTrip(pts: seq<Point>)
    requires Relativizable(Times(pts))
    ensures MakeTimingRelative(pts).Success?
    ensures var (rel, startTime, endTime) := MakeTimingRelative(pts).value;
            MakeTimingAbsolute(rel, startTime, endTime) == pts
  {
    var (rel, startTime, endTime) := MakeTimingRelative(pts).value;
    SequenceRoundTrip(Times(pts));
    assert Times(rel) == MakeSequenceRelative(Times(pts)).value.0;
    var back := MakeTimingAbsolute(rel, startTime, endTime);
    forall i | 0 <= i < |pts|
      ensures back[i] == pts[i]
    {
      assert back[i].time == Times(back)[i];
      assert back[i].value == Values(rel)[i] == pts[i].value;
    }
  }
}
