/** The two value-only transforms of morph_sequence.py: morphAveragePitch
    shifts a contour onto another contour's average and drops what falls to
    zero or below; morphRange replaces every value by the target value at the
    nearest relative rank. */
module Rescale {
  import opened Basics
  import opened Relativize
  import opened Nearest
  import opened Sorting

  function Sum(s: seq<real>): real
  {
    if s == [] then 0.0 else s[0] + Sum(s[1..])
  }

  /** The strictly positive entries, in order. */
  function Positives(s: seq<real>): (r: seq<real>)
    ensures |r| <= |s|
    ensures forall v :: v in r <==> v in s && v > 0.0
    ensures |r| == |s| <==> forall i :: 0 <= i < |s| ==> s[i] > 0.0
  {
    if s == [] then []
    else
      var rest := Positives(s[1..]);
      assert forall v :: v in s <==> v == s[0] || v in s[1..];
      if s[0] > 0.0 then
        [s[0]] + rest
      else
        rest
  }

  function Mean(s: seq<real>): real
    requires |s| > 0
  {
    Sum(s) / (|s| as real)
  }

  /** Every value moved by toAverage - fromAverage, times kept. */
  function ShiftPoints(pts: seq<Point>, fromAverage: real, toAverage: real): (r: seq<Point>)
    ensures |r| == |pts|
  {
    seq(|pts|, i requires 0 <= i < |pts| => Point(pts[i].time, pts[i].value - fromAverage + toAverage))
  }

  /** The points whose value is strictly positive, in order. */
  function KeepPositivePoints(pts: seq<Point>): (r: seq<Point>)
    ensures |r| <= |pts|
    ensures forall p :: p in r <==> p in pts && p.value > 0.0
    ensures |r| == |pts| <==> forall i :: 0 <= i < |pts| ==> pts[i].value > 0.0
  {
    if pts == [] then []
    else
      var rest := KeepPositivePoints(pts[1..]);
      assert forall p :: p in pts <==> p == pts[0] || p in pts[1..];
      if pts[0].value > 0.0 then [pts[0]] + rest else rest
  }

  /** morphAveragePitch: fails on an empty source (the unpacking of an empty
      zip), and on a division by zero when either side has no positive value;
      otherwise shifts every source value by the difference of the averages of
      the positive values and keeps the points that stay positive. */
  function MorphAveragePitch(fromDataList: seq<Point>, toDataList: seq<Point>): (r: Result<seq<Point>>)
    ensures r.Failure? <==> |fromDataList| == 0 || |Positives(Values(fromDataList))| == 0
                            || |Positives(Values(toDataList))| == 0
    ensures r.Failure? ==> r.error == if |fromDataList| == 0 then EmptyDataList else ZeroDivision
    ensures r.Success? ==> |r.value| <= |fromDataList|
    ensures r.Success? ==> forall i :: 0 <= i < |r.value| ==> r.value[i].value > 0.0
  {
    if |fromDataList| == 0 then
      Failure(EmptyDataList)
    else
      var fromListNoZeroes := Positives(Values(fromDataList));
      var toListNoZeroes := Positives(Values(toDataList));
      if |fromListNoZeroes| == 0 || |toListNoZeroes| == 0 then
        Failure(ZeroDivision)
      else
        var fromAverage := Mean(fromListNoZeroes);
        var toAverage := Mean(toListNoZeroes);
        var r := KeepPositivePoints(ShiftPoints(fromDataList, fromAverage, toAverage));
        assert forall i :: 0 <= i < |r| ==> r[i] in r;
        Success(r)
  }

  /** When the source values are all positive and none falls to zero or below
      after the shift, the result has exactly the target's average. */
  lemma MorphAveragePitchHitsTarget(fromDataList: seq<Point>, toDataList: seq<Point>)
    requires |fromDataList| > 0 && |Positives(Values(toDataList))| > 0
    requires forall i :: 0 <= i < |fromDataList| ==> fromDataList[i].value > 0.0
    requires MorphAveragePitch(fromDataList, toDataList).Success?
    requires |MorphAveragePitch(fromDataList, toDataList).value| == |fromDataList|
    ensures Mean(Values(MorphAveragePitch(fromDataList, toDataList).value)) == Mean(Positives(Values(toDataList)))
  {
    var vs := Values(fromDataList);
    var fromListNoZeroes := Positives(vs);
    PositivesOfPositive(vs);
    var fromAverage := Mean(vs);
    var toAverage := Mean(Positives(Values(toDataList)));
    var shifted := ShiftPoints(fromDataList, fromAverage, toAverage);
    var r := KeepPositivePoints(shifted);
    assert r == MorphAveragePitch(fromDataList, toDataList).value;
    KeepAllPositive(shifted);
    ValuesOfShift(fromDataList, fromAverage, toAverage);
    MeanOfShift(vs, fromAverage, toAverage);
  }

  /** The points morphAveragePitch returns are exactly the source points
      moved by the difference of the two averages whose value stays positive. */
  lemma MorphAveragePitchMembers(fromDataList: seq<Point>, toDataList: seq<Point>, q: Point)
    requires MorphAveragePitch(fromDataList, toDataList).Success?
    ensures var fromAverage := Mean(Positives(Values(fromDataList)));
            var toAverage := Mean(Positives(Values(toDataList)));
            q in MorphAveragePitch(fromDataList, toDataList).value <==>
              q.value > 0.0 &&
              exists k :: 0 <= k < |fromDataList| &&
                          q == Point(fromDataList[k].time, fromDataList[k].value - fromAverage + toAverage)
  {
    var fromAverage := Mean(Positives(Values(fromDataList)));
    var toAverage := Mean(Positives(Values(toDataList)));
    ShiftMembers(fromDataList, fromAverage, toAverage, q);
  }

  lemma ShiftMembers(pts: seq<Point>, fromAverage: real, toAverage: real, q: Point)
    ensures q in ShiftPoints(pts, fromAverage, toAverage) <==>
              exists k :: 0 <= k < |pts| && q == Point(pts[k].time, pts[k].value - fromAverage + toAverage)
  {
    var sh := ShiftPoints(pts, fromAverage, toAverage);
    if q in sh {
      var k :| 0 <= k < |sh| && sh[k] == q;
    } else {
      forall k | 0 <= k < |pts|
        ensures q != Point(pts[k].time, pts[k].value - fromAverage + toAverage)
      {
        assert sh[k] in sh;
      }
    }
  }

  /** Keeping the positive points works point by point: it distributes over
      concatenation. */
  lemma {:induction false} KeepPositiveAppend(a: seq<Point>, b: seq<Point>)
    ensures KeepPositivePoints(a + b) == KeepPositivePoints(a) + KeepPositivePoints(b)
    decreases |a|
  {
    if a == [] {
      assert a + b == b;
    } else {
      assert (a + b)[0] == a[0];
      assert (a + b)[1..] == a[1..] + b;
      KeepPositiveAppend(a[1..], b);
    }
  }

  lemma ShiftPointsAppend(a: seq<Point>, b: seq<Point>, fromAverage: real, toAverage: real)
    ensures ShiftPoints(a + b, fromAverage, toAverage)
            == ShiftPoints(a, fromAverage, toAverage) + ShiftPoints(b, fromAverage, toAverage)
  {
  }

  /** morphAveragePitch treats every point on its own and in place: the
      shifted source with its non-positive points removed is the result for
      the points before position k, then point k shifted if its value stays
      positive, then the result for the points after k. With
      AveragedIsKeptShift this keeps the source order and repeated points. */
  lemma AroundIndex(pts: seq<Point>, k: nat, fromAverage: real, toAverage: real)
    requires k < |pts|
    ensures var moved := Point(pts[k].time, pts[k].value - fromAverage + toAverage);
            KeepPositivePoints(ShiftPoints(pts, fromAverage, toAverage))
              == KeepPositivePoints(ShiftPoints(pts[..k], fromAverage, toAverage))
                 + (if moved.value > 0.0 then [moved] else [])
                 + KeepPositivePoints(ShiftPoints(pts[k + 1..], fromAverage, toAverage))
  {
    assert pts == pts[..k] + [pts[k]] + pts[k + 1..];
    KeepShiftedPointwise(pts[..k], pts[k], pts[k + 1..], fromAverage, toAverage);
  }

  /** The points morphAveragePitch returns are the source points shifted by
      the difference of the averages of the positive values, with the points
      that fall to zero or below removed. */
  lemma AveragedIsKeptShift(fromDataList: seq<Point>, toDataList: seq<Point>)
    requires MorphAveragePitch(fromDataList, toDataList).Success?
    ensures MorphAveragePitch(fromDataList, toDataList).value
            == KeepPositivePoints(ShiftPoints(fromDataList, Mean(Positives(Values(fromDataList))),
                                              Mean(Positives(Values(toDataList)))))
  {
  }

  lemma KeepShiftedPointwise(a: seq<Point>, q: Point, b: seq<Point>, fromAverage: real, toAverage: real)
    ensures var moved := Point(q.time, q.value - fromAverage + toAverage);
            KeepPositivePoints(ShiftPoints(a + [q] + b, fromAverage, toAverage))
              == KeepPositivePoints(ShiftPoints(a, fromAverage, toAverage))
                 + (if moved.value > 0.0 then [moved] else [])
                 + KeepPositivePoints(ShiftPoints(b, fromAverage, toAverage))
  {
    var moved := Point(q.time, q.value - fromAverage + toAverage);
    var sa, sb := ShiftPoints(a, fromAverage, toAverage), ShiftPoints(b, fromAverage, toAverage);
    assert ShiftPoints(a + [q] + b, fromAverage, toAverage) == sa + [moved] + sb by {
      ShiftPointsAppend(a, [q], fromAverage, toAverage);
      ShiftPointsAppend(a + [q], b, fromAverage, toAverage);
      assert ShiftPoints([q], fromAverage, toAverage) == [moved];
    }
    assert KeepPositivePoints(sa + [moved] + sb)
           == KeepPositivePoints(sa) + KeepPositivePoints([moved]) + KeepPositivePoints(sb) by {
      KeepPositiveAppend(sa, [moved]);
      KeepPositiveAppend(sa + [moved], sb);
    }
    KeepSingle(moved);
  }

  lemma KeepSingle(p: Point)
    ensures KeepPositivePoints([p]) == if p.value > 0.0 then [p] else []
  {
    assert [p][1..] == [];
  }

  /** The kept points keep their relative order: the result is a subsequence
      of the shifted source, so ascending times stay ascending. */
  lemma {:induction false} KeepPositiveKeepsOrder(pts: seq<Point>)
    requires Ascending(Times(pts))
    ensures Ascending(Times(KeepPositivePoints(pts)))
    decreases |pts|
  {
    if pts != [] {
      var tail := pts[1..];
      assert Ascending(Times(tail)) by {
        assert forall k :: 0 <= k < |tail| ==> Times(tail)[k] == Times(pts)[k + 1];
      }
      KeepPositiveKeepsOrder(tail);
      var rest := KeepPositivePoints(tail);
      if pts[0].value > 0.0 {
        forall k | 0 <= k < |tail|
          ensures pts[0].time <= tail[k].time
        {
          assert Times(pts)[0] <= Times(pts)[k + 1];
        }
        KeptLowerBound(tail, pts[0].time);
        assert Times([pts[0]] + rest) == [pts[0].time] + Times(rest);
        ConsAscending(pts[0].time, Times(rest));
      }
    }
  }

  /** A lower bound on every time of the input bounds every kept time. */
  lemma KeptLowerBound(pts: seq<Point>, lo: real)
    requires forall k :: 0 <= k < |pts| ==> lo <= pts[k].time
    ensures forall k :: 0 <= k < |Times(KeepPositivePoints(pts))| ==> lo <= Times(KeepPositivePoints(pts))[k]
  {
    var r := KeepPositivePoints(pts);
    forall k | 0 <= k < |r|
      ensures lo <= Times(r)[k]
    {
      assert r[k] in r;
    }
  }

  lemma MorphAveragePitchKeepsTimeOrder(fromDataList: seq<Point>, toDataList: seq<Point>)
    requires MorphAveragePitch(fromDataList, toDataList).Success?
    requires Ascending(Times(fromDataList))
    ensures Ascending(Times(MorphAveragePitch(fromDataList, toDataList).value))
  {
    var fromAverage := Mean(Positives(Values(fromDataList)));
    var toAverage := Mean(Positives(Values(toDataList)));
    var shifted := ShiftPoints(fromDataList, fromAverage, toAverage);
    assert Times(shifted) == Times(fromDataList);
    KeepPositiveKeepsOrder(shifted);
  }

  function ShiftValues(s: seq<real>, fromAverage: real, toAverage: real): (r: seq<real>)
    ensures |r| == |s|
  {
    seq(|s|, i requires 0 <= i < |s| => s[i] - fromAverage + toAverage)
  }

  lemma ValuesOfShift(pts: seq<Point>, fromAverage: real, toAverage: real)
    ensures Values(ShiftPoints(pts, fromAverage, toAverage)) == ShiftValues(Values(pts), fromAverage, toAverage)
  {
  }

  lemma {:induction false} SumShiftValues(s: seq<real>, a: real, b: real)
    ensures Sum(ShiftValues(s, a, b)) == Sum(s) + (|s| as real) * (b - a)
    decreases |s|
  {
    if s != [] {
      var sh := ShiftValues(s, a, b);
      assert sh[1..] == ShiftValues(s[1..], a, b);
      SumShiftValues(s[1..], a, b);
    }
  }

  /** Shifting a series by b - Mean(s) moves its mean to b. */
  lemma MeanOfShift(s: seq<real>, a: real, b: real)
    requires |s| > 0 && a == Mean(s)
    ensures Mean(ShiftValues(s, a, b)) == b
  {
    SumShiftValues(s, a, b);
    var n := |s| as real;
    MeanShift(Sum(s), n, b - a);
  }

  lemma MeanShift(total: real, n: real, c: real)
    requires n > 0.0
    ensures (total + n * c) / n == total / n + c
  {
  }

  lemma {:induction false} PositivesOfPositive(s: seq<real>)
    requires forall i :: 0 <= i < |s| ==> s[i] > 0.0
    ensures Positives(s) == s
    decreases |s|
  {
    if s != [] {
      PositivesOfPositive(s[1..]);
      assert s == [s[0]] + s[1..];
    }
  }

  lemma {:induction false} KeepAllPositive(pts: seq<Point>)
    requires forall i :: 0 <= i < |pts| ==> pts[i].value > 0.0
    ensures KeepPositivePoints(pts) == pts
    decreases |pts|
  {
    if pts != [] {
      KeepAllPositive(pts[1..]);
      assert pts == [pts[0]] + pts[1..];
    }
  }

  /** The value series morphRange can rescale: sorted, it must be relativizable. */
  predicate RangeMorphable(pts: seq<Point>)
  {
    Relativizable(Values(pts))
  }

  lemma SameElements(s: seq<real>)
    ensures forall v :: v in SortReals(s) <==> v in s
  {
    var t := SortReals(s);
    assert forall v :: v in s <==> v in multiset(s);
    assert forall v :: v in t <==> v in multiset(t);
  }

  lemma AscendingMinMax(t: seq<real>)
    requires |t| > 0 && Ascending(t)
    ensures Min(t) == t[0] && Max(t) == t[|t| - 1]
  {
    var i := IndexOf(t, Min(t));
    var j := IndexOf(t, Max(t));
    assert t[0] <= t[i] && t[j] <= t[|t| - 1];
  }

  /** Sorting keeps the smallest and the largest value, at the two ends. */
  lemma SortedMinMax(s: seq<real>)
    requires |s| > 0
    ensures SortReals(s)[0] == Min(s)
    ensures SortReals(s)[|s| - 1] == Max(s)
    ensures Min(SortReals(s)) == Min(s) && Max(SortReals(s)) == Max(s)
  {
    var t := SortReals(s);
    SameElements(s);
    AscendingMinMax(t);
    assert Min(s) in t && Max(s) in t;
    var i, j := IndexOf(t, Min(s)), IndexOf(t, Max(s));
    assert t[0] <= t[i] && t[j] <= t[|t| - 1];
    assert t[0] in s && t[|t| - 1] in s;
    var a, b := IndexOf(s, t[0]), IndexOf(s, t[|t| - 1]);
    assert Min(s) <= s[a] && s[b] <= Max(s);
  }

  /** A series of two or more values is constant exactly when its minimum
      equals its maximum. */
  lemma AllEqualIffFlat(s: seq<real>)
    requires |s| > 0
    ensures AllEqual(s) <==> Min(s) == Max(s)
  {
    var i, j := IndexOf(s, Min(s)), IndexOf(s, Max(s));
    if Min(s) == Max(s) {
      assert forall k :: 0 <= k < |s| ==> Min(s) <= s[k] <= Max(s);
    }
  }

  /** Sorting changes neither the length nor whether the values are all equal. */
  lemma SortedRelativizable(s: seq<real>)
    ensures Relativizable(SortReals(s)) <==> Relativizable(s)
  {
    if |s| > 0 {
      SortedMinMax(s);
      AllEqualIffFlat(s);
      AllEqualIffFlat(SortReals(s));
    }
  }

  /** The rank match on the sorted value lists: the first position of
      `pitch` among the sorted source values gives its relative value, whose
      nearest relative value among the sorted target values is read back as
      that target value. */
  function RankMatch(fromSorted: seq<real>, toSorted: seq<real>, pitch: real): (v: real)
    requires Relativizable(fromSorted) && Relativizable(toSorted)
    requires pitch in fromSorted
    ensures v in toSorted
  {
    var fromRel := MakeSequenceRelative(fromSorted).value.0;
    var toRel := MakeSequenceRelative(toSorted).value.0;
    toSorted[NearestIndex(toRel, fromRel[IndexOf(fromSorted, pitch)])]
  }

  /** The rank match as written: through the unmodified halving search. */
  function RankMatchAsWritten(fromSorted: seq<real>, toSorted: seq<real>, pitch: real): (v: real)
    requires Relativizable(fromSorted) && Relativizable(toSorted)
    requires pitch in fromSorted
    ensures v in toSorted
  {
    var fromRel := MakeSequenceRelative(fromSorted).value.0;
    var toRel := MakeSequenceRelative(toSorted).value.0;
    toSorted[AsWrittenIndex(toRel, fromRel[IndexOf(fromSorted, pitch)])]
  }

  /** On sorted target values without repetitions the two rank matches agree. */
  lemma RankMatchAsWrittenWhenDistinct(fromSorted: seq<real>, toSorted: seq<real>, pitch: real)
    requires Relativizable(fromSorted) && Relativizable(toSorted)
    requires pitch in fromSorted && StrictlyAscending(toSorted)
    ensures RankMatchAsWritten(fromSorted, toSorted, pitch) == RankMatch(fromSorted, toSorted, pitch)
  {
    var (toRel, lo, hi) := MakeSequenceRelative(toSorted).value;
    RelativeSeqStrictlyAscending(toSorted, lo, hi);
    var fromRel := MakeSequenceRelative(fromSorted).value.0;
    AsWrittenIndexAgreesWhenStrict(toRel, fromRel[IndexOf(fromSorted, pitch)]);
  }

  /** The rank match as written can send the smallest source value to the
      largest target value: for source values [1, 2] and target values
      [100, 200, 200, 200] the relative target list is [0, 1, 1, 1], where
      the unmodified search for 0 returns 1, so 1 is matched with 200; the
      corrected rank match gives 100, the target minimum. */
  lemma RankMatchAsWrittenMissesMinimum()
    ensures var fromSorted, toSorted := [1.0, 2.0], [100.0, 200.0, 200.0, 200.0];
            && Relativizable(fromSorted) && Relativizable(toSorted)
            && RankMatchAsWritten(fromSorted, toSorted, 1.0) == 200.0
            && RankMatch(fromSorted, toSorted, 1.0) == 100.0
  {
    ConcreteRelative();
    ConcreteAsWrittenMatch();
    ConcreteCorrectedMatch();
  }

  lemma ConcreteAsWrittenMatch()
    requires Relativizable([1.0, 2.0]) && Relativizable([100.0, 200.0, 200.0, 200.0])
    requires MakeSequenceRelative([1.0, 2.0]).value.0 == [0.0, 1.0]
    requires MakeSequenceRelative([100.0, 200.0, 200.0, 200.0]).value.0 == [0.0, 1.0, 1.0, 1.0]
    ensures RankMatchAsWritten([1.0, 2.0], [100.0, 200.0, 200.0, 200.0], 1.0) == 200.0
  {
    var toRel := [0.0, 1.0, 1.0, 1.0];
    assert IndexOf([1.0, 2.0], 1.0) == 0;
    SmallestDifferenceMissesExactHit();
    assert IndexOf(toRel, 1.0) == 1;
  }

  lemma ConcreteCorrectedMatch()
    requires Relativizable([1.0, 2.0]) && Relativizable([100.0, 200.0, 200.0, 200.0])
    requires MakeSequenceRelative([1.0, 2.0]).value.0 == [0.0, 1.0]
    requires MakeSequenceRelative([100.0, 200.0, 200.0, 200.0]).value.0 == [0.0, 1.0, 1.0, 1.0]
    ensures RankMatch([1.0, 2.0], [100.0, 200.0, 200.0, 200.0], 1.0) == 100.0
  {
    var toRel := [0.0, 1.0, 1.0, 1.0];
    assert IndexOf([1.0, 2.0], 1.0) == 0;
    NearestOfConcrete();
    assert IndexOf(toRel, 0.0) == 0;
  }

  lemma ConcreteRelative()
    ensures var fromSorted, toSorted := [1.0, 2.0], [100.0, 200.0, 200.0, 200.0];
            && Relativizable(fromSorted) && Relativizable(toSorted)
            && MakeSequenceRelative(fromSorted).value.0 == [0.0, 1.0]
            && MakeSequenceRelative(toSorted).value.0 == [0.0, 1.0, 1.0, 1.0]
  {
    ConcreteSourceRelative();
    ConcreteTargetRelative();
  }

  lemma ConcreteSourceRelative()
    ensures Relativizable([1.0, 2.0]) && MakeSequenceRelative([1.0, 2.0]).value.0 == [0.0, 1.0]
  {
    var s := [1.0, 2.0];
    assert s[1] != s[0];
    assert Min(s) == 1.0 && Max(s) == 2.0;
    var rel := RelativeSeq(s, 1.0, 2.0);
    assert rel[0] == 0.0 && rel[1] == 1.0;
  }

  lemma ConcreteTargetRelative()
    ensures Relativizable([100.0, 200.0, 200.0, 200.0])
            && MakeSequenceRelative([100.0, 200.0, 200.0, 200.0]).value.0 == [0.0, 1.0, 1.0, 1.0]
  {
    var s := [100.0, 200.0, 200.0, 200.0];
    assert s[1] != s[0];
    assert Min(s) == 100.0 && Max(s) == 200.0;
    var rel := RelativeSeq(s, 100.0, 200.0);
    assert rel[0] == 0.0 && rel[1] == 1.0 && rel[2] == 1.0 && rel[3] == 1.0;
  }

  lemma NearestOfConcrete()
    ensures NearestValue([0.0, 1.0, 1.0, 1.0], 0.0) == 0.0
  {
    var s := [0.0, 1.0, 1.0, 1.0];
    assert s[..2] == [0.0, 1.0];
  }

  /** What morphRange gives a source value `pitch`. */
  function RangeValue(fromDataList: seq<Point>, toDataList: seq<Point>, pitch: real): (v: real)
    requires RangeMorphable(fromDataList) && RangeMorphable(toDataList)
    requires pitch in Values(fromDataList)
    ensures v in Values(toDataList)
  {
    SortedRelativizable(Values(fromDataList));
    SortedRelativizable(Values(toDataList));
    SameElements(Values(fromDataList));
    SameElements(Values(toDataList));
    RankMatch(SortReals(Values(fromDataList)), SortReals(Values(toDataList)), pitch)
  }

  /** On ascending lists the rank match sends the first value to the first
      and the last value to the last. */
  lemma RankMatchKeepsEnds(fromSorted: seq<real>, toSorted: seq<real>)
    requires Relativizable(fromSorted) && Relativizable(toSorted)
    requires Ascending(fromSorted) && Ascending(toSorted)
    ensures RankMatch(fromSorted, toSorted, fromSorted[0]) == toSorted[0]
    ensures RankMatch(fromSorted, toSorted, fromSorted[|fromSorted| - 1]) == toSorted[|toSorted| - 1]
  {
    AscendingMinMax(fromSorted);
    AscendingMinMax(toSorted);
    var fromRel := MakeSequenceRelative(fromSorted).value.0;
    var (toRel, tlo, thi) := MakeSequenceRelative(toSorted).value;
    RelativeSeqAscending(toSorted, tlo, thi);
    ExactHitIsNearest(toRel, 0);
    ExactHitIsNearest(toRel, |toRel| - 1);
    var lo := IndexOf(fromSorted, fromSorted[0]);
    var hi := IndexOf(fromSorted, fromSorted[|fromSorted| - 1]);
    assert fromRel[lo] == 0.0 && fromRel[hi] == 1.0;
    assert toRel[0] == 0.0 && toRel[|toRel| - 1] == 1.0;
  }

  /** On ascending lists the rank match is monotone. */
  lemma RankMatchMonotone(fromSorted: seq<real>, toSorted: seq<real>, p1: real, p2: real)
    requires Relativizable(fromSorted) && Relativizable(toSorted)
    requires Ascending(fromSorted) && Ascending(toSorted)
    requires p1 in fromSorted && p2 in fromSorted && p1 <= p2
    ensures RankMatch(fromSorted, toSorted, p1) <= RankMatch(fromSorted, toSorted, p2)
  {
    var (fromRel, flo, fhi) := MakeSequenceRelative(fromSorted).value;
    var (toRel, tlo, thi) := MakeSequenceRelative(toSorted).value;
    var i1, i2 := IndexOf(fromSorted, p1), IndexOf(fromSorted, p2);
    IndexOfMonotone(fromSorted, p1, p2);
    RelativeSeqOrder(fromSorted, flo, fhi, i1, i2);
    RelativeSeqAscending(toSorted, tlo, thi);
    LookupMonotone(toSorted, toRel, fromRel[i1], fromRel[i2]);
  }

  /** Reading a target value back through the nearest relative value is
      monotone when both target lists are ascending. */
  lemma LookupMonotone(toSorted: seq<real>, toRel: seq<real>, x1: real, x2: real)
    requires |toRel| == |toSorted| > 0 && Ascending(toRel) && Ascending(toSorted) && x1 <= x2
    ensures toSorted[NearestIndex(toRel, x1)] <= toSorted[NearestIndex(toRel, x2)]
  {
    NearestIndexMonotone(toRel, x1, x2);
  }

  /** The smallest source value becomes the smallest target value, and the
      largest source value the largest target value. */
  lemma RangeValueKeepsExtremes(fromDataList: seq<Point>, toDataList: seq<Point>)
    requires RangeMorphable(fromDataList) && RangeMorphable(toDataList)
    ensures RangeValue(fromDataList, toDataList, Min(Values(fromDataList))) == Min(Values(toDataList))
    ensures RangeValue(fromDataList, toDataList, Max(Values(fromDataList))) == Max(Values(toDataList))
  {
    var fv, tv := Values(fromDataList), Values(toDataList);
    SortedRelativizable(fv);
    SortedRelativizable(tv);
    SortedMinMax(fv);
    SortedMinMax(tv);
    RankMatchKeepsEnds(SortReals(fv), SortReals(tv));
  }

  /** morphRange keeps the order of the values: a larger source value never
      maps to a smaller target value, and equal values map to equal values. */
  lemma RangeValueMonotone(fromDataList: seq<Point>, toDataList: seq<Point>, p1: real, p2: real)
    requires RangeMorphable(fromDataList) && RangeMorphable(toDataList)
    requires p1 in Values(fromDataList) && p2 in Values(fromDataList) && p1 <= p2
    ensures RangeValue(fromDataList, toDataList, p1) <= RangeValue(fromDataList, toDataList, p2)
  {
    var fv, tv := Values(fromDataList), Values(toDataList);
    SortedRelativizable(fv);
    SortedRelativizable(tv);
    SameElements(fv);
    RankMatchMonotone(SortReals(fv), SortReals(tv), p1, p2);
  }

  /** A value present in an ascending list is its own nearest value, found at
      its first position. */
  lemma ExactHitIsNearest(s: seq<real>, k: nat)
    requires k < |s| && Ascending(s)
    ensures s[NearestIndex(s, s[k])] == s[k]
  {
    NearestValueIsNearest(s, s[k]);
  }

  /** The list morphRange returns: every source point's time with its
      rank-matched target value. */
  function RangeMorphed(fromDataList: seq<Point>, toDataList: seq<Point>): (r: seq<Point>)
    requires RangeMorphable(fromDataList) && RangeMorphable(toDataList)
    ensures |r| == |fromDataList| && Times(r) == Times(fromDataList)
    ensures forall i :: 0 <= i < |fromDataList| ==>
              r[i].value == RangeValue(fromDataList, toDataList, fromDataList[i].value)
  {
    seq(|fromDataList|, i requires 0 <= i < |fromDataList| =>
      assert fromDataList[i].value == Values(fromDataList)[i];
      Point(fromDataList[i].time, RangeValue(fromDataList, toDataList, fromDataList[i].value)))
  }

  /** morphRange: fails when either side's values are fewer than two or all
      equal; otherwise keeps every time and replaces every value by its
      rank-matched target value. */
  method MorphRange(fromDataList: seq<Point>, toDataList: seq<Point>) returns (r: Result<seq<Point>>)
    ensures r.Failure? <==> !RangeMorphable(fromDataList) || !RangeMorphable(toDataList)
    ensures r.Failure? ==> r.error == RelativizeSequenceError
    ensures r.Success? ==> r.value == RangeMorphed(fromDataList, toDataList)
  {
    var fromPitchList := Values(fromDataList);
    var toPitchList := Values(toDataList);
    var fromPitchListSorted := SortReals(fromPitchList);
    var toPitchListSorted := SortReals(toPitchList);
    SortedRelativizable(fromPitchList);
    SortedRelativizable(toPitchList);

    var fromRes := MakeSequenceRelative(fromPitchListSorted);
    if fromRes.Failure? {
      return Failure(fromRes.error);
    }
    var toRes := MakeSequenceRelative(toPitchListSorted);
    if toRes.Failure? {
      return Failure(toRes.error);
    }
    var fromListRel, toListRel := fromRes.value.0, toRes.value.0;
    var indexList := GetNearestMappingIndexList(fromListRel, toListRel);
    ValuesInSorted(fromDataList);
    var retList := LookupRanks(fromDataList, fromPitchListSorted, toPitchListSorted, fromListRel, toListRel, indexList);
    RangeMorphedByRanks(fromDataList, toDataList, retList);
    r := Success(retList);
  }

  lemma ValuesInSorted(pts: seq<Point>)
    ensures forall i :: 0 <= i < |pts| ==> pts[i].value in SortReals(Values(pts))
  {
    SameElements(Values(pts));
    assert forall i :: 0 <= i < |pts| ==> pts[i].value == Values(pts)[i];
  }

  lemma RangeMorphedByRanks(fromDataList: seq<Point>, toDataList: seq<Point>, retList: seq<Point>)
    requires RangeMorphable(fromDataList) && RangeMorphable(toDataList)
    requires Relativizable(SortReals(Values(fromDataList))) && Relativizable(SortReals(Values(toDataList)))
    requires forall i :: 0 <= i < |fromDataList| ==> fromDataList[i].value in SortReals(Values(fromDataList))
    requires |retList| == |fromDataList| && Times(retList) == Times(fromDataList)
    requires forall i :: 0 <= i < |fromDataList| ==>
               retList[i].value == RankMatch(SortReals(Values(fromDataList)), SortReals(Values(toDataList)),
                                             fromDataList[i].value)
    ensures retList == RangeMorphed(fromDataList, toDataList)
  {
    var target := RangeMorphed(fromDataList, toDataList);
    forall i | 0 <= i < |fromDataList|
      ensures retList[i] == target[i]
    {
      assert Times(retList)[i] == Times(target)[i];
      RangeValueIsRankMatch(fromDataList, toDataList, fromDataList[i].value);
    }
  }

  lemma RangeValueIsRankMatch(fromDataList: seq<Point>, toDataList: seq<Point>, pitch: real)
    requires RangeMorphable(fromDataList) && RangeMorphable(toDataList)
    requires Relativizable(SortReals(Values(fromDataList))) && Relativizable(SortReals(Values(toDataList)))
    requires pitch in Values(fromDataList) && pitch in SortReals(Values(fromDataList))
    ensures RangeValue(fromDataList, toDataList, pitch)
            == RankMatch(SortReals(Values(fromDataList)), SortReals(Values(toDataList)), pitch)
  {
  }

  /** When the target values are all distinct, morphRange as written gives
      every source value the value the model gives it. */
  lemma RangeValueAsWrittenWhenDistinct(fromDataList: seq<Point>, toDataList: seq<Point>, pitch: real)
    requires RangeMorphable(fromDataList) && RangeMorphable(toDataList)
    requires Relativizable(SortReals(Values(fromDataList))) && Relativizable(SortReals(Values(toDataList)))
    requires pitch in Values(fromDataList) && pitch in SortReals(Values(fromDataList))
    requires StrictlyAscending(SortReals(Values(toDataList)))
    ensures RankMatchAsWritten(SortReals(Values(fromDataList)), SortReals(Values(toDataList)), pitch)
            == RangeValue(fromDataList, toDataList, pitch)
  {
    RangeValueIsRankMatch(fromDataList, toDataList, pitch);
    RankMatchAsWrittenWhenDistinct(SortReals(Values(fromDataList)), SortReals(Values(toDataList)), pitch);
  }

  /** The loop of morphRange, given the sorted lists and the index list. */
  method LookupRanks(fromDataList: seq<Point>, fromPitchListSorted: seq<real>, toPitchListSorted: seq<real>,
                     fromListRel: seq<real>, toListRel: seq<real>, indexList: seq<nat>)
    returns (retList: seq<Point>)
    requires Relativizable(fromPitchListSorted) && Relativizable(toPitchListSorted)
    requires fromListRel == MakeSequenceRelative(fromPitchListSorted).value.0
    requires toListRel == MakeSequenceRelative(toPitchListSorted).value.0
    requires forall i :: 0 <= i < |fromDataList| ==> fromDataList[i].value in fromPitchListSorted
    requires |indexList| == |fromListRel|
    requires forall i :: 0 <= i < |indexList| ==> indexList[i] == NearestIndex(toListRel, fromListRel[i])
    ensures |retList| == |fromDataList| && Times(retList) == Times(fromDataList)
    ensures forall i :: 0 <= i < |fromDataList| ==>
              retList[i].value == RankMatch(fromPitchListSorted, toPitchListSorted, fromDataList[i].value)
  {
    ghost var target := seq(|fromDataList|, i requires 0 <= i < |fromDataList| =>
      Point(fromDataList[i].time, RankMatch(fromPitchListSorted, toPitchListSorted, fromDataList[i].value)));
    retList := [];
    for n := 0 to |fromDataList|
      invariant retList == target[..n]
    {
      var time, pitch := fromDataList[n].time, fromDataList[n].value;
      var fromI := IndexOf(fromPitchListSorted, pitch);
      var toI := indexList[fromI];
      var newPitch := toPitchListSorted[toI];
      PrefixSnoc(target, n);
      retList := retList + [Point(time, newPitch)];
    }
    assert target[..|fromDataList|] == target;
  }
}
