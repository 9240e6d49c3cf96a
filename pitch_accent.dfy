/** The pitch-accent editor of modify_pitch_accent.py: a single peak that
    can be raised, widened by a plateau, shifted in time and spliced back
    into a full pitch contour. */
module PitchAccents {
  import opened Basics
  import opened Sorting

  datatype Option<T> = None | Some(value: T)

  /** _deletePoints: the points strictly before `start` or strictly after
      `end`, in their original order. */
  function DeletePoints(f0List: seq<Point>, start: real, end: real): (r: seq<Point>)
    ensures |r| <= |f0List|
  {
    if f0List == [] then []
    else
      var rest := DeletePoints(f0List[1..], start, end);
      if f0List[0].time < start || f0List[0].time > end then [f0List[0]] + rest else rest
  }

  /** A point survives the deletion exactly when it lies outside [start, end]. */
  lemma {:induction false} DeletePointsMembers(f0List: seq<Point>, start: real, end: real, p: Point)
    ensures p in DeletePoints(f0List, start, end) <==> p in f0List && (p.time < start || p.time > end)
    decreases |f0List|
  {
    if f0List != [] {
      DeletePointsMembers(f0List[1..], start, end, p);
      assert p in f0List <==> p == f0List[0] || p in f0List[1..];
    }
  }

  /** The deletion works point by point: deleting from a concatenation is
      the concatenation of the deletions, so the survivors keep their order. */
  lemma {:induction false} DeletePointsAppend(a: seq<Point>, b: seq<Point>, start: real, end: real)
    ensures DeletePoints(a + b, start, end) == DeletePoints(a, start, end) + DeletePoints(b, start, end)
    decreases |a|
  {
    if a != [] {
      assert (a + b)[1..] == a[1..] + b;
      DeletePointsAppend(a[1..], b, start, end);
    } else {
      assert a + b == b;
    }
  }

  /** A list with no point in [start, end] is left as it is. */
  lemma {:induction false} DeletePointsNothingInside(f0List: seq<Point>, start: real, end: real)
    requires forall i :: 0 <= i < |f0List| ==> f0List[i].time < start || f0List[i].time > end
    ensures DeletePoints(f0List, start, end) == f0List
    decreases |f0List|
  {
    if f0List != [] {
      DeletePointsNothingInside(f0List[1..], start, end);
      assert f0List == [f0List[0]] + f0List[1..];
    }
  }

  /** The scale of adjustPeakHeight: a value gains heightAmount in proportion
      to its height above the accent's minimum. */
  function ScaleValue(x: real, heightAmount: real, minV: real, maxV: real): real
    requires minV < maxV
  {
    x + heightAmount * (x - minV) / (maxV - minV)
  }

  lemma ScaleValueAtEnds(heightAmount: real, minV: real, maxV: real)
    requires minV < maxV
    ensures ScaleValue(minV, heightAmount, minV, maxV) == minV
    ensures ScaleValue(maxV, heightAmount, minV, maxV) == maxV + heightAmount
  {
    var d := maxV - minV;
    assert heightAmount * (minV - minV) == 0.0;
    assert heightAmount * (maxV - minV) / d == heightAmount;
  }

  /** Every value scaled against the minimum and maximum of the list's values. */
  function ScalePeak(pts: seq<Point>, heightAmount: real): (r: seq<Point>)
    requires |pts| > 0 && Min(Values(pts)) < Max(Values(pts))
    ensures |r| == |pts| && Times(r) == Times(pts)
  {
    var minV, maxV := Min(Values(pts)), Max(Values(pts));
    seq(|pts|, i requires 0 <= i < |pts| => Point(pts[i].time, ScaleValue(pts[i].value, heightAmount, minV, maxV)))
  }

  /** adjustPeakHeight keeps the foot and raises the peak by heightAmount:
      points at the minimum keep their value, points at the maximum gain
      exactly heightAmount, and every point is scaled against the current
      minimum and maximum. */
  lemma ScalePeakEffect(pts: seq<Point>, heightAmount: real, i: nat)
    requires |pts| > 0 && Min(Values(pts)) < Max(Values(pts)) && i < |pts|
    ensures ScalePeak(pts, heightAmount)[i].value
              == ScaleValue(pts[i].value, heightAmount, Min(Values(pts)), Max(Values(pts)))
    ensures pts[i].value == Min(Values(pts)) ==> ScalePeak(pts, heightAmount)[i].value == pts[i].value
    ensures pts[i].value == Max(Values(pts)) ==> ScalePeak(pts, heightAmount)[i].value == pts[i].value + heightAmount
  {
    var minV, maxV := Min(Values(pts)), Max(Values(pts));
    var x := pts[i].value;
    assert ScalePeak(pts, heightAmount)[i].value == ScaleValue(x, heightAmount, minV, maxV);
    if x == minV || x == maxV {
      ScaleValueAtEnds(heightAmount, minV, maxV);
    }
  }

  /** abs(int(x)): Python's int() truncates toward zero. */
  function AbsTrunc(x: real): (n: nat)
    ensures n as real <= Abs(x) < n as real + 1.0
  {
    var t := if x >= 0.0 then x.Floor else -((-x).Floor);
    if t < 0 then -t else t
  }

  /** The offsets of the plateau points from the peak time: with a sampling
      step, 0, f, 2f, ... up to abs(int(amount / f)) steps, whatever the sign
      of the amount; without one, the amount itself. */
  function PlateauOffsets(plateauAmount: real, pitchSampFreq: Option<real>): (r: seq<real>)
    requires pitchSampFreq.Some? ==> pitchSampFreq.value != 0.0
    ensures |r| > 0
    ensures pitchSampFreq.None? ==> r == [plateauAmount]
    ensures pitchSampFreq.Some? ==> |r| == AbsTrunc(plateauAmount / pitchSampFreq.value) + 1
    ensures pitchSampFreq.Some? ==> forall k :: 0 <= k < |r| ==> r[k] == k as real * pitchSampFreq.value
  {
    match pitchSampFreq
    case None => [plateauAmount]
    case Some(f) =>
      var numSteps := AbsTrunc(plateauAmount / f);
      seq(numSteps + 1, k requires 0 <= k <= numSteps => k as real * f)
  }

  /** With a positive sampling step the offsets are never negative, even for
      a plateau that grows to the left. */
  lemma PlateauOffsetsNonNegative(plateauAmount: real, f: real)
    requires f > 0.0
    ensures forall k :: 0 <= k < |PlateauOffsets(plateauAmount, Some(f))| ==>
              PlateauOffsets(plateauAmount, Some(f))[k] >= 0.0
  {
    var r := PlateauOffsets(plateauAmount, Some(f));
    forall k | 0 <= k < |r|
      ensures r[k] >= 0.0
    {
      var kr := k as real;
      assert kr >= 0.0;
      assert r[k] == kr * f;
    }
  }

  /** Every time moved by `amount`, values kept. */
  function ShiftTimes(pts: seq<Point>, amount: real): (r: seq<Point>)
    ensures |r| == |pts| && Values(r) == Values(pts)
    ensures forall i :: 0 <= i < |pts| ==> r[i].time == pts[i].time + amount
  {
    seq(|pts|, i requires 0 <= i < |pts| => Point(pts[i].time + amount, pts[i].value))
  }

  /** The plateau points: the peak's value at the peak time plus each offset. */
  function PlateauPoints(maxPoint: Point, offsets: seq<real>): (r: seq<Point>)
    ensures |r| == |offsets|
    ensures forall k :: 0 <= k < |offsets| ==> r[k] == Point(maxPoint.time + offsets[k], maxPoint.value)
  {
    seq(|offsets|, k requires 0 <= k < |offsets| => Point(maxPoint.time + offsets[k], maxPoint.value))
  }

  /** The point list after addPlateau with a non-zero amount. A negative
      amount splits before the peak and shifts the left side; a positive one
      splits after the peak and shifts the right side. */
  function Plateaued(pts: seq<Point>, peakI: nat, plateauAmount: real, offsets: seq<real>): (r: seq<Point>)
    requires peakI < |pts|
    ensures |r| == |pts| + |offsets|
  {
    var plateauPoints := PlateauPoints(pts[peakI], offsets);
    if plateauAmount < 0.0 then
      ShiftTimes(pts[..peakI], plateauAmount) + plateauPoints + pts[peakI..]
    else
      pts[..peakI + 1] + plateauPoints + ShiftTimes(pts[peakI + 1..], plateauAmount)
  }

  /** A plateau to the right: points 0..peakI are kept, the plateau points
      follow, and the points after the peak come last, shifted by the amount. */
  lemma PlateauedRight(pts: seq<Point>, peakI: nat, plateauAmount: real, offsets: seq<real>)
    requires peakI < |pts| && plateauAmount > 0.0
    ensures var r := Plateaued(pts, peakI, plateauAmount, offsets);
            var m := |offsets|;
            && r[..peakI + 1] == pts[..peakI + 1]
            && (forall k :: 0 <= k < m ==>
                  r[peakI + 1 + k] == Point(pts[peakI].time + offsets[k], pts[peakI].value))
            && (forall i :: peakI < i < |pts| ==>
                  r[i + m] == Point(pts[i].time + plateauAmount, pts[i].value))
  {
    var m := |offsets|;
    var left, plateau, right := pts[..peakI + 1], PlateauPoints(pts[peakI], offsets), ShiftTimes(pts[peakI + 1..], plateauAmount);
    var r := left + plateau + right;
    assert r[..peakI + 1] == left;
    forall k | 0 <= k < m
      ensures r[peakI + 1 + k] == plateau[k]
    {
    }
    forall i | peakI < i < |pts|
      ensures r[i + m] == Point(pts[i].time + plateauAmount, pts[i].value)
    {
      assert r[i + m] == right[i - peakI - 1];
      assert pts[peakI + 1..][i - peakI - 1] == pts[i];
    }
  }

  /** A plateau to the left: the points before peakI are shifted by the
      amount, the plateau points follow, and the points from peakI on are kept. */
  lemma PlateauedLeft(pts: seq<Point>, peakI: nat, plateauAmount: real, offsets: seq<real>)
    requires peakI < |pts| && plateauAmount < 0.0
    ensures var r := Plateaued(pts, peakI, plateauAmount, offsets);
            var m := |offsets|;
            && (forall i :: 0 <= i < peakI ==> r[i] == Point(pts[i].time + plateauAmount, pts[i].value))
            && (forall k :: 0 <= k < m ==>
                  r[peakI + k] == Point(pts[peakI].time + offsets[k], pts[peakI].value))
            && r[peakI + m..] == pts[peakI..]
  {
    var m := |offsets|;
    var left, plateau, right := ShiftTimes(pts[..peakI], plateauAmount), PlateauPoints(pts[peakI], offsets), pts[peakI..];
    var r := left + plateau + right;
    forall i | 0 <= i < peakI
      ensures r[i] == Point(pts[i].time + plateauAmount, pts[i].value)
    {
      assert r[i] == left[i];
    }
    forall k | 0 <= k < m
      ensures r[peakI + k] == plateau[k]
    {
    }
    assert r[peakI + m..] == right;
  }

  /** The index of the first maximum value. */
  function PeakIndex(pts: seq<Point>): (i: nat)
    requires |pts| > 0
    ensures i < |pts| && pts[i].value == Max(Values(pts))
    ensures forall j :: 0 <= j < i ==> pts[j].value < pts[i].value
  {
    var vs := Values(pts);
    var i := IndexOf(vs, Max(vs));
    assert forall j :: 0 <= j < i ==> vs[j] <= Max(vs) && vs[j] != Max(vs);
    i
  }

  /** The window the accent now covers: its first and last times, widened by
      the accumulated left and right shifts. */
  function CoveredSpan(pts: seq<Point>, netLeftShift: real, netRightShift: real): (span: (real, real))
    requires |pts| > 0
    ensures span.0 == pts[0].time + (if netLeftShift < 0.0 then netLeftShift else 0.0)
    ensures span.1 == pts[|pts| - 1].time + (if netRightShift > 0.0 then netRightShift else 0.0)
  {
    var start := pts[0].time;
    var stop := pts[|pts| - 1].time;
    var start' := if netLeftShift < 0.0 then start + netLeftShift else start;
    var stop' := if netRightShift > 0.0 then stop + netRightShift else stop;
    (start', stop')
  }

  class PitchAccent {
    var pointList: seq<Point>
    var netLeftShift: real
    var netRightShift: real
    const peakI: nat
    const minT: real
    const maxT: real

    /** No edit removes points, so the peak index fixed at construction stays
        valid; the left shift only accumulates negative amounts and the right
        shift only positive ones. */
    ghost predicate Valid()
      reads this
    {
      peakI < |pointList| && netLeftShift <= 0.0 <= netRightShift
    }

    /** __init__: a copy of the points, the first index of the largest value,
        the time span, and no shift yet. */
    constructor (pts: seq<Point>)
      requires |pts| > 0
      ensures Valid()
      ensures pointList == pts && netLeftShift == 0.0 && netRightShift == 0.0
      ensures peakI == PeakIndex(pts)
      ensures minT == Min(Times(pts)) && maxT == Max(Times(pts))
    {
      pointList := pts;
      netLeftShift := 0.0;
      netRightShift := 0.0;
      var pitchList := Values(pts);
      var maxV := Max(pitchList);
      peakI := IndexOf(pitchList, maxV);
      var timeList := Times(pts);
      minT := Min(timeList);
      maxT := Max(timeList);
    }

    /** adjustPeakHeight: a zero amount changes nothing; otherwise every value
        is scaled against the current minimum and maximum. */
    method AdjustPeakHeight(heightAmount: real)
      requires Valid()
      requires heightAmount != 0.0 ==> Min(Values(pointList)) < Max(Values(pointList))
      modifies this
      ensures Valid()
      ensures netLeftShift == old(netLeftShift) && netRightShift == old(netRightShift)
      ensures heightAmount == 0.0 ==> pointList == old(pointList)
      ensures heightAmount != 0.0 ==> pointList == ScalePeak(old(pointList), heightAmount)
    {
      if heightAmount == 0.0 {
        return;
      }
      pointList := ScalePeak(pointList, heightAmount);
    }

    /** addPlateau: a zero amount changes nothing; otherwise the plateau
        points are spliced in next to the stored peak index and the pushed
        side is shifted by the amount, which the matching shift records. */
    method AddPlateau(plateauAmount: real, pitchSampFreq: Option<real>)
      requires Valid()
      requires pitchSampFreq.Some? ==> pitchSampFreq.value != 0.0
      modifies this
      ensures Valid()
      ensures plateauAmount == 0.0 ==> pointList == old(pointList)
      ensures plateauAmount != 0.0 ==>
                pointList == Plateaued(old(pointList), peakI, plateauAmount, PlateauOffsets(plateauAmount, pitchSampFreq))
      ensures netLeftShift == old(netLeftShift) + (if plateauAmount < 0.0 then plateauAmount else 0.0)
      ensures netRightShift == old(netRightShift) + (if plateauAmount > 0.0 then plateauAmount else 0.0)
    {
      if plateauAmount == 0.0 {
        return;
      }
      var maxPoint := pointList[peakI];
      var timeChangeList := PlateauOffsets(plateauAmount, pitchSampFreq);
      var leftSide, plateauPoints, rightSide;
      if plateauAmount < 0.0 {
        leftSide := pointList[..peakI];
        rightSide := pointList[peakI..];
        plateauPoints := PlateauPoints(maxPoint, timeChangeList);
        leftSide := ShiftTimes(leftSide, plateauAmount);
        netLeftShift := netLeftShift + plateauAmount;
      } else {
        leftSide := pointList[..peakI + 1];
        rightSide := pointList[peakI + 1..];
        plateauPoints := PlateauPoints(maxPoint, timeChangeList);
        rightSide := ShiftTimes(rightSide, plateauAmount);
        netRightShift := netRightShift + plateauAmount;
      }
      pointList := leftSide + plateauPoints + rightSide;
    }

    /** shiftAccent: a zero amount changes nothing; otherwise every time moves
        by the amount, recorded as a left or a right shift by its sign. */
    method ShiftAccent(shiftAmount: real)
      requires Valid()
      modifies this
      ensures Valid()
      ensures pointList == (if shiftAmount == 0.0 then old(pointList) else ShiftTimes(old(pointList), shiftAmount))
      ensures netLeftShift == old(netLeftShift) + (if shiftAmount < 0.0 then shiftAmount else 0.0)
      ensures netRightShift == old(netRightShift) + (if shiftAmount > 0.0 then shiftAmount else 0.0)
    {
      if shiftAmount == 0.0 {
        return;
      }
      pointList := ShiftTimes(pointList, shiftAmount);
      if shiftAmount < 0.0 {
        netLeftShift := netLeftShift + shiftAmount;
      } else {
        netRightShift := netRightShift + shiftAmount;
      }
    }

    /** deleteOverlapping: the target points outside the window the accent
        now covers. */
    method DeleteOverlapping(targetList: seq<Point>) returns (r: seq<Point>)
      requires Valid()
      ensures var span := CoveredSpan(pointList, netLeftShift, netRightShift);
              r == DeletePoints(targetList, span.0, span.1)
    {
      var start := pointList[0].time;
      var stop := pointList[|pointList| - 1].time;
      if netLeftShift < 0.0 {
        start := start + netLeftShift;
      }
      if netRightShift > 0.0 {
        stop := stop + netRightShift;
      }
      r := DeletePoints(targetList, start, stop);
    }

    /** reintegrate: the contour without the accent's original span and
        without the window it now covers, joined with the accent's points
        and sorted. */
    method Reintegrate(fullPointList: seq<Point>) returns (outputPointList: seq<Point>)
      requires Valid()
      ensures outputPointList == Reintegrated(fullPointList, pointList, minT, maxT, netLeftShift, netRightShift)
    {
      var remaining := DeletePoints(fullPointList, minT, maxT);
      remaining := DeleteOverlapping(remaining);
      outputPointList := remaining + pointList;
      outputPointList := SortPoints(outputPointList);
    }
  }

  /** The list reintegrate returns, as a function of the accent's state. */
  function Reintegrated(fullPointList: seq<Point>, pointList: seq<Point>, minT: real, maxT: real,
                        netLeftShift: real, netRightShift: real): seq<Point>
    requires |pointList| > 0
  {
    var span := CoveredSpan(pointList, netLeftShift, netRightShift);
    SortPoints(DeletePoints(DeletePoints(fullPointList, minT, maxT), span.0, span.1) + pointList)
  }

  /** The reintegrated contour is sorted and holds every accent point; a
      point that is not an accent point is in it exactly when it comes from
      the full contour and lies neither in the accent's original span nor in
      the window it now covers. */
  lemma ReintegratedContents(fullPointList: seq<Point>, pointList: seq<Point>, minT: real, maxT: real,
                             netLeftShift: real, netRightShift: real, p: Point)
    requires |pointList| > 0
    ensures var r := Reintegrated(fullPointList, pointList, minT, maxT, netLeftShift, netRightShift);
            var span := CoveredSpan(pointList, netLeftShift, netRightShift);
            && SortedPoints(r)
            && (p in pointList ==> p in r)
            && (p in r && p !in pointList ==>
                  p in fullPointList && (p.time < minT || p.time > maxT) && (p.time < span.0 || p.time > span.1))
            && (p in fullPointList && (p.time < minT || p.time > maxT) && (p.time < span.0 || p.time > span.1) ==>
                  p in r)
  {
    var span := CoveredSpan(pointList, netLeftShift, netRightShift);
    var once := DeletePoints(fullPointList, minT, maxT);
    var twice := DeletePoints(once, span.0, span.1);
    var joined := twice + pointList;
    var r := SortPoints(joined);
    DeletePointsMembers(fullPointList, minT, maxT, p);
    DeletePointsMembers(once, span.0, span.1, p);
    assert p in r <==> p in joined by {
      assert p in r <==> p in multiset(r);
      assert p in joined <==> p in multiset(joined);
    }
  }

  /** The reintegrated contour has exactly the surviving contour points and
      the accent points, each as often as before. */
  lemma ReintegratedIsPermutation(fullPointList: seq<Point>, pointList: seq<Point>, minT: real, maxT: real,
                                  netLeftShift: real, netRightShift: real)
    requires |pointList| > 0
    ensures var span := CoveredSpan(pointList, netLeftShift, netRightShift);
            multiset(Reintegrated(fullPointList, pointList, minT, maxT, netLeftShift, netRightShift))
              == multiset(DeletePoints(DeletePoints(fullPointList, minT, maxT), span.0, span.1)) + multiset(pointList)
  {
  }
}
