/** The duration arithmetic of duration_morph.py: per-interval stretch
    ratios, padding of the window list, the duration points handed to the
    resynthesis per step, and the interpolated durations per step. */
module DurationMorph {
  import opened Basics
  import opened Relativize

  /** The offset every interval start receives so that a boundary shared by
      two intervals gives two distinct points. */
  const PraatTimeDiff: real := 0.000001

  /** An interval of a tier: start and end time (its label is not used). */
  datatype Interval = Interval(start: real, end: real)

  /** A (start, end, ratio) duration window. */
  datatype Window = Window(start: real, end: real, ratio: real)

  /** The length of an interval once its start carries the offset. */
  function OffsetSpan(i: Interval): real
  {
    i.end - (i.start + PraatTimeDiff)
  }

  /** The window of one interval pair: the offset source start, the source
      end, and the ratio of the offset target span to the offset source span. */
  function RatioWindow(fromInfo: Interval, toInfo: Interval): (w: Window)
    requires OffsetSpan(fromInfo) != 0.0
    ensures w.start == fromInfo.start + PraatTimeDiff && w.end == fromInfo.end
  {
    Window(fromInfo.start + PraatTimeDiff, fromInfo.end, OffsetSpan(toInfo) / OffsetSpan(fromInfo))
  }

  /** The ratio stretches the offset source span onto the offset target span. */
  lemma RatioWindowStretches(fromInfo: Interval, toInfo: Interval)
    requires OffsetSpan(fromInfo) != 0.0
    ensures var w := RatioWindow(fromInfo, toInfo);
            w.ratio * (w.end - w.start) == toInfo.end - (toInfo.start + PraatTimeDiff)
  {
    var d := OffsetSpan(fromInfo);
    var t := OffsetSpan(toInfo);
    assert RatioWindow(fromInfo, toInfo).end - RatioWindow(fromInfo, toInfo).start == d;
    assert t / d * d == t;
  }

  /** A source span that is zero once offset makes the ratio a division by
      zero. */
  predicate HasZeroSpan(infos: seq<Interval>, n: nat)
    requires n <= |infos|
  {
    exists k :: 0 <= k < n && OffsetSpan(infos[k]) == 0.0
  }

  /** The ratio loop of getMorphParameters: one window per position of
      zip(fromExtractInfo, toExtractInfo), so as many as the shorter list has;
      a zero offset source span raises a division by zero. */
  method GetMorphParameters(fromExtractInfo: seq<Interval>, toExtractInfo: seq<Interval>)
    returns (r: Result<seq<Window>>)
    ensures var n := if |fromExtractInfo| <= |toExtractInfo| then |fromExtractInfo| else |toExtractInfo|;
            && (r.Failure? <==> HasZeroSpan(fromExtractInfo, n))
            && (r.Failure? ==> r.error == ZeroDivision)
            && (r.Success? ==> |r.value| == n)
            && (r.Success? ==>
                  forall k :: 0 <= k < n ==> r.value[k] == RatioWindow(fromExtractInfo[k], toExtractInfo[k]))
  {
    var n := if |fromExtractInfo| <= |toExtractInfo| then |fromExtractInfo| else |toExtractInfo|;
    var durationParameters: seq<Window> := [];
    for k := 0 to n
      invariant |durationParameters| == k
      invariant !HasZeroSpan(fromExtractInfo, k)
      invariant forall j :: 0 <= j < k ==> durationParameters[j] == RatioWindow(fromExtractInfo[j], toExtractInfo[j])
    {
      var fromStart, fromEnd := fromExtractInfo[k].start, fromExtractInfo[k].end;
      var toStart, toEnd := toExtractInfo[k].start, toExtractInfo[k].end;
      toStart := toStart + PraatTimeDiff;
      fromStart := fromStart + PraatTimeDiff;
      if fromEnd - fromStart == 0.0 {
        return Failure(ZeroDivision);
      }
      var ratio := (toEnd - toStart) / (fromEnd - fromStart);
      durationParameters := durationParameters + [Window(fromStart, fromEnd, ratio)];
    }
    r := Success(durationParameters);
  }

  /** The ratio loop of getManipulatedParamaters: the target interval of each
      source interval is the caller's modFunc of its start and end. */
  method GetManipulatedParameters(fromExtractInfo: seq<Interval>, modFunc: (real, real) -> (real, real))
    returns (r: Result<seq<Window>>)
    ensures r.Failure? <==> HasZeroSpan(fromExtractInfo, |fromExtractInfo|)
    ensures r.Failure? ==> r.error == ZeroDivision
    ensures r.Success? ==> |r.value| == |fromExtractInfo|
    ensures r.Success? ==> forall k :: 0 <= k < |fromExtractInfo| ==>
                r.value[k] == RatioWindow(fromExtractInfo[k], ModifiedInterval(fromExtractInfo[k], modFunc))
  {
    var durationParameters: seq<Window> := [];
    for k := 0 to |fromExtractInfo|
      invariant |durationParameters| == k
      invariant !HasZeroSpan(fromExtractInfo, k)
      invariant forall j :: 0 <= j < k ==>
                  durationParameters[j] == RatioWindow(fromExtractInfo[j], ModifiedInterval(fromExtractInfo[j], modFunc))
    {
      var fromStart, fromEnd := fromExtractInfo[k].start, fromExtractInfo[k].end;
      var (toStart, toEnd) := modFunc(fromStart, fromEnd);
      toStart := toStart + PraatTimeDiff;
      fromStart := fromStart + PraatTimeDiff;
      if fromEnd - fromStart == 0.0 {
        return Failure(ZeroDivision);
      }
      var ratio := (toEnd - toStart) / (fromEnd - fromStart);
      durationParameters := durationParameters + [Window(fromStart, fromEnd, ratio)];
    }
    r := Success(durationParameters);
  }

  function ModifiedInterval(fromInfo: Interval, modFunc: (real, real) -> (real, real)): Interval
  {
    Interval(modFunc(fromInfo.start, fromInfo.end).0, modFunc(fromInfo.start, fromInfo.end).1)
  }

  /** The window list changeDuration resynthesizes: a ratio-1 window from 0
      when the first window does not start at 0, and a ratio-1 window up to
      the sound's duration when the last window ends before it. */
  function Padded(durationParameters: seq<Window>, fromWavDuration: real): (r: seq<Window>)
    requires |durationParameters| > 0
  {
    var first, last := durationParameters[0], durationParameters[|durationParameters| - 1];
    var lead := if first.start != 0.0 then [Window(0.0, first.start - PraatTimeDiff, 1.0)] else [];
    var tail := if last.end < fromWavDuration then [Window(last.end + PraatTimeDiff, fromWavDuration, 1.0)] else [];
    lead + durationParameters + tail
  }

  /** The padded list starts at 0, ends at the later of the last window's end
      and the duration, keeps the original windows in order in its middle,
      and every window it adds has ratio 1. */
  lemma PaddedShape(durationParameters: seq<Window>, fromWavDuration: real)
    requires |durationParameters| > 0
    ensures var r := Padded(durationParameters, fromWavDuration);
            var n := |durationParameters|;
            var lead := if durationParameters[0].start != 0.0 then 1 else 0;
            var lastEnd := durationParameters[n - 1].end;
            && r[0].start == 0.0
            && r[|r| - 1].end == (if lastEnd < fromWavDuration then fromWavDuration else lastEnd)
            && r[lead..lead + n] == durationParameters
            && (forall k :: 0 <= k < |r| && !(lead <= k < lead + n) ==> r[k].ratio == 1.0)
            && |r| <= n + 2
  {
    var n := |durationParameters|;
    var first, last := durationParameters[0], durationParameters[n - 1];
    var lead := if first.start != 0.0 then [Window(0.0, first.start - PraatTimeDiff, 1.0)] else [];
    var tail := if last.end < fromWavDuration then [Window(last.end + PraatTimeDiff, fromWavDuration, 1.0)] else [];
    var r := lead + durationParameters + tail;
    assert r[|lead|..|lead| + n] == durationParameters;
  }

  /** The padding of changeDuration, on a copy of the caller's list: insert at
      the front, then append at the back; an empty list fails on its first
      element. */
  method PadDurationParameters(durationParameters: seq<Window>, fromWavDuration: real)
    returns (r: Result<seq<Window>>)
    ensures r.Failure? <==> |durationParameters| == 0
    ensures r.Failure? ==> r.error == EmptyParameterList
    ensures r.Success? ==> r.value == Padded(durationParameters, fromWavDuration)
  {
    if |durationParameters| == 0 {
      return Failure(EmptyParameterList);
    }
    var params := durationParameters;
    if params[0].start != 0.0 {
      var tmpVar := Window(0.0, params[0].start - PraatTimeDiff, 1.0);
      params := [tmpVar] + params;
    }
    if params[|params| - 1].end < fromWavDuration {
      params := params + [Window(params[|params| - 1].end + PraatTimeDiff, fromWavDuration, 1.0)];
    }
    r := Success(params);
  }

  /** The relative duration of a window at a step: 1 + (ratio - 1) * step. */
  function PercentChange(ratio: real, stepAmount: real): (p: real)
    ensures stepAmount == 0.0 ==> p == 1.0
    ensures stepAmount == 1.0 ==> p == ratio
    ensures ratio == 1.0 ==> p == 1.0
  {
    1.0 + (ratio - 1.0) * stepAmount
  }

  /** For steps in [0, 1] the relative duration lies between 1 and the ratio. */
  lemma PercentChangeBetween(ratio: real, stepAmount: real)
    requires 0.0 <= stepAmount <= 1.0
    ensures (if ratio <= 1.0 then ratio else 1.0) <= PercentChange(ratio, stepAmount)
    ensures PercentChange(ratio, stepAmount) <= (if ratio <= 1.0 then 1.0 else ratio)
  {
    var d := ratio - 1.0;
    var rest := 1.0 - stepAmount;
    if d >= 0.0 {
      MulNonNegative(d, stepAmount);
      MulNonNegative(d, rest);
      assert d * rest == d - d * stepAmount;
    } else {
      MulNonNegative(-d, stepAmount);
      MulNonNegative(-d, rest);
      assert (-d) * rest == d * stepAmount - d;
      assert (-d) * stepAmount == - (d * stepAmount);
    }
    assert PercentChange(ratio, stepAmount) == 1.0 + d * stepAmount;
  }

  /** The duration tier of one step: two points per window, at its start and
      at its end, both valued with the window's relative duration. */
  function DurationPoints(windows: seq<Window>, stepAmount: real): (r: seq<Point>)
    ensures |r| == 2 * |windows|
    ensures forall k :: 0 <= k < |windows| ==>
              && r[2 * k] == Point(windows[k].start, PercentChange(windows[k].ratio, stepAmount))
              && r[2 * k + 1] == Point(windows[k].end, PercentChange(windows[k].ratio, stepAmount))
    decreases |windows|
  {
    if windows == [] then []
    else
      var w := windows[0];
      var p := PercentChange(w.ratio, stepAmount);
      var rest := DurationPoints(windows[1..], stepAmount);
      var r := [Point(w.start, p), Point(w.end, p)] + rest;
      UnfoldPairs(windows, stepAmount, rest, r);
      r
  }

  lemma UnfoldPairs(windows: seq<Window>, stepAmount: real, rest: seq<Point>, r: seq<Point>)
    requires |windows| > 0 && |rest| == 2 * (|windows| - 1)
    requires forall k :: 0 <= k < |windows| - 1 ==>
               && rest[2 * k] == Point(windows[1..][k].start, PercentChange(windows[1..][k].ratio, stepAmount))
               && rest[2 * k + 1] == Point(windows[1..][k].end, PercentChange(windows[1..][k].ratio, stepAmount))
    requires r == [Point(windows[0].start, PercentChange(windows[0].ratio, stepAmount)),
                   Point(windows[0].end, PercentChange(windows[0].ratio, stepAmount))] + rest
    ensures forall k :: 0 <= k < |windows| ==>
              && r[2 * k] == Point(windows[k].start, PercentChange(windows[k].ratio, stepAmount))
              && r[2 * k + 1] == Point(windows[k].end, PercentChange(windows[k].ratio, stepAmount))
  {
    forall k | 1 <= k < |windows|
      ensures r[2 * k] == Point(windows[k].start, PercentChange(windows[k].ratio, stepAmount))
      ensures r[2 * k + 1] == Point(windows[k].end, PercentChange(windows[k].ratio, stepAmount))
    {
      assert windows[1..][k - 1] == windows[k];
      assert r[2 * k] == rest[2 * (k - 1)];
      assert r[2 * k + 1] == rest[2 * (k - 1) + 1];
    }
  }

  /** At step 0 every duration point is 1 (no change); at step 1 every point
      carries its window's ratio. */
  lemma DurationPointsAtEnds(windows: seq<Window>)
    ensures forall i :: 0 <= i < |DurationPoints(windows, 0.0)| ==> DurationPoints(windows, 0.0)[i].value == 1.0
    ensures forall k :: 0 <= k < |windows| ==>
              DurationPoints(windows, 1.0)[2 * k].value == windows[k].ratio &&
              DurationPoints(windows, 1.0)[2 * k + 1].value == windows[k].ratio
  {
    var r := DurationPoints(windows, 0.0);
    forall i | 0 <= i < |r|
      ensures r[i].value == 1.0
    {
      var k := i / 2;
      if i == 2 * k {
        assert r[2 * k].value == PercentChange(windows[k].ratio, 0.0);
      } else {
        assert i == 2 * k + 1;
        assert r[2 * k + 1].value == PercentChange(windows[k].ratio, 0.0);
      }
    }
  }

  /** The step loop of changeDuration: one duration point list per step. */
  method DurationPointLists(durationParameters: seq<Window>, stepList: seq<real>)
    returns (lists: seq<seq<Point>>)
    ensures |lists| == |stepList|
    ensures forall j :: 0 <= j < |stepList| ==> lists[j] == DurationPoints(durationParameters, stepList[j])
  {
    lists := [];
    for j := 0 to |stepList|
      invariant |lists| == j
      invariant forall i :: 0 <= i < j ==> lists[i] == DurationPoints(durationParameters, stepList[i])
    {
      var durationPointList := DurationPointList(durationParameters, stepList[j]);
      lists := lists + [durationPointList];
    }
  }

  /** The inner loop of changeDuration: both ends of every window, each with
      the window's percent change at this step. */
  method DurationPointList(durationParameters: seq<Window>, stepAmount: real) returns (durationPointList: seq<Point>)
    ensures durationPointList == DurationPoints(durationParameters, stepAmount)
  {
    ghost var target := DurationPoints(durationParameters, stepAmount);
    durationPointList := [];
    for k := 0 to |durationParameters|
      invariant durationPointList == target[..2 * k]
    {
      var w := durationParameters[k];
      var percentChange := 1.0 + (w.ratio - 1.0) * stepAmount;
      PrefixSnoc(target, 2 * k);
      durationPointList := durationPointList + [Point(w.start, percentChange)];
      PrefixSnoc(target, 2 * k + 1);
      durationPointList := durationPointList + [Point(w.end, percentChange)];
    }
    assert target[..2 * |durationParameters|] == target;
  }

  /** The interpolated duration of a window at a step. */
  function InterpolatedDuration(w: Window, stepAmount: real): real
  {
    (w.end - w.start) * PercentChange(w.ratio, stepAmount)
  }

  /** At step 0 a window keeps its own length; at step 1 a ratio window
      reaches the offset length of its target interval. */
  lemma InterpolatedDurationAtEnds(fromInfo: Interval, toInfo: Interval)
    requires OffsetSpan(fromInfo) != 0.0
    ensures var w := RatioWindow(fromInfo, toInfo);
            && InterpolatedDuration(w, 0.0) == w.end - w.start
            && InterpolatedDuration(w, 1.0) == toInfo.end - (toInfo.start + PraatTimeDiff)
  {
    var w := RatioWindow(fromInfo, toInfo);
    RatioWindowStretches(fromInfo, toInfo);
    assert InterpolatedDuration(w, 1.0) == (w.end - w.start) * w.ratio;
  }

  /** The interpolation loop of _plotResults: per step, one interpolated
      duration per window. */
  method InterpolatedDurations(durationParameters: seq<Window>, stepList: seq<real>)
    returns (actDurList: seq<seq<real>>)
    ensures |actDurList| == |stepList|
    ensures forall j :: 0 <= j < |stepList| ==> |actDurList[j]| == |durationParameters|
    ensures forall j, k :: 0 <= j < |stepList| && 0 <= k < |durationParameters| ==>
              actDurList[j][k] == InterpolatedDuration(durationParameters[k], stepList[j])
  {
    actDurList := [];
    for j := 0 to |stepList|
      invariant |actDurList| == j
      invariant forall i :: 0 <= i < j ==> |actDurList[i]| == |durationParameters|
      invariant forall i, k :: 0 <= i < j && 0 <= k < |durationParameters| ==>
                  actDurList[i][k] == InterpolatedDuration(durationParameters[k], stepList[i])
    {
      var stepAmount := stepList[j];
      var tmpDurList: seq<real> := [];
      for k := 0 to |durationParameters|
        invariant |tmpDurList| == k
        invariant forall i :: 0 <= i < k ==> tmpDurList[i] == InterpolatedDuration(durationParameters[i], stepAmount)
      {
        var w := durationParameters[k];
        var dur := w.end - w.start;
        var percentChange := 1.0 + (w.ratio - 1.0) * stepAmount;
        tmpDurList := tmpDurList + [dur * percentChange];
      }
      actDurList := actDurList + [tmpDurList];
    }
  }
}
