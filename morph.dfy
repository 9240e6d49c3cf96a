/** The stepwise linear morph engine of morph_sequence.py: morphDataLists
    aligns two point lists on relative time and interpolates toward the
    aligned target at every step fraction; morphChunkedDataLists does so per
    chunk and merges the per-step outputs. */
module Morph {
  import opened Basics
  import opened Relativize
  import opened Nearest

  /** A point list whose time axis can be made relative. */
  predicate Morphable(pts: seq<Point>)
  {
    Relativizable(Times(pts))
  }

  /** fromValue + step * (toValue - fromValue): the source value at step 0 and
      the target value at step 1. */
  function Interpolate(a: real, b: real, s: real): (r: real)
    ensures s == 0.0 ==> r == a
    ensures s == 1.0 ==> r == b
  {
    a + s * (b - a)
  }

  lemma InterpolateRising(a: real, b: real, s: real)
    requires 0.0 <= s <= 1.0 && a < b
    ensures a <= Interpolate(a, b, s) <= b
  {
    var d := b - a;
    MulBounds(s, d);
    var p := s * d;
    assert 0.0 <= p <= d;
    assert Interpolate(a, b, s) == a + p;
  }

  lemma InterpolateFalling(a: real, b: real, s: real)
    requires 0.0 <= s <= 1.0 && b < a
    ensures b <= Interpolate(a, b, s) <= a
  {
    var d := a - b;
    MulBounds(s, d);
    var p := s * d;
    assert 0.0 <= p <= d;
    assert s * (b - a) == -p;
    assert Interpolate(a, b, s) == a - p;
  }

  /** For steps in [0, 1] the interpolated value lies between the two ends. */
  lemma InterpolateBetween(a: real, b: real, s: real)
    requires 0.0 <= s <= 1.0
    ensures a <= b ==> a <= Interpolate(a, b, s) <= b
    ensures b <= a ==> b <= Interpolate(a, b, s) <= a
  {
    if a < b {
      InterpolateRising(a, b, s);
    } else if b < a {
      InterpolateFalling(a, b, s);
    } else {
      assert Interpolate(a, b, s) == a + s * 0.0;
    }
  }

  /** Interpolation is monotone in both end points for steps in [0, 1]. */
  lemma InterpolateMonotone(a1: real, a2: real, b1: real, b2: real, s: real)
    requires a1 <= a2 && b1 <= b2 && 0.0 <= s <= 1.0
    ensures Interpolate(a1, b1, s) <= Interpolate(a2, b2, s)
  {
    var da, db := a2 - a1, b2 - b1;
    var t := 1.0 - s;
    MulNonNegative(t, da);
    MulNonNegative(s, db);
    var p, q := t * da, s * db;
    assert Interpolate(a2, b2, s) - Interpolate(a1, b1, s) == p + q;
  }

  /** Each relative source point paired with the target point at the first
      occurrence of the time the corrected halving search picks for it. */
  function AlignedTo(fromRel: seq<Point>, toRel: seq<Point>): (r: seq<Point>)
    requires |toRel| > 0
    ensures |r| == |fromRel|
  {
    seq(|fromRel|, i requires 0 <= i < |fromRel| => toRel[NearestIndex(Times(toRel), fromRel[i].time)])
  }

  /** Time and value of every relative source point interpolated toward the
      target point it is paired with. */
  function StepToward(fromRel: seq<Point>, alignedTo: seq<Point>, s: real): (r: seq<Point>)
    requires |alignedTo| == |fromRel|
    ensures |r| == |fromRel|
  {
    seq(|fromRel|, i requires 0 <= i < |fromRel| =>
          Point(Interpolate(fromRel[i].time, alignedTo[i].time, s),
                Interpolate(fromRel[i].value, alignedTo[i].value, s)))
  }

  /** One step of the morph on relative time. */
  function MorphRel(fromRel: seq<Point>, toRel: seq<Point>, s: real): (r: seq<Point>)
    requires |toRel| > 0
    ensures |r| == |fromRel|
  {
    StepToward(fromRel, AlignedTo(fromRel, toRel), s)
  }

  lemma MorphRelAtZero(fromRel: seq<Point>, toRel: seq<Point>)
    requires |toRel| > 0
    ensures MorphRel(fromRel, toRel, 0.0) == fromRel
  {
  }

  lemma MorphRelInUnit(fromRel: seq<Point>, toRel: seq<Point>, s: real)
    requires |toRel| > 0 && 0.0 <= s <= 1.0
    requires forall i :: 0 <= i < |fromRel| ==> 0.0 <= fromRel[i].time <= 1.0
    requires forall i :: 0 <= i < |toRel| ==> 0.0 <= toRel[i].time <= 1.0
    ensures forall i :: 0 <= i < |fromRel| ==> 0.0 <= MorphRel(fromRel, toRel, s)[i].time <= 1.0
  {
    var alignedTo := AlignedTo(fromRel, toRel);
    var r := MorphRel(fromRel, toRel, s);
    forall i | 0 <= i < |fromRel|
      ensures 0.0 <= r[i].time <= 1.0
    {
      InterpolateBetween(fromRel[i].time, alignedTo[i].time, s);
    }
  }

  lemma MorphRelKeepsOrder(fromRel: seq<Point>, toRel: seq<Point>, s: real)
    requires |toRel| > 0 && 0.0 <= s <= 1.0
    requires Ascending(Times(fromRel)) && Ascending(Times(toRel))
    ensures Ascending(Times(MorphRel(fromRel, toRel, s)))
  {
    var toT := Times(toRel);
    var alignedTo := AlignedTo(fromRel, toRel);
    var r := MorphRel(fromRel, toRel, s);
    forall i, j | 0 <= i <= j < |r|
      ensures Times(r)[i] <= Times(r)[j]
    {
      assert fromRel[i].time == Times(fromRel)[i] <= Times(fromRel)[j] == fromRel[j].time;
      var ki, kj := NearestIndex(toT, fromRel[i].time), NearestIndex(toT, fromRel[j].time);
      NearestIndexMonotone(toT, fromRel[i].time, fromRel[j].time);
      assert alignedTo[i].time == toT[ki] <= toT[kj] == alignedTo[j].time;
      InterpolateMonotone(fromRel[i].time, fromRel[j].time, alignedTo[i].time, alignedTo[j].time, s);
    }
  }

  /** The list morphDataLists yields for one step fraction `s`. */
  function MorphAt(fromList: seq<Point>, toList: seq<Point>, s: real): (r: seq<Point>)
    requires Morphable(fromList) && Morphable(toList)
    ensures |r| == |fromList|
  {
    var f := MakeTimingRelative(fromList).value;
    MakeTimingAbsolute(MorphRel(f.0, MakeTimingRelative(toList).value.0, s), f.1, f.2)
  }

  /** The target sample that source sample i is morphed toward: the first
      occurrence of the relative time the corrected halving search picks. */
  function AlignedIndex(fromList: seq<Point>, toList: seq<Point>, i: nat): (j: nat)
    requires Morphable(fromList) && Morphable(toList) && i < |fromList|
    ensures j < |toList|
  {
    var fromRel := MakeTimingRelative(fromList).value.0;
    var toRel := MakeTimingRelative(toList).value.0;
    NearestIndex(Times(toRel), fromRel[i].time)
  }

  /** Step 0 reproduces the source list exactly. */
  lemma MorphAtZeroIsIdentity(fromList: seq<Point>, toList: seq<Point>)
    requires Morphable(fromList) && Morphable(toList)
    ensures MorphAt(fromList, toList, 0.0) == fromList
  {
    var f := MakeTimingRelative(fromList).value;
    MorphRelAtZero(f.0, MakeTimingRelative(toList).value.0);
    TimingRoundTrip(fromList);
  }

  /** Every value moves from the source value toward the value of the aligned
      target sample, reaching it at step 1. */
  lemma MorphAtValue(fromList: seq<Point>, toList: seq<Point>, s: real, i: nat)
    requires Morphable(fromList) && Morphable(toList) && i < |fromList|
    ensures MorphAt(fromList, toList, s)[i].value
            == Interpolate(fromList[i].value, toList[AlignedIndex(fromList, toList, i)].value, s)
    ensures s == 1.0 ==> MorphAt(fromList, toList, s)[i].value == toList[AlignedIndex(fromList, toList, i)].value
  {
    var f := MakeTimingRelative(fromList).value;
    var fromRel := f.0;
    var toRel := MakeTimingRelative(toList).value.0;
    var j := AlignedIndex(fromList, toList, i);
    var m := MorphRel(fromRel, toRel, s);
    var out := MorphAt(fromList, toList, s);
    assert out[i].value == Values(out)[i] == Values(m)[i] == m[i].value;
    assert fromRel[i].value == Values(fromRel)[i] == Values(fromList)[i];
    assert toRel[j].value == Values(toRel)[j] == Values(toList)[j];
  }

  /** The aligned target sample is at minimal relative-time distance from the
      source sample, provided the target's times ascend. */
  lemma AlignedIndexIsNearest(fromList: seq<Point>, toList: seq<Point>, i: nat)
    requires Morphable(fromList) && Morphable(toList) && i < |fromList|
    requires Ascending(Times(toList))
    ensures var fromRel := MakeTimingRelative(fromList).value.0;
            var toRel := MakeTimingRelative(toList).value.0;
            IsNearest(Times(toRel), fromRel[i].time, toRel[AlignedIndex(fromList, toList, i)].time)
  {
    var fromRel := MakeTimingRelative(fromList).value.0;
    var toT := Times(MakeTimingRelative(toList).value.0);
    assert Ascending(toT);
    NearestValueIsNearest(toT, fromRel[i].time);
  }

  /** With strictly ascending target times, the alignment list built through
      the unmodified halving search is the one the model builds. */
  lemma AlignedToAsWritten(fromRel: seq<Point>, toRel: seq<Point>)
    requires |toRel| > 0 && StrictlyAscending(Times(toRel))
    ensures AlignedTo(fromRel, toRel)
            == seq(|fromRel|, i requires 0 <= i < |fromRel| => toRel[AsWrittenIndex(Times(toRel), fromRel[i].time)])
  {
    forall i | 0 <= i < |fromRel|
      ensures AsWrittenIndex(Times(toRel), fromRel[i].time) == NearestIndex(Times(toRel), fromRel[i].time)
    {
      AsWrittenIndexAgreesWhenStrict(Times(toRel), fromRel[i].time);
    }
  }

  /** With strictly ascending target times, every source sample is aligned
      with the target sample the unmodified halving search picks. */
  lemma AlignedIndexAsWritten(fromList: seq<Point>, toList: seq<Point>, i: nat)
    requires Morphable(fromList) && Morphable(toList) && i < |fromList|
    requires StrictlyAscending(Times(toList))
    ensures var fromRel := MakeTimingRelative(fromList).value.0;
            var toRel := MakeTimingRelative(toList).value.0;
            AlignedIndex(fromList, toList, i) == AsWrittenIndex(Times(toRel), fromRel[i].time)
  {
    var fromRel := MakeTimingRelative(fromList).value.0;
    var toT := Times(MakeTimingRelative(toList).value.0);
    TimingRelativeKeepsStrictOrder(toList);
    AsWrittenIndexAgreesWhenStrict(toT, fromRel[i].time);
  }

  /** For ascending times, later source samples never align with earlier target samples. */
  lemma AlignedIndexMonotone(fromList: seq<Point>, toList: seq<Point>, i: nat, j: nat)
    requires Morphable(fromList) && Morphable(toList) && i <= j < |fromList|
    requires Ascending(Times(fromList)) && Ascending(Times(toList))
    ensures AlignedIndex(fromList, toList, i) <= AlignedIndex(fromList, toList, j)
  {
    var fromRel := MakeTimingRelative(fromList).value.0;
    var toT := Times(MakeTimingRelative(toList).value.0);
    assert Ascending(toT);
    assert fromRel[i].time == Times(fromRel)[i] <= Times(fromRel)[j] == fromRel[j].time;
    NearestIndexMonotone(toT, fromRel[i].time, fromRel[j].time);
  }

  /** For steps in [0, 1] the morphed times stay inside the source's span. */
  lemma MorphAtStaysInSpan(fromList: seq<Point>, toList: seq<Point>, s: real)
    requires Morphable(fromList) && Morphable(toList) && 0.0 <= s <= 1.0
    ensures forall i :: 0 <= i < |fromList| ==>
              Min(Times(fromList)) <= MorphAt(fromList, toList, s)[i].time <= Max(Times(fromList))
  {
    var f := MakeTimingRelative(fromList).value;
    var toRel := MakeTimingRelative(toList).value.0;
    MorphRelInUnit(f.0, toRel, s);
    var m := MorphRel(f.0, toRel, s);
    var out := MorphAt(fromList, toList, s);
    assert out == MakeTimingAbsolute(m, f.1, f.2);
    var lo, hi := Min(Times(fromList)), Max(Times(fromList));
    assert f.1 == lo && f.2 == hi && lo < hi;
    forall i | 0 <= i < |fromList|
      ensures lo <= out[i].time <= hi
    {
      assert 0.0 <= m[i].time <= 1.0;
    }
  }

  /** For steps in [0, 1] and ascending times, the morph keeps the time order
      of the samples. */
  lemma MorphAtKeepsTimeOrder(fromList: seq<Point>, toList: seq<Point>, s: real)
    requires Morphable(fromList) && Morphable(toList) && 0.0 <= s <= 1.0
    requires Ascending(Times(fromList)) && Ascending(Times(toList))
    ensures Ascending(Times(MorphAt(fromList, toList, s)))
  {
    var f := MakeTimingRelative(fromList).value;
    var toRel := MakeTimingRelative(toList).value.0;
    assert Ascending(Times(f.0));
    assert Ascending(Times(toRel));
    MorphRelKeepsOrder(f.0, toRel, s);
    TimingAbsoluteKeepsOrder(MorphRel(f.0, toRel, s), f.1, f.2);
  }

  /** The inner loop of morphDataLists: one interpolated point per source point. */
  method InterpolateStep(fromListRel: seq<Point>, alignedToPitchRel: seq<Point>, stepAmount: real)
    returns (newPitchList: seq<Point>)
    requires |alignedToPitchRel| == |fromListRel|
    ensures newPitchList == StepToward(fromListRel, alignedToPitchRel, stepAmount)
  {
    ghost var target := StepToward(fromListRel, alignedToPitchRel, stepAmount);
    newPitchList := [];
    for i := 0 to |fromListRel|
      invariant newPitchList == target[..i]
    {
      var fromTuple, toTuple := fromListRel[i], alignedToPitchRel[i];
      var newValue := fromTuple.value + stepAmount * (toTuple.value - fromTuple.value);
      var newTime := fromTuple.time + stepAmount * (toTuple.time - fromTuple.time);
      assert target[i] == Point(newTime, newValue);
      PrefixSnoc(target, i);
      newPitchList := newPitchList + [Point(newTime, newValue)];
    }
    assert target[..|fromListRel|] == target;
  }

  /** The alignment step of morphDataLists: for every relative source point,
      the target point the corrected index list names. */
  method AlignToNearest(fromListRel: seq<Point>, toListRel: seq<Point>) returns (alignedToPitchRel: seq<Point>)
    requires |toListRel| > 0
    ensures alignedToPitchRel == AlignedTo(fromListRel, toListRel)
  {
    var fromTimeList := Times(fromListRel);
    var toTimeList := Times(toListRel);
    var indexList := GetNearestMappingIndexList(fromTimeList, toTimeList);
    alignedToPitchRel := seq(|indexList|, i requires 0 <= i < |indexList| => toListRel[indexList[i]]);
  }

  /** The outer loop of morphDataLists: one (step, list) pair per step
      fraction, the interpolated list put back on absolute time. */
  method MorphSteps(fromListRel: seq<Point>, alignedToPitchRel: seq<Point>, stepList: seq<real>,
                    fromStartTime: real, fromEndTime: real)
    returns (out: seq<(real, seq<Point>)>)
    requires |alignedToPitchRel| == |fromListRel|
    ensures |out| == |stepList|
    ensures forall k :: 0 <= k < |stepList| ==>
              out[k] == (stepList[k], MakeTimingAbsolute(StepToward(fromListRel, alignedToPitchRel, stepList[k]),
                                                         fromStartTime, fromEndTime))
  {
    out := [];
    for k := 0 to |stepList|
      invariant |out| == k
      invariant forall m :: 0 <= m < k ==>
                  out[m] == (stepList[m], MakeTimingAbsolute(StepToward(fromListRel, alignedToPitchRel, stepList[m]),
                                                             fromStartTime, fromEndTime))
    {
      var stepAmount := stepList[k];
      var newPitchList := InterpolateStep(fromListRel, alignedToPitchRel, stepAmount);
      out := out + [(stepAmount, MakeTimingAbsolute(newPitchList, fromStartTime, fromEndTime))];
    }
  }

  /** morphDataLists: one (step, list) pair per step fraction, in order; fails
      when either list's times cannot be made relative. */
  method MorphDataLists(fromList: seq<Point>, toList: seq<Point>, stepList: seq<real>)
    returns (r: Result<seq<(real, seq<Point>)>>)
    ensures r.Failure? <==> !Morphable(fromList) || !Morphable(toList)
    ensures r.Failure? ==> r.error == RelativizeSequenceError
    ensures r.Success? ==> |r.value| == |stepList|
    ensures r.Success? ==> forall k :: 0 <= k < |stepList| ==>
              r.value[k] == (stepList[k], MorphAt(fromList, toList, stepList[k]))
  {
    var fromRes := MakeTimingRelative(fromList);
    if fromRes.Failure? {
      return Failure(fromRes.error);
    }
    var (fromListRel, fromStartTime, fromEndTime) := fromRes.value;
    var toRes := MakeTimingRelative(toList);
    if toRes.Failure? {
      return Failure(toRes.error);
    }
    var toListRel := toRes.value.0;

    var alignedToPitchRel := AlignToNearest(fromListRel, toListRel);
    var out := MorphSteps(fromListRel, alignedToPitchRel, stepList, fromStartTime, fromEndTime);
    forall k | 0 <= k < |stepList|
      ensures out[k] == (stepList[k], MorphAt(fromList, toList, stepList[k]))
    {
    }
    r := Success(out);
  }

  /** A chunk pair is morphed only when both sides have at least two points. */
  predicate Retained(x: seq<Point>, y: seq<Point>)
  {
    |x| >= 2 && |y| >= 2
  }

  /** Every retained chunk pair can be morphed. */
  predicate RetainedMorphable(fromDataList: seq<seq<Point>>, toDataList: seq<seq<Point>>)
    requires |fromDataList| == |toDataList|
  {
    forall i :: 0 <= i < |fromDataList| && Retained(fromDataList[i], toDataList[i]) ==>
      Morphable(fromDataList[i]) && Morphable(toDataList[i])
  }

  predicate NoneRetained(fromDataList: seq<seq<Point>>, toDataList: seq<seq<Point>>)
    requires |fromDataList| == |toDataList|
  {
    forall i :: 0 <= i < |fromDataList| ==> !Retained(fromDataList[i], toDataList[i])
  }

  /** The merged list morphChunkedDataLists returns for step fraction `s`: the
      morphs of the retained chunk pairs, concatenated in chunk order. It is
      only consulted when every retained pair is morphable (RetainedMorphable);
      a pair that is not contributes nothing, which keeps the function total. */
  function ChunkedAt(fromDataList: seq<seq<Point>>, toDataList: seq<seq<Point>>, s: real): seq<Point>
    requires |fromDataList| == |toDataList|
    decreases |fromDataList|
  {
    if fromDataList == [] then []
    else
      var n := |fromDataList| - 1;
      var x, y := fromDataList[n], toDataList[n];
      ChunkedAt(fromDataList[..n], toDataList[..n], s)
      + (if Retained(x, y) && Morphable(x) && Morphable(y) then MorphAt(x, y, s) else [])
  }

  /** The source points of the retained chunk pairs, concatenated in order. */
  function RetainedSource(fromDataList: seq<seq<Point>>, toDataList: seq<seq<Point>>): seq<Point>
    requires |fromDataList| == |toDataList|
    decreases |fromDataList|
  {
    if fromDataList == [] then []
    else
      var n := |fromDataList| - 1;
      RetainedSource(fromDataList[..n], toDataList[..n])
      + (if Retained(fromDataList[n], toDataList[n]) then fromDataList[n] else [])
  }

  lemma PrefixRetainedMorphable(fromDataList: seq<seq<Point>>, toDataList: seq<seq<Point>>, j: nat)
    requires |fromDataList| == |toDataList| && j <= |fromDataList|
    requires RetainedMorphable(fromDataList, toDataList)
    ensures RetainedMorphable(fromDataList[..j], toDataList[..j])
  {
    assert forall i :: 0 <= i < j ==> fromDataList[..j][i] == fromDataList[i] && toDataList[..j][i] == toDataList[i];
  }

  /** At step 0 the chunked morph is the concatenation of the retained source
      chunks: skipped chunks contribute nothing, the others come back unchanged. */
  lemma {:induction false} ChunkedAtZeroIsRetainedSource(fromDataList: seq<seq<Point>>, toDataList: seq<seq<Point>>)
    requires |fromDataList| == |toDataList| && RetainedMorphable(fromDataList, toDataList)
    ensures ChunkedAt(fromDataList, toDataList, 0.0) == RetainedSource(fromDataList, toDataList)
    decreases |fromDataList|
  {
    if fromDataList != [] {
      var n := |fromDataList| - 1;
      PrefixRetainedMorphable(fromDataList, toDataList, n);
      ChunkedAtZeroIsRetainedSource(fromDataList[..n], toDataList[..n]);
      if Retained(fromDataList[n], toDataList[n]) {
        MorphAtZeroIsIdentity(fromDataList[n], toDataList[n]);
      }
    }
  }

  /** Every step has as many points as the retained source chunks together. */
  lemma {:induction false} ChunkedAtLength(fromDataList: seq<seq<Point>>, toDataList: seq<seq<Point>>, s: real)
    requires |fromDataList| == |toDataList| && RetainedMorphable(fromDataList, toDataList)
    ensures |ChunkedAt(fromDataList, toDataList, s)| == |RetainedSource(fromDataList, toDataList)|
    decreases |fromDataList|
  {
    if fromDataList != [] {
      var n := |fromDataList| - 1;
      PrefixRetainedMorphable(fromDataList, toDataList, n);
      ChunkedAtLength(fromDataList[..n], toDataList[..n], s);
    }
  }

  /** Adding one more chunk pair appends its morph when it is retained and
      changes nothing when it is skipped. */
  lemma ChunkedAtAppend(fromDataList: seq<seq<Point>>, toDataList: seq<seq<Point>>,
                        x: seq<Point>, y: seq<Point>, s: real)
    requires |fromDataList| == |toDataList|
    ensures ChunkedAt(fromDataList + [x], toDataList + [y], s)
            == ChunkedAt(fromDataList, toDataList, s)
               + (if Retained(x, y) && Morphable(x) && Morphable(y) then MorphAt(x, y, s) else [])
  {
    var f, t := fromDataList + [x], toDataList + [y];
    var n := |fromDataList|;
    assert f[..n] == fromDataList && t[..n] == toDataList;
  }

  lemma RetainedMorphableSnoc(f: seq<seq<Point>>, t: seq<seq<Point>>, x: seq<Point>, y: seq<Point>)
    requires |f| == |t|
    ensures RetainedMorphable(f + [x], t + [y])
            <==> RetainedMorphable(f, t) && (Retained(x, y) ==> Morphable(x) && Morphable(y))
  {
    var f1, t1 := f + [x], t + [y];
    assert f1[|f|] == x && t1[|f|] == y;
    assert forall i :: 0 <= i < |f| ==> f1[i] == f[i] && t1[i] == t[i];
  }

  /** The lists of every chunk at step position k, concatenated in chunk order
      (a chunk without a list at position k contributes nothing). */
  function ConcatAt(lists: seq<seq<seq<Point>>>, k: nat): seq<Point>
  {
    if lists == [] then []
    else
      var last := lists[|lists| - 1];
      ConcatAt(lists[..|lists| - 1], k) + (if k < |last| then last[k] else [])
  }

  lemma ConcatAtSnoc(lists: seq<seq<seq<Point>>>, last: seq<seq<Point>>, k: nat)
    requires k < |last|
    ensures ConcatAt(lists + [last], k) == ConcatAt(lists, k) + last[k]
  {
    assert (lists + [last])[..|lists|] == lists;
  }

  /** One chunk pair of morphChunkedDataLists: the output lists of
      morphDataLists, without their step fractions. */
  method MorphChunkPair(x: seq<Point>, y: seq<Point>, stepList: seq<real>) returns (r: Result<seq<seq<Point>>>)
    ensures r.Failure? <==> !Morphable(x) || !Morphable(y)
    ensures r.Failure? ==> r.error == RelativizeSequenceError
    ensures r.Success? ==> |r.value| == |stepList|
    ensures r.Success? ==> forall k :: 0 <= k < |stepList| ==> r.value[k] == MorphAt(x, y, stepList[k])
  {
    var morphed := MorphDataLists(x, y, stepList);
    if morphed.Failure? {
      return Failure(morphed.error);
    }
    var tmpList := seq(|stepList|, k requires 0 <= k < |stepList| => morphed.value[k].1);
    r := Success(tmpList);
  }

  /** What the first loop of morphChunkedDataLists has built after the
      first j chunk pairs: every retained pair so far is morphable, and the
      collected lists give, per step, the chunked morph of those pairs. */
  ghost predicate CollectedUpTo(fromDataList: seq<seq<Point>>, toDataList: seq<seq<Point>>, stepList: seq<real>,
                                outputList: seq<seq<seq<Point>>>, j: nat)
    requires |fromDataList| == |toDataList| && j <= |fromDataList|
  {
    && RetainedMorphable(fromDataList[..j], toDataList[..j])
    && (|outputList| == 0 <==> NoneRetained(fromDataList[..j], toDataList[..j]))
    && (forall m :: 0 <= m < |outputList| ==> |outputList[m]| == |stepList|)
    && (forall k :: 0 <= k < |stepList| ==>
          ConcatAt(outputList, k) == ChunkedAt(fromDataList[..j], toDataList[..j], stepList[k]))
  }

  /** A skipped pair leaves the chunked morph of every step as it is. */
  lemma ConcatSkip(f: seq<seq<Point>>, t: seq<seq<Point>>, x: seq<Point>, y: seq<Point>,
                   stepList: seq<real>, outputList: seq<seq<seq<Point>>>)
    requires |f| == |t| && !Retained(x, y)
    requires forall m :: 0 <= m < |outputList| ==> |outputList[m]| == |stepList|
    requires forall k :: 0 <= k < |stepList| ==> ConcatAt(outputList, k) == ChunkedAt(f, t, stepList[k])
    ensures forall k :: 0 <= k < |stepList| ==> ConcatAt(outputList, k) == ChunkedAt(f + [x], t + [y], stepList[k])
  {
    forall k | 0 <= k < |stepList|
      ensures ConcatAt(outputList, k) == ChunkedAt(f + [x], t + [y], stepList[k])
    {
      ChunkedAtAppend(f, t, x, y, stepList[k]);
    }
  }

  /** A retained pair appends its morph to the chunked morph of every step. */
  lemma ConcatKeep(f: seq<seq<Point>>, t: seq<seq<Point>>, x: seq<Point>, y: seq<Point>,
                   stepList: seq<real>, outputList: seq<seq<seq<Point>>>, morphs: seq<seq<Point>>)
    requires |f| == |t| && Retained(x, y) && Morphable(x) && Morphable(y)
    requires forall m :: 0 <= m < |outputList| ==> |outputList[m]| == |stepList|
    requires |morphs| == |stepList|
    requires forall k :: 0 <= k < |stepList| ==> ConcatAt(outputList, k) == ChunkedAt(f, t, stepList[k])
    requires forall k :: 0 <= k < |stepList| ==> morphs[k] == MorphAt(x, y, stepList[k])
    ensures forall k :: 0 <= k < |stepList| ==>
              ConcatAt(outputList + [morphs], k) == ChunkedAt(f + [x], t + [y], stepList[k])
  {
    forall k | 0 <= k < |stepList|
      ensures ConcatAt(outputList + [morphs], k) == ChunkedAt(f + [x], t + [y], stepList[k])
    {
      ConcatKeepAt(f, t, x, y, stepList[k], outputList, morphs, k);
    }
  }

  lemma ConcatKeepAt(f: seq<seq<Point>>, t: seq<seq<Point>>, x: seq<Point>, y: seq<Point>, s: real,
                     outputList: seq<seq<seq<Point>>>, morphs: seq<seq<Point>>, k: nat)
    requires |f| == |t| && Retained(x, y) && Morphable(x) && Morphable(y)
    requires k < |morphs| && morphs[k] == MorphAt(x, y, s)
    requires ConcatAt(outputList, k) == ChunkedAt(f, t, s)
    ensures ConcatAt(outputList + [morphs], k) == ChunkedAt(f + [x], t + [y], s)
  {
    ConcatAtSnoc(outputList, morphs, k);
    ChunkedAtAppend(f, t, x, y, s);
  }

  lemma NoneRetainedSnoc(f: seq<seq<Point>>, t: seq<seq<Point>>, x: seq<Point>, y: seq<Point>)
    requires |f| == |t|
    ensures NoneRetained(f + [x], t + [y]) <==> NoneRetained(f, t) && !Retained(x, y)
  {
    var f1, t1 := f + [x], t + [y];
    assert f1[|f|] == x && t1[|f|] == y;
    assert forall i :: 0 <= i < |f| ==> f1[i] == f[i] && t1[i] == t[i];
  }

  /** A skipped pair leaves the collected lists as they are. */
  lemma CollectSkip(fromDataList: seq<seq<Point>>, toDataList: seq<seq<Point>>, stepList: seq<real>,
                    outputList: seq<seq<seq<Point>>>, j: nat)
    requires |fromDataList| == |toDataList| && j < |fromDataList|
    requires CollectedUpTo(fromDataList, toDataList, stepList, outputList, j)
    requires !Retained(fromDataList[j], toDataList[j])
    ensures CollectedUpTo(fromDataList, toDataList, stepList, outputList, j + 1)
  {
    var x, y := fromDataList[j], toDataList[j];
    var f, t := fromDataList[..j], toDataList[..j];
    assert fromDataList[..j + 1] == f + [x] && toDataList[..j + 1] == t + [y];
    ConcatSkip(f, t, x, y, stepList, outputList);
    RetainedMorphableSnoc(f, t, x, y);
    NoneRetainedSnoc(f, t, x, y);
  }

  /** A retained, morphable pair appends its per-step morphs. */
  lemma CollectKeep(fromDataList: seq<seq<Point>>, toDataList: seq<seq<Point>>, stepList: seq<real>,
                    outputList: seq<seq<seq<Point>>>, j: nat, morphs: seq<seq<Point>>)
    requires |fromDataList| == |toDataList| && j < |fromDataList|
    requires CollectedUpTo(fromDataList, toDataList, stepList, outputList, j)
    requires Retained(fromDataList[j], toDataList[j])
    requires Morphable(fromDataList[j]) && Morphable(toDataList[j])
    requires |morphs| == |stepList|
    requires forall k :: 0 <= k < |stepList| ==> morphs[k] == MorphAt(fromDataList[j], toDataList[j], stepList[k])
    ensures CollectedUpTo(fromDataList, toDataList, stepList, outputList + [morphs], j + 1)
  {
    var x, y := fromDataList[j], toDataList[j];
    var f, t := fromDataList[..j], toDataList[..j];
    assert fromDataList[..j + 1] == f + [x] && toDataList[..j + 1] == t + [y];
    ConcatKeep(f, t, x, y, stepList, outputList, morphs);
    RetainedMorphableSnoc(f, t, x, y);
    NoneRetainedSnoc(f, t, x, y);
  }

  /** A retained pair that cannot be morphed makes the whole input fail. */
  lemma CollectFail(fromDataList: seq<seq<Point>>, toDataList: seq<seq<Point>>, j: nat)
    requires |fromDataList| == |toDataList| && j < |fromDataList|
    requires Retained(fromDataList[j], toDataList[j])
    requires !Morphable(fromDataList[j]) || !Morphable(toDataList[j])
    ensures !RetainedMorphable(fromDataList, toDataList)
  {
  }

  /** The first loop of morphChunkedDataLists: the per-step lists of every
      retained chunk pair, in order; fails when a retained pair cannot be morphed. */
  method CollectChunkMorphs(fromDataList: seq<seq<Point>>, toDataList: seq<seq<Point>>, stepList: seq<real>)
    returns (r: Result<seq<seq<seq<Point>>>>)
    requires |fromDataList| == |toDataList|
    ensures r.Failure? <==> !RetainedMorphable(fromDataList, toDataList)
    ensures r.Failure? ==> r.error == RelativizeSequenceError
    ensures r.Success? ==> (|r.value| == 0 <==> NoneRetained(fromDataList, toDataList))
    ensures r.Success? ==> forall m :: 0 <= m < |r.value| ==> |r.value[m]| == |stepList|
    ensures r.Success? ==> forall k :: 0 <= k < |stepList| ==>
              ConcatAt(r.value, k) == ChunkedAt(fromDataList, toDataList, stepList[k])
  {
    var outputList: seq<seq<seq<Point>>> := [];
    for j := 0 to |fromDataList|
      invariant CollectedUpTo(fromDataList, toDataList, stepList, outputList, j)
    {
      var x, y := fromDataList[j], toDataList[j];
      if |x| < 2 || |y| < 2 {
        CollectSkip(fromDataList, toDataList, stepList, outputList, j);
        continue;
      }
      var tmpList := MorphChunkPair(x, y, stepList);
      if tmpList.Failure? {
        CollectFail(fromDataList, toDataList, j);
        return Failure(tmpList.error);
      }
      CollectKeep(fromDataList, toDataList, stepList, outputList, j, tmpList.value);
      outputList := outputList + [tmpList.value];
    }
    assert fromDataList[..|fromDataList|] == fromDataList && toDataList[..|toDataList|] == toDataList;
    r := Success(outputList);
  }

  /** The transposition loop of morphChunkedDataLists: the first chunk's
      lists, extended at every step position by the later chunks' lists. */
  method MergeChunks(outputList: seq<seq<seq<Point>>>, n: nat) returns (finalOutputList: seq<seq<Point>>)
    requires |outputList| > 0
    requires forall m :: 0 <= m < |outputList| ==> |outputList[m]| == n
    ensures |finalOutputList| == n
    ensures forall k :: 0 <= k < n ==> finalOutputList[k] == ConcatAt(outputList, k)
  {
    finalOutputList := outputList[0];
    assert outputList[..1][..0] == [];
    for m := 1 to |outputList|
      invariant |finalOutputList| == n
      invariant forall k :: 0 <= k < n ==> finalOutputList[k] == ConcatAt(outputList[..m], k)
    {
      var subList := outputList[m];
      assert outputList[..m + 1][..m] == outputList[..m];
      for i := 0 to |subList|
        invariant |finalOutputList| == n
        invariant forall k :: 0 <= k < i ==> finalOutputList[k] == ConcatAt(outputList[..m + 1], k)
        invariant forall k :: i <= k < n ==> finalOutputList[k] == ConcatAt(outputList[..m], k)
      {
        finalOutputList := finalOutputList[i := finalOutputList[i] + subList[i]];
      }
    }
    assert outputList[..|outputList|] == outputList;
  }

  /** morphChunkedDataLists: requires equally many chunks on both sides;
      skips every pair where a side has fewer than two points; fails when a
      retained pair cannot be morphed, or when no pair is retained (the pop
      from an empty list); otherwise gives, per step, the concatenation of the
      retained pairs' morphs in chunk order. */
  method MorphChunkedDataLists(fromDataList: seq<seq<Point>>, toDataList: seq<seq<Point>>, stepList: seq<real>)
    returns (r: Result<seq<seq<Point>>>)
    requires |fromDataList| == |toDataList|
    ensures r.Failure? <==> !RetainedMorphable(fromDataList, toDataList) || NoneRetained(fromDataList, toDataList)
    ensures r.Failure? ==> r.error == if RetainedMorphable(fromDataList, toDataList) then NoChunkRetained
                                      else RelativizeSequenceError
    ensures r.Success? ==> |r.value| == |stepList|
    ensures r.Success? ==> forall k :: 0 <= k < |stepList| ==>
              r.value[k] == ChunkedAt(fromDataList, toDataList, stepList[k])
  {
    var collected := CollectChunkMorphs(fromDataList, toDataList, stepList);
    if collected.Failure? {
      return Failure(collected.error);
    }
    var outputList := collected.value;
    if |outputList| == 0 {
      return Failure(NoChunkRetained);
    }
    var finalOutputList := MergeChunks(outputList, |stepList|);
    r := Success(finalOutputList);
  }
}
