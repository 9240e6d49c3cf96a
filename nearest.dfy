/** The nearest-correspondence matcher of morph_sequence.py: a search by
    repeated halving for the element of a sorted list closest to a target,
    and the index list built from it. */
module Nearest {
  import opened Basics

  /** The element of `s` at minimal distance from `x`. */
  ghost predicate IsNearest(s: seq<real>, x: real, r: real)
  {
    r in s && forall k :: 0 <= k < |s| ==> Abs(x - r) <= Abs(x - s[k])
  }

  /** The halving point of a list of length n >= 2: int(n / 2.0) - 1. */
  function HalfPoint(n: nat): (h: nat)
    requires n >= 2
    ensures h + 1 < n
  {
    n / 2 - 1
  }

  /** _getSmallestDifference AS WRITTEN: stops on an exact hit at either middle
      element, otherwise keeps the half whose middle element has the smaller
      absolute difference (the right half on a tie). */
  function SmallestDifference(s: seq<real>, x: real): (r: real)
    requires |s| > 0
    ensures r in s
    decreases |s|
  {
    if |s| == 1 then s[0]
    else
      var h := HalfPoint(|s|);
      var a, b := s[h], s[h + 1];
      if Abs(x - a) == 0.0 || Abs(x - b) == 0.0 then x
      else if Abs(x - a) < Abs(x - b) then SmallestDifference(s[..h + 1], x)
      else SmallestDifference(s[h + 1..], x)
  }

  /** The corrected halving search: the same exact-hit test, but the half is
      chosen by the signed comparison x - a < b - x, i.e. by which side of the
      midpoint of the two middle elements the target lies on. */
  function NearestValue(s: seq<real>, x: real): (r: real)
    requires |s| > 0
    ensures r in s
    decreases |s|
  {
    if |s| == 1 then s[0]
    else
      var h := HalfPoint(|s|);
      var a, b := s[h], s[h + 1];
      if Abs(x - a) == 0.0 || Abs(x - b) == 0.0 then x
      else if x - a < b - x then NearestValue(s[..h + 1], x)
      else NearestValue(s[h + 1..], x)
  }

  lemma AscendingSlices(s: seq<real>, h: nat)
    requires Ascending(s) && h <= |s|
    ensures Ascending(s[..h]) && Ascending(s[h..])
  {
    assert forall i :: 0 <= i < h ==> s[..h][i] == s[i];
    assert forall i :: 0 <= i < |s| - h ==> s[h..][i] == s[h + i];
  }

  /** If the target lies left of the midpoint of s[h] and s[h+1], a nearest
      element of the left part s[..h+1] is nearest in all of s. */
  lemma LeftHalfSuffices(s: seq<real>, h: nat, x: real, r: real)
    requires h + 1 < |s| && s[h] <= s[h + 1]
    requires forall k :: h + 1 <= k < |s| ==> s[h + 1] <= s[k]
    requires x - s[h] < s[h + 1] - x
    requires IsNearest(s[..h + 1], x, r)
    ensures IsNearest(s, x, r)
  {
    var left := s[..h + 1];
    assert Abs(x - r) <= Abs(x - left[h]);
    forall k | 0 <= k < |s|
      ensures Abs(x - r) <= Abs(x - s[k])
    {
      if k <= h {
        assert s[k] == left[k];
      } else {
        LeftOfMidpoint(x, s[h], s[h + 1], s[k]);
      }
    }
  }

  lemma LeftOfMidpoint(x: real, a: real, b: real, c: real)
    requires a <= b <= c && x - a < b - x
    ensures Abs(x - a) <= Abs(x - c)
  {
  }

  lemma RightOfMidpoint(x: real, c: real, a: real, b: real)
    requires c <= a <= b && !(x - a < b - x)
    ensures Abs(x - b) <= Abs(x - c)
  {
  }

  /** If the target lies at or right of that midpoint, a nearest element of
      the right part s[h+1..] is nearest in all of s. */
  lemma RightHalfSuffices(s: seq<real>, h: nat, x: real, r: real)
    requires h + 1 < |s| && s[h] <= s[h + 1]
    requires forall k :: 0 <= k <= h ==> s[k] <= s[h]
    requires !(x - s[h] < s[h + 1] - x)
    requires IsNearest(s[h + 1..], x, r)
    ensures IsNearest(s, x, r)
  {
    var right := s[h + 1..];
    assert Abs(x - r) <= Abs(x - right[0]);
    forall k | 0 <= k < |s|
      ensures Abs(x - r) <= Abs(x - s[k])
    {
      if k > h {
        assert s[k] == right[k - h - 1];
      } else {
        RightOfMidpoint(x, s[k], s[h], s[h + 1]);
      }
    }
  }

  /** On an ascending list the corrected search returns an element at minimal
      distance from the target. */
  lemma {:induction false} NearestValueIsNearest(s: seq<real>, x: real)
    requires |s| > 0 && Ascending(s)
    ensures IsNearest(s, x, NearestValue(s, x))
    decreases |s|
  {
    if |s| > 1 {
      var h := HalfPoint(|s|);
      if Abs(x - s[h]) == 0.0 || Abs(x - s[h + 1]) == 0.0 {
        NearestStep(s, x);
      } else if x - s[h] < s[h + 1] - x {
        AscendingSlices(s, h + 1);
        NearestValueIsNearest(s[..h + 1], x);
        NearestStep(s, x);
        LeftHalfSuffices(s, h, x, NearestValue(s[..h + 1], x));
      } else {
        AscendingSlices(s, h + 1);
        NearestValueIsNearest(s[h + 1..], x);
        NearestStep(s, x);
        RightHalfSuffices(s, h, x, NearestValue(s[h + 1..], x));
      }
    }
  }

  /** One halving step of the corrected search. */
  lemma NearestStep(s: seq<real>, x: real)
    requires |s| > 1
    ensures var h := HalfPoint(|s|);
            var a, b := s[h], s[h + 1];
            if Abs(x - a) == 0.0 || Abs(x - b) == 0.0 then NearestValue(s, x) == x
            else if x - a < b - x then NearestValue(s, x) == NearestValue(s[..h + 1], x)
            else NearestValue(s, x) == NearestValue(s[h + 1..], x)
  {
  }

  lemma StrictSlices(s: seq<real>, h: nat)
    requires StrictlyAscending(s) && h <= |s|
    ensures StrictlyAscending(s[..h]) && StrictlyAscending(s[h..])
  {
    assert forall i :: 0 <= i < h ==> s[..h][i] == s[i];
    assert forall i :: 0 <= i < |s| - h ==> s[h..][i] == s[h + i];
  }

  /** On a strictly ascending list the code as written and the corrected
      search agree: the two middle elements differ, and then the absolute and
      the signed comparison choose the same half. */
  lemma {:induction false} SmallestDifferenceAgreesWhenStrict(s: seq<real>, x: real)
    requires |s| > 0 && StrictlyAscending(s)
    ensures SmallestDifference(s, x) == NearestValue(s, x)
    decreases |s|
  {
    if |s| > 1 {
      var h := HalfPoint(|s|);
      StrictSlices(s, h + 1);
      SameStep(s, x);
      if Abs(x - s[h]) != 0.0 && Abs(x - s[h + 1]) != 0.0 {
        if x - s[h] < s[h + 1] - x {
          SmallestDifferenceAgreesWhenStrict(s[..h + 1], x);
        } else {
          SmallestDifferenceAgreesWhenStrict(s[h + 1..], x);
        }
      }
    }
  }

  /** When the two middle elements differ, one halving step of the code as
      written and of the corrected search stop together or keep the same half. */
  lemma SameStep(s: seq<real>, x: real)
    requires |s| > 1 && s[HalfPoint(|s|)] < s[HalfPoint(|s|) + 1]
    ensures var h := HalfPoint(|s|);
            var a, b := s[h], s[h + 1];
            if Abs(x - a) == 0.0 || Abs(x - b) == 0.0 then
              SmallestDifference(s, x) == x == NearestValue(s, x)
            else if x - a < b - x then
              SmallestDifference(s, x) == SmallestDifference(s[..h + 1], x)
              && NearestValue(s, x) == NearestValue(s[..h + 1], x)
            else
              SmallestDifference(s, x) == SmallestDifference(s[h + 1..], x)
              && NearestValue(s, x) == NearestValue(s[h + 1..], x)
  {
    AbsComparisonAgrees(x, s[HalfPoint(|s|)], s[HalfPoint(|s|) + 1]);
  }

  /** For a < b, x is closer to a exactly when it lies left of their midpoint. */
  lemma AbsComparisonAgrees(x: real, a: real, b: real)
    requires a < b
    ensures (Abs(x - a) < Abs(x - b)) == (x - a < b - x)
  {
  }

  /** The code as written is therefore nearest on strictly ascending lists. */
  lemma SmallestDifferenceNearestWhenStrict(s: seq<real>, x: real)
    requires |s| > 0 && StrictlyAscending(s)
    ensures IsNearest(s, x, SmallestDifference(s, x))
  {
    SmallestDifferenceAgreesWhenStrict(s, x);
    NearestValueIsNearest(s, x);
  }

  /** The code as written misses the nearest element of an ascending list with
      repeated values: for [0, 1, 1, 1] and target 0 both middle elements are 1,
      the tie sends the search right, and 1 is returned although 0 is present. */
  lemma SmallestDifferenceMissesExactHit()
    ensures var s := [0.0, 1.0, 1.0, 1.0];
            Ascending(s) && 0.0 in s && SmallestDifference(s, 0.0) == 1.0
            && !IsNearest(s, 0.0, SmallestDifference(s, 0.0))
  {
    var s := [0.0, 1.0, 1.0, 1.0];
    assert s[2..] == [1.0, 1.0];
    assert [1.0, 1.0][1..] == [1.0];
    assert SmallestDifference(s, 0.0) == 1.0;
    assert Abs(0.0 - s[0]) < Abs(0.0 - 1.0);
  }

  /** Nearest elements of two ordered targets are ordered the same way. */
  lemma NearestValueMonotone(s: seq<real>, x1: real, x2: real)
    requires |s| > 0 && Ascending(s) && x1 <= x2
    ensures NearestValue(s, x1) <= NearestValue(s, x2)
  {
    NearestValueIsNearest(s, x1);
    NearestValueIsNearest(s, x2);
  }

  /** _getSmallestDifference, with the corrected halving rule: the loop keeps
      the half of `targetList` that still holds a nearest element, until one
      element is left or a middle element equals the target. */
  method GetSmallestDifference(inputList: seq<real>, targetVal: real) returns (retVal: real)
    requires |inputList| > 0
    ensures retVal == NearestValue(inputList, targetVal)
    ensures retVal in inputList
    ensures Ascending(inputList) ==> IsNearest(inputList, targetVal, retVal)
  {
    var targetList := inputList;
    while true
      invariant |targetList| > 0
      invariant NearestValue(targetList, targetVal) == NearestValue(inputList, targetVal)
      decreases |targetList|
    {
      if |targetList| == 1 {
        retVal := targetList[0];
        break;
      }
      var halfPoint := |targetList| / 2 - 1;
      var a := targetList[halfPoint];
      var b := targetList[halfPoint + 1];
      var leftDiff := Abs(targetVal - a);
      var rightDiff := Abs(targetVal - b);
      if leftDiff == 0.0 || rightDiff == 0.0 {
        retVal := targetVal;
        break;
      }
      if targetVal - a < b - targetVal {
        targetList := targetList[..halfPoint + 1];
      } else {
        targetList := targetList[halfPoint + 1..];
      }
    }
    if Ascending(inputList) {
      NearestValueIsNearest(inputList, targetVal);
    }
  }

  /** The index _getNearestMappingIndexList records for one target: the first
      position of the nearest value. */
  function NearestIndex(toValList: seq<real>, x: real): (i: nat)
    requires |toValList| > 0
    ensures i < |toValList| && toValList[i] == NearestValue(toValList, x)
    ensures forall j :: 0 <= j < i ==> toValList[j] != toValList[i]
  {
    IndexOf(toValList, NearestValue(toValList, x))
  }

  /** The index _getNearestMappingIndexList records as written: the first
      position of the value the unmodified halving search returns. */
  function AsWrittenIndex(toValList: seq<real>, x: real): (i: nat)
    requires |toValList| > 0
    ensures i < |toValList| && toValList[i] == SmallestDifference(toValList, x)
    ensures forall j :: 0 <= j < i ==> toValList[j] != toValList[i]
  {
    IndexOf(toValList, SmallestDifference(toValList, x))
  }

  /** On a strictly ascending list the index as written is the corrected one. */
  lemma AsWrittenIndexAgreesWhenStrict(toValList: seq<real>, x: real)
    requires |toValList| > 0 && StrictlyAscending(toValList)
    ensures AsWrittenIndex(toValList, x) == NearestIndex(toValList, x)
  {
    SmallestDifferenceAgreesWhenStrict(toValList, x);
  }

  /** For an ascending list, NearestIndex is monotone in the target. */
  lemma NearestIndexMonotone(toValList: seq<real>, x1: real, x2: real)
    requires |toValList| > 0 && Ascending(toValList) && x1 <= x2
    ensures NearestIndex(toValList, x1) <= NearestIndex(toValList, x2)
  {
    NearestValueMonotone(toValList, x1, x2);
    IndexOfMonotone(toValList, NearestValue(toValList, x1), NearestValue(toValList, x2));
  }

  /** The list on which the search as written is not monotone: 0.25 ties at the
      two middle 0.3s, goes right, and ends at 0.5, while 0.3 is an exact hit. */
  lemma SmallestDifferenceTrace()
    ensures var s := [0.0, 0.1, 0.2, 0.3, 0.3, 0.5, 0.5, 1.0];
            SmallestDifference(s, 0.25) == 0.5 && SmallestDifference(s, 0.3) == 0.3
  {
    var s := [0.0, 0.1, 0.2, 0.3, 0.3, 0.5, 0.5, 1.0];
    assert s[4..] == [0.3, 0.5, 0.5, 1.0];
    assert [0.3, 0.5, 0.5, 1.0][2..] == [0.5, 1.0];
    assert [0.5, 1.0][..1] == [0.5];
    assert SmallestDifference([0.5, 1.0], 0.25) == 0.5;
    assert SmallestDifference([0.3, 0.5, 0.5, 1.0], 0.25) == 0.5;
  }

  /** On the same list the corrected search sends 0.25 to its nearest value 0.3. */
  lemma NearestValueTrace()
    ensures NearestValue([0.0, 0.1, 0.2, 0.3, 0.3, 0.5, 0.5, 1.0], 0.25) == 0.3
  {
    var s := [0.0, 0.1, 0.2, 0.3, 0.3, 0.5, 0.5, 1.0];
    assert s[..4] == [0.0, 0.1, 0.2, 0.3];
    assert [0.0, 0.1, 0.2, 0.3][2..] == [0.2, 0.3];
    assert [0.2, 0.3][1..] == [0.3];
    assert NearestValue([0.2, 0.3], 0.25) == 0.3;
    assert NearestValue([0.0, 0.1, 0.2, 0.3], 0.25) == 0.3;
  }

  /** The index list as written is not monotone once the target repeats values:
      for the ascending list above, 0.25 <= 0.3 receives index 5 and 0.3 index 3,
      while the corrected index is 3 for both. */
  lemma AsWrittenIndexNotMonotone()
    ensures var s := [0.0, 0.1, 0.2, 0.3, 0.3, 0.5, 0.5, 1.0];
            AsWrittenIndex(s, 0.25) == 5 && AsWrittenIndex(s, 0.3) == 3
            && NearestIndex(s, 0.25) == 3 && NearestIndex(s, 0.3) == 3
  {
    var s := [0.0, 0.1, 0.2, 0.3, 0.3, 0.5, 0.5, 1.0];
    SmallestDifferenceTrace();
    NearestValueTrace();
    assert NearestValue(s, 0.3) == 0.3 by {
      assert Abs(0.3 - s[3]) == 0.0;
    }
    TracePositions();
  }

  lemma TracePositions()
    ensures var s := [0.0, 0.1, 0.2, 0.3, 0.3, 0.5, 0.5, 1.0];
            IndexOf(s, 0.3) == 3 && IndexOf(s, 0.5) == 5
  {
    var s := [0.0, 0.1, 0.2, 0.3, 0.3, 0.5, 0.5, 1.0];
    FirstPosition(s, 0.3, 3);
    FirstPosition(s, 0.5, 5);
  }

  /** A position holding v with no v before it is the one IndexOf returns. */
  lemma FirstPosition(s: seq<real>, v: real, k: nat)
    requires k < |s| && s[k] == v
    requires forall j :: 0 <= j < k ==> s[j] != v
    ensures IndexOf(s, v) == k
  {
  }

  /** _getNearestMappingIndexList: one index per entry of fromValList, each the
      first position in toValList of that entry's nearest value. */
  method GetNearestMappingIndexList(fromValList: seq<real>, toValList: seq<real>)
    returns (indexList: seq<nat>)
    requires |toValList| > 0
    ensures |indexList| == |fromValList|
    ensures forall i :: 0 <= i < |indexList| ==> indexList[i] == NearestIndex(toValList, fromValList[i])
    ensures forall i :: 0 <= i < |indexList| ==> indexList[i] < |toValList|
    ensures forall i, j :: 0 <= i < |indexList| && 0 <= j < indexList[i] ==>
              toValList[j] != toValList[indexList[i]]
    ensures Ascending(toValList) ==> forall i :: 0 <= i < |indexList| ==>
              IsNearest(toValList, fromValList[i], toValList[indexList[i]])
    ensures Ascending(fromValList) && Ascending(toValList) ==>
              forall i, j :: 0 <= i <= j < |indexList| ==> indexList[i] <= indexList[j]
  {
    indexList := [];
    for n := 0 to |fromValList|
      invariant |indexList| == n
      invariant forall i :: 0 <= i < n ==> indexList[i] == NearestIndex(toValList, fromValList[i])
    {
      var smallestDiff := GetSmallestDifference(toValList, fromValList[n]);
      var i := IndexOf(toValList, smallestDiff);
      indexList := indexList + [i];
    }
    if Ascending(toValList) {
      forall i | 0 <= i < |indexList|
        ensures IsNearest(toValList, fromValList[i], toValList[indexList[i]])
      {
        NearestValueIsNearest(toValList, fromValList[i]);
      }
      if Ascending(fromValList) {
        forall i, j | 0 <= i <= j < |indexList|
          ensures indexList[i] <= indexList[j]
        {
          NearestIndexMonotone(toValList, fromValList[i], fromValList[j]);
        }
      }
    }
  }
}
