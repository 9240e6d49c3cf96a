/** generateStepList of utils.py: the step fractions a morph is taken at. */
module Steps {
  import opened Basics

  /** The i-th non-zero step of n: (i + 1) / n. */
  function StepValue(i: nat, numSteps: nat): real
    requires numSteps > 0
  {
    (i + 1) as real / numSteps as real
  }

  /** Every non-zero step lies in (0, 1], and the last one is exactly 1. */
  lemma StepValueBounds(i: nat, numSteps: nat)
    requires numSteps > 0 && i < numSteps
    ensures 0.0 < StepValue(i, numSteps) <= 1.0
    ensures i == numSteps - 1 ==> StepValue(i, numSteps) == 1.0
  {
    var a, n := (i + 1) as real, numSteps as real;
    assert 0.0 < a <= n;
    DivBounds(a, n);
  }

  lemma DivBounds(a: real, n: real)
    requires 0.0 < a <= n
    ensures 0.0 < a / n <= 1.0
    ensures a == n ==> a / n == 1.0
  {
  }

  /** The steps grow strictly. */
  lemma StepValueIncreasing(i: nat, j: nat, numSteps: nat)
    requires numSteps > 0 && i < j
    ensures StepValue(i, numSteps) < StepValue(j, numSteps)
  {
    var a, b, n := (i + 1) as real, (j + 1) as real, numSteps as real;
    assert a < b;
    DivStrict(a, b, n);
  }

  lemma DivStrict(a: real, b: real, n: real)
    requires a < b && n > 0.0
    ensures a / n < b / n
  {
  }

  /** generateStepList: numSteps fractions (i + 1) / numSteps, after a leading
      0 when includeZero is set; the list grows strictly and ends at 1. */
  method GenerateStepList(numSteps: nat, includeZero: bool) returns (stepList: seq<real>)
    requires numSteps > 0
    ensures var offset := if includeZero then 1 else 0;
            && |stepList| == numSteps + offset
            && (includeZero ==> stepList[0] == 0.0)
            && (forall i :: 0 <= i < numSteps ==> stepList[offset + i] == StepValue(i, numSteps))
    ensures stepList[|stepList| - 1] == 1.0
    ensures StrictlyAscending(stepList)
    ensures forall i :: 0 <= i < |stepList| ==> 0.0 <= stepList[i] <= 1.0
    ensures forall i :: 0 <= i < |stepList| && stepList[i] == 0.0 ==> includeZero && i == 0
  {
    stepList := [];
    if includeZero {
      stepList := stepList + [0.0];
    }
    var offset := |stepList|;
    for i := 0 to numSteps
      invariant |stepList| == offset + i
      invariant includeZero ==> stepList[0] == 0.0
      invariant forall k :: 0 <= k < i ==> stepList[offset + k] == StepValue(k, numSteps)
    {
      stepList := stepList + [(i + 1) as real / numSteps as real];
    }
    StepValueBounds(numSteps - 1, numSteps);
    forall a, b | 0 <= a < b < |stepList|
      ensures stepList[a] < stepList[b]
    {
      StepValueBounds(b - offset, numSteps);
      if a >= offset {
        StepValueIncreasing(a - offset, b - offset, numSteps);
      }
    }
    forall k | 0 <= k < |stepList|
      ensures 0.0 <= stepList[k] <= 1.0
      ensures stepList[k] == 0.0 ==> includeZero && k == 0
    {
      if k >= offset {
        StepValueBounds(k - offset, numSteps);
      }
    }
  }
}
