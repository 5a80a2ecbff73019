/** The performance metric of one analysis: the largest inter-storey drift
    ratio computed from the per-floor peak displacements, and its absolute
    deviation from the code drift limit. */
module StoryDrift {
  import opened Building

  /** Number of adjacent floor pairs in a vector of floor displacements. */
  function Pairs(m: seq<real>): nat
  {
    if |m| == 0 then 0 else |m| - 1
  }

  /** Drift ratio between floor index `i` and floor index `i + 1`. */
  function PairDrift(m: seq<real>, i: nat): real
    requires i + 1 < |m|
  {
    Abs(m[i + 1] - m[i]) / StoryHeight
  }

  /** The running maximum over the first `k` pair drifts, starting from 0.0,
      replaced only by a strictly larger drift. */
  function DriftUpTo(m: seq<real>, k: nat): real
    requires k <= Pairs(m)
  {
    if k == 0 then 0.0
    else
      var prev := DriftUpTo(m, k - 1);
      var drift := PairDrift(m, k - 1);
      if drift > prev then drift else prev
  }

  /** The maximum storey drift ratio of a vector of floor displacements. */
  function MaxStoryDriftOf(m: seq<real>): real
  {
    DriftUpTo(m, Pairs(m))
  }

  /** The running maximum is non-negative, bounds every pair drift seen so
      far and, when positive, is one of them. */
  lemma {:induction false} DriftUpToIsMax(m: seq<real>, k: nat)
    requires k <= Pairs(m)
    ensures DriftUpTo(m, k) >= 0.0
    ensures forall i :: 0 <= i < k ==> DriftUpTo(m, k) >= PairDrift(m, i)
    ensures DriftUpTo(m, k) == 0.0 || exists i :: 0 <= i < k && DriftUpTo(m, k) == PairDrift(m, i)
  {
    if k > 0 {
      DriftUpToIsMax(m, k - 1);
    }
  }

  /** The maximum storey drift is the largest adjacent-floor drift ratio, or
      0.0 when there is no pair or every pair drift is 0.0. */
  lemma MaxStoryDriftIsMax(m: seq<real>)
    ensures MaxStoryDriftOf(m) >= 0.0
    ensures forall i :: 0 <= i < Pairs(m) ==> MaxStoryDriftOf(m) >= Abs(m[i + 1] - m[i]) / 3.0
    ensures MaxStoryDriftOf(m) == 0.0 ||
            exists i :: 0 <= i < Pairs(m) && MaxStoryDriftOf(m) == Abs(m[i + 1] - m[i]) / 3.0
  {
    DriftUpToIsMax(m, Pairs(m));
    assert forall i :: 0 <= i < Pairs(m) ==> PairDrift(m, i) == Abs(m[i + 1] - m[i]) / 3.0;
  }

  /** The maximum drift is 0.0 exactly when every floor's peak equals the
      peak of the floor below it. */
  lemma MaxStoryDriftZeroIff(m: seq<real>)
    ensures MaxStoryDriftOf(m) == 0.0 <==> forall i :: 0 <= i < Pairs(m) ==> m[i + 1] == m[i]
  {
    DriftUpToIsMax(m, Pairs(m));
    assert forall i :: 0 <= i < Pairs(m) ==> (PairDrift(m, i) == 0.0 <==> m[i + 1] == m[i]);
  }

  /** The accumulator loop over the adjacent floor pairs. */
  method ComputeMaxStoryDrift(maxDisps: seq<real>) returns (maxStoryDrift: real)
    ensures maxStoryDrift == MaxStoryDriftOf(maxDisps)
  {
    maxStoryDrift := 0.0;
    var i := 0;
    while i < |maxDisps| - 1
      invariant 0 <= i <= Pairs(maxDisps)
      invariant maxStoryDrift == DriftUpTo(maxDisps, i)
    {
      var drift := Abs(maxDisps[i + 1] - maxDisps[i]) / StoryHeight;
      if drift > maxStoryDrift {
        maxStoryDrift := drift;
      }
      i := i + 1;
    }
  }

  /** Deviation of the maximum drift from the code limit: never negative,
      zero exactly when the two coincide, penalising both directions alike. */
  function AlphaValue(maxStoryDrift: real, codeDrift: real): (alpha: real)
    ensures alpha >= 0.0
    ensures alpha == 0.0 <==> maxStoryDrift == codeDrift
    ensures alpha == maxStoryDrift - codeDrift || alpha == codeDrift - maxStoryDrift
  {
    Abs(maxStoryDrift - codeDrift)
  }
}
