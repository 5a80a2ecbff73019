/** The time-history loop of one analysis. The solver is an oracle: for each
    requested analysis step it reports a status (0 on success) and, after the
    step, the displacement of every floor node. The loop keeps, per floor, the
    signed displacement of largest magnitude seen so far, and stops at the
    first step whose status is not 0 without recording that step. */
module PeakTracker {
  import opened Building

  /** What the solver answers for one analysis step: its status and the
      displacement of floor `i + 1` (node tag `i + 2`) at index `i`. */
  datatype StepResult = StepResult(status: int, disps: seq<real>)

  /** Every snapshot of the trace has one displacement per floor. */
  predicate WellFormed(trace: seq<StepResult>, floorNum: nat)
  {
    forall t :: 0 <= t < |trace| ==> |trace[t].disps| == floorNum
  }

  /** Number of steps recorded before the first failing step. */
  function CompletedSteps(trace: seq<StepResult>): (k: nat)
    ensures k <= |trace|
    ensures forall t :: 0 <= t < k ==> trace[t].status == 0
    ensures k < |trace| ==> trace[k].status != 0
  {
    if trace == [] || trace[0].status != 0 then 0
    else 1 + CompletedSteps(trace[1..])
  }

  /** The displacements of floor index `i` along a sequence of steps. */
  function Column(steps: seq<StepResult>, i: nat): (c: seq<real>)
    requires forall t :: 0 <= t < |steps| ==> i < |steps[t].disps|
    ensures |c| == |steps|
    ensures forall t :: 0 <= t < |steps| ==> c[t] == steps[t].disps[i]
  {
    seq(|steps|, t requires 0 <= t < |steps| => steps[t].disps[i])
  }

  /** One update of a running peak: the new value replaces the kept one only
      when its magnitude is strictly larger. */
  function Keep(kept: real, d: real): real
  {
    if Abs(d) > Abs(kept) then d else kept
  }

  /** The update keeps one of its two arguments, the one of larger magnitude,
      and switches to the new value only when it is strictly larger: on a tie
      the kept value stays, whatever the signs. */
  lemma KeepLargerMagnitude(kept: real, d: real)
    ensures Keep(kept, d) == kept || Keep(kept, d) == d
    ensures Abs(Keep(kept, d)) >= Abs(kept) && Abs(Keep(kept, d)) >= Abs(d)
    ensures Keep(kept, d) != kept ==> Abs(d) > Abs(kept)
  {
  }

  /** The running peak of a sequence of displacements, starting from 0.0. */
  function Peak(s: seq<real>): real
  {
    if s == [] then 0.0 else Keep(Peak(s[..|s| - 1]), s[|s| - 1])
  }

  /** A fresh table of `n` zero peaks. */
  function Zeros(n: nat): (z: seq<real>)
    ensures |z| == n
    ensures forall i :: 0 <= i < n ==> z[i] == 0.0
  {
    if n == 0 then [] else Zeros(n - 1) + [0.0]
  }

  /** Every floor's kept value updated with that floor's new displacement. */
  function KeepAll(kept: seq<real>, disps: seq<real>): (r: seq<real>)
    requires |disps| == |kept|
    ensures |r| == |kept|
    ensures forall i :: 0 <= i < |kept| ==> r[i] == Keep(kept[i], disps[i])
  {
    if kept == [] then [] else [Keep(kept[0], disps[0])] + KeepAll(kept[1..], disps[1..])
  }

  /** The table of floor peaks after the first `k` steps have been recorded. */
  function PeaksAfter(trace: seq<StepResult>, k: nat, floorNum: nat): (m: seq<real>)
    requires k <= |trace| && WellFormed(trace, floorNum)
    ensures |m| == floorNum
  {
    if k == 0 then Zeros(floorNum)
    else KeepAll(PeaksAfter(trace, k - 1, floorNum), trace[k - 1].disps)
  }

  /** The table of floor peaks over the steps completed before the first failure. */
  function PeakTable(trace: seq<StepResult>, floorNum: nat): (m: seq<real>)
    requires WellFormed(trace, floorNum)
    ensures |m| == floorNum
  {
    PeaksAfter(trace, CompletedSteps(trace), floorNum)
  }

  /** The peak has a magnitude at least that of every recorded value. */
  lemma {:induction false} PeakDominates(s: seq<real>)
    ensures forall j :: 0 <= j < |s| ==> Abs(Peak(s)) >= Abs(s[j])
  {
    if s != [] {
      var init := s[..|s| - 1];
      PeakDominates(init);
      assert forall j :: 0 <= j < |init| ==> init[j] == s[j];
    }
  }

  /** The peak is 0.0 or the earliest recorded value of largest magnitude:
      every value before it is strictly smaller in magnitude, so on a tie the
      earlier value is kept, whatever its sign. */
  lemma {:induction false} PeakIsEarliestLargest(s: seq<real>)
    ensures Peak(s) == 0.0 ||
            exists j :: 0 <= j < |s| && s[j] == Peak(s) && (forall i :: 0 <= i < j ==> Abs(s[i]) < Abs(s[j]))
  {
    if s != [] {
      var init := s[..|s| - 1];
      PeakIsEarliestLargest(init);
      PeakDominates(init);
      assert forall j :: 0 <= j < |init| ==> init[j] == s[j];
      if Abs(s[|s| - 1]) > Abs(Peak(init)) {
        assert forall i :: 0 <= i < |s| - 1 ==> Abs(s[i]) < Abs(s[|s| - 1]);
      } else if Peak(s) != 0.0 {
        var j :| 0 <= j < |init| && init[j] == Peak(init) &&
                 forall i :: 0 <= i < j ==> Abs(init[i]) < Abs(init[j]);
        assert s[j] == Peak(s);
      }
    }
  }

  /** The peak of a floor is 0.0 only when every recorded value is 0.0. */
  lemma {:induction false} PeakZeroOnlyIfAllZero(s: seq<real>)
    ensures Peak(s) == 0.0 <==> forall j :: 0 <= j < |s| ==> s[j] == 0.0
  {
    PeakDominates(s);
    PeakIsEarliestLargest(s);
    if forall j :: 0 <= j < |s| ==> s[j] == 0.0 {
      PeakOfZeros(s);
    }
  }

  lemma {:induction false} PeakOfZeros(s: seq<real>)
    requires forall j :: 0 <= j < |s| ==> s[j] == 0.0
    ensures Peak(s) == 0.0
  {
    if s != [] {
      PeakOfZeros(s[..|s| - 1]);
    }
  }

  /** Recording one more step updates every floor's peak by `Keep`. */
  lemma PeakSnoc(steps: seq<StepResult>, r: StepResult, i: nat)
    requires forall t :: 0 <= t < |steps| ==> i < |steps[t].disps|
    requires i < |r.disps|
    ensures Peak(Column(steps + [r], i)) == Keep(Peak(Column(steps, i)), r.disps[i])
  {
    var c := Column(steps + [r], i);
    assert c[..|steps|] == Column(steps, i);
  }

  /** Floor `i` of the table after `k` steps is the running peak of the
      values recorded for that floor in those steps. */
  lemma {:induction false} PeaksAfterAt(trace: seq<StepResult>, k: nat, floorNum: nat, i: nat)
    requires k <= |trace| && WellFormed(trace, floorNum) && i < floorNum
    ensures PeaksAfter(trace, k, floorNum)[i] == Peak(Column(trace[..k], i))
  {
    if k > 0 {
      PeaksAfterAt(trace, k - 1, floorNum, i);
      assert trace[..k] == trace[..k - 1] + [trace[k - 1]];
      PeakSnoc(trace[..k - 1], trace[k - 1], i);
    }
  }

  /** The table after `k` steps depends only on those `k` steps. */
  lemma {:induction false} PeaksAfterPrefix(trace: seq<StepResult>, other: seq<StepResult>, k: nat, floorNum: nat)
    requires WellFormed(trace, floorNum) && WellFormed(other, floorNum)
    requires k <= |trace| && k <= |other| && other[..k] == trace[..k]
    ensures PeaksAfter(other, k, floorNum) == PeaksAfter(trace, k, floorNum)
  {
    if k > 0 {
      assert other[..k - 1] == other[..k][..k - 1];
      assert trace[..k - 1] == trace[..k][..k - 1];
      assert other[k - 1] == other[..k][k - 1];
      PeaksAfterPrefix(trace, other, k - 1, floorNum);
    }
  }

  /** A loop that stops at `step`, either at the end of the trace or at a
      nonzero status, has recorded exactly the completed steps. */
  lemma StopsAtCompleted(trace: seq<StepResult>, step: nat)
    requires step <= |trace|
    requires forall t :: 0 <= t < step ==> trace[t].status == 0
    requires step < |trace| ==> trace[step].status != 0
    ensures step == CompletedSteps(trace)
  {
  }

  /** Recording step `k` updates the table after `k` steps by `KeepAll`. */
  lemma PeaksAfterNext(trace: seq<StepResult>, k: nat, floorNum: nat)
    requires k < |trace| && WellFormed(trace, floorNum)
    ensures |trace[k].disps| == floorNum
    ensures PeaksAfter(trace, k + 1, floorNum) == KeepAll(PeaksAfter(trace, k, floorNum), trace[k].disps)
  {
  }

  /** The inner loop of the source: for node tags `2 .. n + 1`, floor index
      `nd - 2` keeps the larger-magnitude of its peak and the new value. */
  method RecordSnapshot(peaks: array<real>, disps: seq<real>)
    requires peaks.Length == |disps|
    modifies peaks
    ensures peaks[..] == KeepAll(old(peaks[..]), disps)
  {
    var nd := 2;
    while nd < peaks.Length + 2
      invariant 2 <= nd <= peaks.Length + 2
      invariant forall i :: 0 <= i < nd - 2 ==> peaks[i] == Keep(old(peaks[i]), disps[i])
      invariant forall i :: nd - 2 <= i < peaks.Length ==> peaks[i] == old(peaks[i])
    {
      var index := nd - 2;
      var d := disps[index];
      if Abs(d) > Abs(peaks[index]) {
        peaks[index] := d;
      }
      nd := nd + 1;
    }
  }

  /** Peak tracking with the in-place update of the source: an array of
      `floorNum` zeros and a loop over the analysis steps that leaves at the
      first nonzero status and otherwise records the step's displacements. */
  method TrackPeaks(trace: seq<StepResult>, floorNum: nat) returns (maxDisps: seq<real>)
    requires WellFormed(trace, floorNum)
    ensures maxDisps == PeakTable(trace, floorNum)
  {
    var peaks := new real[floorNum](_ => 0.0);
    assert peaks[..] == Zeros(floorNum);
    var step := 0;
    while step < |trace|
      invariant step <= |trace|
      invariant forall t :: 0 <= t < step ==> trace[t].status == 0
      invariant peaks[..] == PeaksAfter(trace, step, floorNum)
    {
      if trace[step].status != 0 {
        break;
      }
      PeaksAfterNext(trace, step, floorNum);
      RecordSnapshot(peaks, trace[step].disps);
      step := step + 1;
    }
    StopsAtCompleted(trace, step);
    maxDisps := peaks[..];
  }

  /** Neither the failing step's displacements nor anything after it affect
      the peaks: two traces that agree on the completed steps and fail, with
      any nonzero status, at the same step give the same table. */
  lemma PeaksIgnoreFailedSteps(trace: seq<StepResult>, other: seq<StepResult>, floorNum: nat)
    requires WellFormed(trace, floorNum) && WellFormed(other, floorNum)
    requires CompletedSteps(trace) < |trace| && CompletedSteps(trace) < |other|
    requires other[..CompletedSteps(trace)] == trace[..CompletedSteps(trace)]
    requires other[CompletedSteps(trace)].status != 0
    ensures PeakTable(other, floorNum) == PeakTable(trace, floorNum)
  {
    var k := CompletedSteps(trace);
    assert forall t :: 0 <= t < k ==> other[t] == other[..k][t];
    StopsAtCompleted(other, k);
    PeaksAfterPrefix(trace, other, k, floorNum);
  }

  /** The peaks bound every recorded displacement and each is 0.0 or one of
      the values recorded for its floor before the first failure. */
  lemma PeakTableBounds(trace: seq<StepResult>, floorNum: nat)
    requires WellFormed(trace, floorNum)
    ensures var m := PeakTable(trace, floorNum);
      forall i :: 0 <= i < floorNum ==>
        (forall t :: 0 <= t < CompletedSteps(trace) ==> Abs(m[i]) >= Abs(trace[t].disps[i])) &&
        (m[i] == 0.0 || exists u :: 0 <= u < CompletedSteps(trace) && m[i] == trace[u].disps[i])
  {
    var done := trace[..CompletedSteps(trace)];
    forall i | 0 <= i < floorNum
      ensures forall t :: 0 <= t < |done| ==> Abs(PeakTable(trace, floorNum)[i]) >= Abs(trace[t].disps[i])
      ensures PeakTable(trace, floorNum)[i] == 0.0 ||
              exists u :: 0 <= u < |done| && PeakTable(trace, floorNum)[i] == trace[u].disps[i]
    {
      var c := Column(done, i);
      PeaksAfterAt(trace, |done|, floorNum, i);
      PeakDominates(c);
      PeakIsEarliestLargest(c);
      assert forall t :: 0 <= t < |done| ==> c[t] == trace[t].disps[i];
    }
  }
}
