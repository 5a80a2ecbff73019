/** The single-step episode environment: `Reset` clears the observation,
    `Step` counts the episode, wipes the solver every ten episodes, places the
    damper on the floor chosen by the action, runs one analysis and turns its
    drift deviation into the reward. The solver's answers for the analysis
    are a parameter of `Step`; the solver's model and the per-floor log files
    are ghost state. */
module Environment {
  import opened Building
  import opened Topology
  import opened PeakTracker
  import opened StoryDrift

  /** The 0-based action names the 1-based damper floor; only actions
      `0 .. FloorNum - 2` lead to a damper link. */
  function ActionToFloor(action: int): (damperFloor: int)
    ensures HasDamper(FloorNum, damperFloor) <==> 0 <= action < FloorNum - 1
  {
    action + 1
  }

  /** Actions 0 to 8 give 10 link elements; action 9, like any other action,
      gives only the 9 chain links. */
  lemma ActionElementCount(action: int)
    ensures |Elements(FloorNum, ActionToFloor(action))| == if 0 <= action <= 8 then 10 else 9
  {
    DamperAddedIff(FloorNum, ActionToFloor(action));
  }

  /** Episodes, among the first `count`, at which the solver is wiped. */
  function RebuildSchedule(count: nat): seq<nat>
  {
    if count == 0 then []
    else RebuildSchedule(count - 1) + (if count % 10 == 1 then [count] else [])
  }

  /** The wipes happen at episodes 1, 11, 21, ...: an episode is in the
      schedule exactly when it is at most `count` and is 1 mod 10. */
  lemma {:induction false} RebuildScheduleMembers(count: nat)
    ensures forall e :: e in RebuildSchedule(count) <==> 1 <= e <= count && e % 10 == 1
  {
    if count > 0 {
      RebuildScheduleMembers(count - 1);
    }
  }

  /** The schedule lists the wipes in increasing order. */
  lemma {:induction false} RebuildScheduleIncreasing(count: nat)
    ensures forall i, j :: 0 <= i < j < |RebuildSchedule(count)| ==> RebuildSchedule(count)[i] < RebuildSchedule(count)[j]
  {
    if count > 0 {
      var prev := RebuildSchedule(count - 1);
      RebuildScheduleIncreasing(count - 1);
      RebuildScheduleMembers(count - 1);
      assert forall i :: 0 <= i < |prev| ==> prev[i] in prev && prev[i] < count;
    }
  }

  /** The schedule grows by the new episode exactly when it is 1 mod 10. */
  lemma RebuildScheduleNext(count: nat)
    ensures RebuildSchedule(count + 1) ==
            if (count + 1) % 10 == 1 then RebuildSchedule(count) + [count + 1] else RebuildSchedule(count)
  {
    assert RebuildSchedule(count) + [] == RebuildSchedule(count);
  }

  /** One wipe every ten episodes, the first at episode 1: `ceil(count / 10)`. */
  lemma {:induction false} RebuildScheduleLength(count: nat)
    ensures |RebuildSchedule(count)| == (count + 9) / 10
  {
    if count > 0 {
      RebuildScheduleLength(count - 1);
      var q, r := count / 10, count % 10;
      assert count == 10 * q + r;
      assert (count + 9) / 10 == q + (if r >= 1 then 1 else 0);
      assert (count + 8) / 10 == q + (if r >= 2 then 1 else 0);
    }
  }

  /** One more line at the end of every floor's log. */
  function Appended(log: seq<seq<real>>, row: seq<real>): seq<seq<real>>
    requires |row| == |log|
  {
    seq(|log|, i requires 0 <= i < |log| => log[i] + [row[i]])
  }

  class BuildingEnv {
    const floorNum: nat
    /** The observation is the one value `[lastAlphaValue]`. */
    const stateDim: nat := 1
    /** One action per candidate floor. */
    const actionDim: nat := floorNum
    const accData: seq<real>
    const numSteps: nat
    const dt: real
    const codeDrift: real

    var episodeCount: nat
    var modelBuilt: bool
    var lastAlphaValue: real

    /** The model the external solver currently holds. */
    ghost var solverModel: StructuralModel
    /** Lines appended by this environment to the log of floor `i + 1`. */
    ghost var floorLog: seq<seq<real>>
    /** Episodes at which `BuildModel` wiped the solver. */
    ghost var rebuildEpisodes: seq<nat>

    ghost predicate Valid()
      reads this
    {
      && floorNum == FloorNum
      && numSteps == |accData|
      && |floorLog| == floorNum
      && (forall i :: 0 <= i < floorNum ==> |floorLog[i]| == episodeCount)
      && rebuildEpisodes == RebuildSchedule(episodeCount)
      && modelBuilt == (episodeCount > 0)
    }

    constructor (accData: seq<real>, dt: real := 0.02, codeDrift: real := 0.01)
      ensures Valid()
      ensures floorNum == FloorNum && this.accData == accData && numSteps == |accData| && this.dt == dt && this.codeDrift == codeDrift
      ensures episodeCount == 0 && !modelBuilt && lastAlphaValue == 0.0
      ensures solverModel == Wiped && floorLog == seq(FloorNum, _ => []) && rebuildEpisodes == []
    {
      floorNum := FloorNum;
      this.accData := accData;
      numSteps := |accData|;
      this.dt := dt;
      this.codeDrift := codeDrift;
      episodeCount := 0;
      modelBuilt := false;
      solverModel := Wiped;
      floorLog := seq(FloorNum, _ => []);
      rebuildEpisodes := [];
      new;
      var _ := Reset();
    }

    /** Clears the observation and returns it. */
    method Reset() returns (state: seq<real>)
      modifies this`lastAlphaValue
      ensures lastAlphaValue == 0.0
      ensures state == [0.0]
    {
      lastAlphaValue := 0.0;
      state := [lastAlphaValue];
    }

    /** The periodic defensive wipe of the solver. */
    method BuildModel()
      modifies this`modelBuilt, this`solverModel, this`rebuildEpisodes
      ensures modelBuilt
      ensures solverModel == Wiped
      ensures rebuildEpisodes == old(rebuildEpisodes) + [episodeCount]
    {
      solverModel := Wiped;
      rebuildEpisodes := rebuildEpisodes + [episodeCount];
      modelBuilt := true;
    }

    /** One analysis: the solver is wiped and given the model for
      `damperFloor`; `trace` holds its answers for the `numSteps` analysis
      steps. The result is the drift deviation and the per-floor peaks. */
    method RunAnalysis(damperFloor: int, trace: seq<StepResult>)
      returns (alphaValue: real, maxDisps: seq<real>)
      requires |trace| == numSteps && WellFormed(trace, floorNum)
      modifies this`solverModel
      ensures solverModel == StructureFor(floorNum, damperFloor)
      ensures maxDisps == PeakTable(trace, floorNum)
      ensures alphaValue == AlphaValue(MaxStoryDriftOf(maxDisps), codeDrift)
    {
      solverModel := Wiped;
      solverModel := StructureFor(floorNum, damperFloor);
      maxDisps := TrackPeaks(trace, floorNum);
      var maxStoryDrift := ComputeMaxStoryDrift(maxDisps);
      alphaValue := AlphaValue(maxStoryDrift, codeDrift);
    }

    /** Appends each floor's peak to that floor's log. */
    method SaveFloorDisps(maxDisps: seq<real>)
      requires |maxDisps| == floorNum && |floorLog| == floorNum
      modifies this`floorLog
      ensures floorLog == Appended(old(floorLog), maxDisps)
    {
      for i := 0 to floorNum
        invariant |floorLog| == floorNum
        invariant forall j :: 0 <= j < i ==> floorLog[j] == old(floorLog[j]) + [maxDisps[j]]
        invariant forall j :: i <= j < floorNum ==> floorLog[j] == old(floorLog[j])
      {
        floorLog := floorLog[i := floorLog[i] + [maxDisps[i]]];
      }
    }

    /** The bookkeeping at the start of an episode: the count grows by one
      and the solver is wiped when the new count is 1 mod 10. */
    method CountEpisode()
      requires rebuildEpisodes == RebuildSchedule(episodeCount)
      modifies this`episodeCount, this`modelBuilt, this`solverModel, this`rebuildEpisodes
      ensures episodeCount == old(episodeCount) + 1
      ensures rebuildEpisodes == old(rebuildEpisodes) + (if episodeCount % 10 == 1 then [episodeCount] else [])
      ensures rebuildEpisodes == RebuildSchedule(episodeCount)
      ensures modelBuilt == (old(modelBuilt) || episodeCount % 10 == 1)
      ensures solverModel == if episodeCount % 10 == 1 then Wiped else old(solverModel)
    {
      RebuildScheduleNext(episodeCount);
      episodeCount := episodeCount + 1;
      if episodeCount % 10 == 1 {
        BuildModel();
      }
    }

    /** One episode. The reward is the negated drift deviation, the next
      observation is that deviation, and every episode ends after this step. */
    method Step(action: int, trace: seq<StepResult>) returns (nextState: seq<real>, reward: real, done: bool)
      requires Valid()
      requires |trace| == numSteps && WellFormed(trace, floorNum)
      modifies this
      ensures Valid()
      ensures episodeCount == old(episodeCount) + 1
      ensures rebuildEpisodes == old(rebuildEpisodes) + (if episodeCount % 10 == 1 then [episodeCount] else [])
      ensures solverModel == StructureFor(floorNum, ActionToFloor(action))
      ensures lastAlphaValue == AlphaValue(MaxStoryDriftOf(PeakTable(trace, floorNum)), codeDrift)
      ensures floorLog == Appended(old(floorLog), PeakTable(trace, floorNum))
      ensures reward == -lastAlphaValue && reward <= 0.0
      ensures reward == 0.0 <==> MaxStoryDriftOf(PeakTable(trace, floorNum)) == codeDrift
      ensures nextState == [lastAlphaValue]
      ensures done
    {
      CountEpisode();
      var damperFloor := ActionToFloor(action);
      var alphaValue, maxDisps := RunAnalysis(damperFloor, trace);
      reward := -alphaValue;
      lastAlphaValue := alphaValue;
      nextState := [alphaValue];
      SaveFloorDisps(maxDisps);
      done := true;
    }
  }

  /** After any number of episodes the solver has been wiped once every ten
      episodes, at episodes 1, 11, 21, ... */
  lemma WipeCadence(env: BuildingEnv)
    requires env.Valid()
    ensures |env.rebuildEpisodes| == (env.episodeCount + 9) / 10
    ensures forall e :: e in env.rebuildEpisodes <==> 1 <= e <= env.episodeCount && e % 10 == 1
  {
    RebuildScheduleLength(env.episodeCount);
    RebuildScheduleMembers(env.episodeCount);
  }
}
