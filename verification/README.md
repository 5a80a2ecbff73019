# Ten-storey damper-placement environment, modelled in Dafny

This project models the environment `BuildingEnv10Floors` of a
reinforcement-learning script. A policy picks which floor of a ten-storey
shear building receives a supplemental damper; the environment evaluates that
choice. Each episode is one step. The step places the damper on floor
`action + 1` and runs a time-history analysis with an external finite-element
solver. It then takes the largest
inter-storey drift ratio of the per-floor peak displacements and rewards the
policy with minus the absolute deviation of that drift from the code drift
limit.

The model has five modules:

- `Building` (building.dfy): the constants (10 floors, storey height 3.0, floor
  mass 1.0e5, link stiffness 1.0e8, material tag 1) and `Abs`.
- `Topology` (topology.dfy): the nodes, boundary condition, masses, material
  and link elements that one analysis declares to the solver. It is a pure
  function of the floor count and the damper floor.
- `PeakTracker` (peak_tracker.dfy): the time-history loop. It works in place on
  an array of floor peaks. The solver is an oracle: a sequence of per-step
  answers, each a status and the displacement of every floor node.
- `StoryDrift` (story_drift.dfy): the running maximum of the adjacent-floor
  drift ratios, and the deviation `alphavalue`.
- `Environment` (environment.dfy): the class `BuildingEnv`, with the episode
  counter, the `model_built` flag and the last observation as fields. It has
  `Reset`, `Step`, the periodic wipe `BuildModel`, `RunAnalysis` and
  `SaveFloorDisps`; `CountEpisode` is the counting and wiping that opens
  `Step`. Three ghost fields hold state outside the program: the
  model held by the solver, the lines appended to the ten per-floor log
  files, and the episodes at which the solver was wiped.

Displacements, drifts and rewards are `real`. This idealises the source's
floating point: the logic only compares, subtracts, takes magnitudes and
divides by the constant 3.0.

Three details of the code shape the model:

- The chain starts at node 2: element `t` joins node tags `t+1` and `t+2`
  (new1.py:101-104). So the fixed base node 1 is linked to the structure only
  when the damper is on floor 1 (`Topology.BaseLinkedOnlyByDamper`).
- Each floor keeps the signed value of largest magnitude (new1.py:140-141),
  and the drift is computed from those signed values.
- The drift loop runs over `floor_num - 1` pairs (new1.py:145). The peak table
  always has `floor_num` entries, so the model counts the pairs from the
  table's length.

## Model

| member | source | states |
|---|---|---|
| `Topology.ModelNodes` | new1.py:82-97 | 11 nodes for 10 floors, node tag `i+1` at position `3.0*i`; only node 1 is fixed; exactly the nodes 2..11 carry mass 1.0e5; one elastic material, tag 1, stiffness 1.0e8 |
| `Topology.NodesFromShape` | new1.py:83-85 | the node loop creates one node per index `i`, with tag `i+1` and position `i * 3.0`, in order |
| `Topology.MassesFromShape` | new1.py:90-92 | the mass loop assigns the floor mass to exactly the tags `nd .. floorNum+1` |
| `Topology.ChainFromShape` | new1.py:100-104 | the chain loop creates, in order, element `t` joining node tags `t+1` and `t+2` |
| `Topology.ChainLinks` | new1.py:99-104 | there are exactly `floorNum - 1` chain links, the `k`-th with tag `k+1` joining tags `k+2` and `k+3` |
| `Topology.DamperLinks` | new1.py:106-110 | at most one damper link; there is one exactly when `1 <= d < floorNum`, and it takes the next element tag and joins node tags `d` and `d+1` |
| `Topology.Elements` | new1.py:99-110 | the link elements in creation order: `floorNum - 1` chain links, plus one damper link exactly when `1 <= d < floorNum`; the damper is then the last element, with tag `floorNum`, joining `d` and `d+1` |
| `Topology.StructureWellFormed` | new1.py:80-110 | the model `StructureFor` declares for any floor count and damper floor has `floorNum + 1` nodes, fixes one of them, gives mass to exactly the nodes that are not fixed, and links only adjacent declared nodes |
| `Topology.ElementsShape` | new1.py:100-110 | element tags are consecutive from 1, hence unique; every element joins two adjacent existing nodes; a damper is the last element, with tag `floorNum`, joining `d` and `d+1` |
| `Topology.DamperAddedIff` | new1.py:106-110 | a damper link is added if and only if `1 <= d < floorNum`: `floorNum` elements in that case, `floorNum - 1` otherwise |
| `Topology.BaseLinkedOnlyByDamper` | new1.py:100-110 | the fixed base node 1 belongs to some element if and only if the damper floor is 1 |
| `Environment.ActionToFloor` | new1.py:49 | the damper floor is `action + 1`; it yields a damper link exactly for actions 0..8 |
| `Environment.ActionElementCount` | new1.py:106-110 | with damper floor `action + 1`, actions 0..8 give 10 elements and action 9 (or any other) gives 9 |
| `PeakTracker.CompletedSteps` | new1.py:132-135 | the number of recorded steps is at most the number of analysis steps; every recorded step succeeded; the step right after them failed |
| `PeakTracker.KeepLargerMagnitude` | new1.py:140-141 | one update keeps the kept value or the new one, whichever has the larger magnitude, and switches only when the new magnitude is strictly larger, so a tie keeps the earlier value |
| `PeakTracker.RecordSnapshot` | new1.py:137-141 | after the inner loop over node tags `2 .. floorNum + 1`, each floor's entry is replaced by the new displacement exactly when that value has strictly larger magnitude, and is kept otherwise |
| `PeakTracker.PeaksAfterAt` | new1.py:131-141 | after `k` recorded steps, floor `i` of the table is the running peak of the values that those steps reported for that floor |
| `PeakTracker.PeaksAfterPrefix` | new1.py:131-141 | the table after `k` recorded steps depends only on those `k` solver answers |
| `PeakTracker.TrackPeaks` | new1.py:131-141 | the in-place loop over steps and floors leaves, per floor, the running peak over the steps before the first failing status |
| `PeakTracker.PeakDominates` | new1.py:140-141 | a floor's peak has magnitude at least that of every value recorded for it |
| `PeakTracker.PeakIsEarliestLargest` | new1.py:140-141 | a nonzero peak is a recorded signed value, and every earlier value has strictly smaller magnitude, so a tie keeps the earlier value |
| `PeakTracker.PeakZeroOnlyIfAllZero` | new1.py:131-141 | a floor's peak stays at its initial 0.0 exactly when every recorded value is 0.0 |
| `PeakTracker.PeakTableBounds` | new1.py:131-141 | for every floor, the peak bounds each recorded displacement in magnitude and is 0.0 or one of the recorded values |
| `PeakTracker.PeaksIgnoreFailedSteps` | new1.py:132-135 | the failing step's displacements, its nonzero status value and all later answers never change the peaks |
| `StoryDrift.DriftUpToIsMax` | new1.py:144-148 | the running maximum over the first `k` pairs is non-negative, bounds each of their drifts and, when positive, equals one of them |
| `StoryDrift.MaxStoryDriftIsMax` | new1.py:144-148 | `max_story_drift >= 0`, `max_story_drift >= abs(m[i+1] - m[i]) / 3.0` for every adjacent pair, and when positive it is one of those drifts |
| `StoryDrift.MaxStoryDriftZeroIff` | new1.py:144-148 | the maximum drift is 0.0 exactly when every floor's peak equals the peak of the floor below |
| `StoryDrift.ComputeMaxStoryDrift` | new1.py:144-148 | the accumulator loop computes exactly that maximum drift |
| `StoryDrift.AlphaValue` | new1.py:151 | the deviation is non-negative, zero exactly when the drift equals the code limit, and equal to the difference taken in one direction or the other |
| `Environment.RebuildScheduleMembers` | new1.py:43-46 | an episode is among the wipes of the first `c` episodes exactly when it is between 1 and `c` and is 1 mod 10 |
| `Environment.RebuildScheduleIncreasing` | new1.py:43-46 | the wipes happen in strictly increasing episode order |
| `Environment.RebuildScheduleLength` | new1.py:43-46 | the first `c` episodes contain `(c + 9) / 10` wipes, one per block of ten starting at episode 1 |
| `Environment.WipeCadence` | new1.py:43-46 | in any valid environment the recorded wipes are the episodes 1, 11, 21, ... up to the current count |
| `Environment.BuildingEnv.constructor` | new1.py:14-32 | the step count is the record length; defaults `dt = 0.02` and code drift `0.01`; no episode yet, model not built, observation 0.0 |
| `Environment.BuildingEnv.Reset` | new1.py:34-39 | the last deviation becomes 0.0 and the state `[0.0]` is returned; nothing else changes, the episode count included |
| `Environment.BuildingEnv.BuildModel` | new1.py:67-72 | wipes the solver's model and sets `model_built` |
| `Environment.BuildingEnv.CountEpisode` | new1.py:43-46 | the count grows by one; exactly when the new count is 1 mod 10 the solver is wiped and the built flag set, otherwise the solver keeps its model; the recorded wipes remain the schedule of the new count |
| `Environment.BuildingEnv.RunAnalysis` | new1.py:74-153 | the solver is wiped and then given the model for the damper floor; the result is the per-floor peak table and the deviation of its maximum drift from the code limit |
| `Environment.BuildingEnv.SaveFloorDisps` | new1.py:155-164 | each floor's log gets exactly one more line, that floor's peak, appended after its previous lines |
| `Environment.BuildingEnv.Step` | new1.py:41-65 | the count grows by one; a wipe happens exactly when the new count is 1 mod 10; the solver holds the model for floor `action + 1`; reward is minus the deviation, at most 0, and 0 exactly when the drift meets the code limit; the next state is `[deviation]`, also stored; one line is appended per floor; `done` is always true |

## Left out

- The finite-element solver is not modelled. Each analysis step's status and
  floor displacements are an input sequence with one entry per sample of the
  ground-motion record. Nothing ties these answers to the declared model,
  damping or excitation.
- Environment.BuildingEnv.RunAnalysis: it does not state that the solver's
  answers follow from the structure it declares, because the solver is an
  input here. So it does not capture that two analyses of the same model and
  record give the same result. It does state that the result depends on
  nothing but the damper floor, the answers and the code limit.
- The model-dimension declaration, the time series, the uniform-excitation
  pattern, the Rayleigh coefficients (all zero, and the unused `zeta`) and the
  solver options (banded system, plain numbering and constraints, Newmark 0.5
  and 0.25, Newton, transient) are omitted. They only pass parameters to the
  solver.
- Environment.BuildingEnv.Step: returns the next state, the reward and `done`,
  but not the empty `info` dictionary the source returns as a fourth value,
  which carries nothing.
- The solver is one process-wide object in the source, but here its model is
  the ghost field `solverModel` of each environment. The constructor sets
  that field to the wiped state, although the source's constructor never
  touches the solver. So the model does not capture several environments
  sharing one solver.
- Loading the ground-motion file is not modelled: the record is the
  constructor's parameter. A missing or malformed file is not modelled either.
- The log files are a ghost sequence of values per floor. Directory creation,
  file names, the `.6e` formatting and lines already present from earlier runs
  are not modelled.
- The observation arrays are single-precision floats in the source. Here they
  are one-element sequences of reals, with no rounding.
- The policy network, the categorical sampling, the REINFORCE loss, the Adam
  update, the training loop and its console output are not modelled. They
  rely on a deep-learning library, on randomness and on floating-point numerics.
- opensees部分.py, a standalone two-dimensional analysis script, is not part
  of this model.
