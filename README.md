# Spinal Tap stage simulator: smoke kernel, choreography stepper and colours

This project models three parts of a Python stage-show simulator in Dafny and proves
properties about them.

- **The smoke grid kernel** (`src/smoke.py`). This is a stable-fluids scheme over flat
  `width * height` buffers in row-major order:
  - the index map `_coordToIndex` / `_indexToCoord`;
  - the boundary rule `_setBoundary`;
  - the Gauss–Seidel solver `_linearSolver` and `_diffuse`;
  - the projection `_project`;
  - the semi-Lagrangian advection `_advect`;
  - the `Volume` record with its six buffers and its two injection methods;
  - the `SmokeMachine` record (src/smoke.py:19-28), the datatype `Smoke.SmokeMachine`
    with its position, direction and intensity.

  Cell values are `real`. Every routine that writes numpy arrays in place is a Dafny
  `method` over `array<real>` with the source's loops. Each method is proved equal to a
  function on sequences, and the properties are proved about that function.
- **The choreography stepper** (`src/director.py`). `Choreography.step` is modelled in two
  forms:
  - a class with the fields `objectBins`, `steps`, `stepFrame` and `buffering`;
  - a pure `Tick` function that the method is proved to follow.

  Each entry of a frame is an `add` / `set` / `sub` edit of a light, prop or smoke machine,
  a `buffer` entry, or an entry that changes nothing. Python raises on a malformed entry;
  the model returns `None` or a `raised` flag, and the state is what Python leaves behind.

  The type-to-bin classification loop of `parse` is modelled over already-decoded JSON
  objects.
- **`Colour`** (`src/colour.py`): "one colour or a list of colours", with `isGradient`,
  `getSingleColour` and `getColourIndex`.

Decoded JSON is the datatype `Json.Value`: numbers, strings, lists, and objects with their
members in document order. Python subscripting, including negative indices and
IndexError, is `Wrappers.PyIndex`.

Modelling decisions that follow the code as written:

- **Boundary loop bound.** `_setBoundary` runs its edge loop over `1 .. width - 2` for the
  side columns too (src/smoke.py:50). The kernels therefore require
  `3 <= width <= height`. Outside that range Python behaves differently. With
  `width >= height + 2`, the pass with `index == height` reads past the end of the
  buffer and raises IndexError at src/smoke.py:54. With `width == height + 1`, the
  routine runs to the end, but its last pass also writes the two bottom corners before
  they are averaged.
- **Stale side-column cells.** On a stage higher than wide, rows `width - 1 .. height - 2`
  of the two side columns are never rewritten. `Boundary.IsStale` names them, and the
  properties take them into account.
- **Iteration counts.** The iteration count of `_linearSolver`, `_diffuse` and
  `_project` is any integer. A negative count runs no sweep, as `range(n)` does; this is
  `Solver.RangeLength`.
- **Solver formula.** The solver computes `prev + a * (sum) * (1 / c)`, exactly as
  src/smoke.py:110-113 writes it.
- **`_diffuse`** passes `deltaTime` as `c` (src/smoke.py:134), so it needs
  `deltaTime != 0`.
- **Index calls.** Every `_coordToIndex` call in `_setBoundary`, `addSmokeConcentration`
  and `addVelocity` passes two arguments to a three-parameter function. The kernel uses
  the intended call `_coordToIndex(stageInfo, x, y)`; see "## Findings".

## Model

| member | source | states |
|---|---|---|
| Wrappers.PySlot | src/smoke.py:289 | the slot numpy reads for `s[i]`: it exists exactly for `i` in `[-n, n)`, lies in `[0, n)`, and is `i` itself for a non-negative `i` |
| Wrappers.PyIndex | src/director.py:162 | `s[i]` succeeds exactly for `i` in `[-len, len)` and reads the slot `PySlot` names |
| Grid.CoordToIndex | src/smoke.py:35-36 | a cell of the grid maps to an index in `[0, w*h)` |
| Grid.CoordRoundTrip | src/smoke.py:35-41 | `_indexToCoord(_coordToIndex(x, y)) == (x, y)` for every column `0 <= x < w` and every row |
| Grid.IndexRoundTrip | src/smoke.py:35-41 | `_coordToIndex(_indexToCoord(i)) == i` for every index; the column is in range; the row is in range when `i` is in `[0, w*h)` |
| Grid.IndexToCoord | src/smoke.py:40-41 | `(i % width, i // width)`, whose column always lies in `[0, width)`; `IndexRoundTrip` proves it inverts `_coordToIndex` |
| Grid.CoordInjective | src/smoke.py:35-36 | two cells share an index exactly when they are the same cell |
| Grid.NeighbourIndices | src/smoke.py:104-107 | `index - 1`, `index + 1`, `index - width` and `index + width` are the left, right, top and bottom neighbours |
| Grid.CallCoordToIndex | src/smoke.py:35-36 | a Python call of `_coordToIndex` succeeds exactly when it gets a stage and two numbers, and it then gives `y * width + x` |
| Grid.TwoArgumentCallRaises | src/smoke.py:52-54 | the two-argument call as written raises |
| Grid.ThreeArgumentCallIndexes | src/smoke.py:35-41 | the intended three-argument call gives the cell's index, and that index decodes to the cell |
| Boundary.Sign | src/smoke.py:53-54 | the factor `-1 if mirrored else 1` is -1 exactly when mirrored and 1 exactly when not |
| Boundary.EdgeIteration | src/smoke.py:52-64 | one pass of the edge loop with index `i`: the four reflections of cells `(0, i)`, `(w-1, i)`, `(i, 0)` and `(i, h-1)`, each reading the field as the previous write left it |
| Boundary.BoundaryAt | src/smoke.py:45-81 | the reference value of each cell after `_setBoundary`, stated cell by cell from the original field: a reflected neighbour on the edges, the mean of the two reflected neighbours at the corners, and the old value elsewhere |
| Boundary.BalanceCorners | src/smoke.py:66-81 | the four corner assignments in source order, each reading the field as the previous assignment left it |
| Boundary.EdgeLoop | src/smoke.py:50-64 | the edge loop keeps the field's length |
| Boundary.EdgeLoopCells | src/smoke.py:50-64 | after the passes `1 .. n - 1`, each cell the loop wrote holds its edge rule, computed from the original field, and every other cell its old value |
| Boundary.EdgeIterationCells | src/smoke.py:52-64 | one more pass of the loop body writes the four cells of its index by the edge rules and nothing else |
| Boundary.CornerCells | src/smoke.py:66-81 | the corner assignments, run on the edge-loop result, give the cell-by-cell reference `BoundaryAt` |
| Boundary.Bounded | src/smoke.py:45-81 | the field `_setBoundary` leaves is, cell by cell, the reference definition `BoundaryAt` |
| Boundary.EdgesReflected | src/smoke.py:50-64 | for every `i` in `1 .. w-2`: `v[0,i] == s*v[1,i]` and `v[w-1,i] == s*v[w-2,i]`, with `s == -1` exactly for kind 1; the same for the top and bottom rows with `s == -1` exactly for kind 2 |
| Boundary.CornerAveraged | src/smoke.py:66-81 | a corner is half the sum of its two adjacent edge cells, as they stand afterwards |
| Boundary.CornersAveraged | src/smoke.py:66-81 | all four corners are half the sum of their two adjacent edge cells |
| Boundary.InnerCellsKept | src/smoke.py:45-81 | interior cells keep their value, and so do the stale side-column cells |
| Boundary.BoundedZero | src/smoke.py:45-81 | a field that is zero on the interior and on the stale cells is zero everywhere afterwards |
| Boundary.ReflectEdgesAt | src/smoke.py:52-64 | the four in-place writes of one loop pass give `EdgeIteration` |
| Boundary.ReflectEdges | src/smoke.py:50-64 | the in-place edge loop gives `EdgeLoop` |
| Boundary.AverageCorners | src/smoke.py:66-81 | the four in-place corner writes give `BalanceCorners` |
| Boundary.SetBoundary | src/smoke.py:45-81 | the buffer becomes `Bounded(bc, st, old buffer)` |
| Boundary.ReadAt | src/smoke.py:54 | `values[_coordToIndex(args)]` succeeds only if the index call does |
| Boundary.WriteAt | src/smoke.py:52 | `values[_coordToIndex(args)] = x` succeeds only if the index call does, and keeps the length |
| Boundary.ReflectAsWritten | src/smoke.py:52-54 | one reflecting assignment as written; it succeeds only if both index calls do |
| Boundary.AverageAsWritten | src/smoke.py:67-69 | one corner assignment as written; it succeeds only if all three index calls do |
| Boundary.EdgePassAsWritten | src/smoke.py:52-64 | one pass of the edge loop as written; it succeeds only if its first call, `_coordToIndex(1, index)`, does, so it always raises |
| Boundary.EdgeLoopAsWritten | src/smoke.py:50-64 | the edge loop as written; with no pass to run it leaves the field as it is, and with at least one pass it raises |
| Boundary.SetBoundaryAsWritten | src/smoke.py:45-81 | `_setBoundary` as written, for every stage; it succeeds only if the call `_coordToIndex(1, 0)` does, and it raises on every stage with `width >= 3` |
| Boundary.EdgePassAsWrittenRaises | src/smoke.py:52-54 | as written, every pass of the edge loop raises at `_coordToIndex(1, index)` |
| Boundary.SetBoundaryAsWrittenRaises | src/smoke.py:45-81 | as written, `_setBoundary` raises for every boundary kind, stage and field |
| Solver.Relax | src/smoke.py:110-113 | the value relaxation writes at a cell: `prev + a*(left+right+top+bottom)*(1/c)` |
| Solver.RowSweep | src/smoke.py:99-113 | the inner loop over the columns `1 .. n - 1` of row `y`, each cell relaxed from the field as the earlier cells left it; `RowSweepCells` states its contents |
| Solver.GridSweep | src/smoke.py:98-113 | the outer loop over the rows `1 .. m - 1`; `GridSweepCells` states its contents |
| Solver.Sweep | src/smoke.py:98-113 | one Gauss–Seidel sweep over all interior rows; `SweepCells` states its contents |
| Solver.RangeLength | src/smoke.py:96 | `range(n)` runs `n` passes for a non-negative `n` and none for a negative one |
| Solver.Solve | src/smoke.py:94-114 | zero iterations leave the field unchanged; every iteration keeps its length |
| Solver.RelaxStep | src/smoke.py:100-113 | relaxing the next cell in row-major order extends the swept part by that cell |
| Solver.RowSweepCells | src/smoke.py:99-113 | after the inner loop has reached column `n`, exactly the cells before it in the row have been relaxed |
| Solver.RowFinished | src/smoke.py:98-99 | finishing row y is the same as starting row y + 1 |
| Solver.GridSweepCells | src/smoke.py:98-113 | after rows `1 .. m - 1`, exactly the interior cells of those rows have been relaxed, in row-major order |
| Solver.SweepCells | src/smoke.py:98-113 | a sweep writes only interior cells. Each becomes `prev[i] + a*(left+right+top+bottom)*(1/c)`, where left and top are the values this sweep already wrote and right and bottom are the old values |
| Solver.RowSweepZero | src/smoke.py:99-113 | a row sweep of a zero field with a zero right-hand side stays zero |
| Solver.GridSweepZero | src/smoke.py:98-113 | a full sweep of a zero field with a zero right-hand side stays zero |
| Solver.IterationZero | src/smoke.py:96-114 | one sweep plus the boundary rule keeps a zero field zero |
| Solver.SolveZero | src/smoke.py:85-114 | any number of iterations on a zero field with a zero right-hand side give zero |
| Solver.DiffuseZero | src/smoke.py:118-137 | diffusing a zero field with a zero previous field gives zero, for every diffusion rate and non-zero time step |
| Solver.RelaxRow | src/smoke.py:99-113 | the in-place inner loop gives `RowSweep` |
| Solver.SweepInPlace | src/smoke.py:98-113 | the in-place outer loop gives `Sweep` |
| Solver.LinearSolver | src/smoke.py:85-114 | the buffer becomes `Solve(bc, st, a, 1/c, prev, old buffer, RangeLength(iterationAmount))`, for any integer count |
| Solver.Diffused | src/smoke.py:118-137 | the solver with `a = diffusion*dt*w*h` and `c = dt`, keeping the field's length |
| Solver.Diffuse | src/smoke.py:118-137 | the buffer becomes `Diffused` of its old contents, that is the solver's result with `a = diffusion*dt*w*h` and `c = dt`, for any integer count |
| Fill.Filled | src/smoke.py:149-164 | each interior cell is replaced by the rule's value; every other cell is kept |
| Fill.FillStep | src/smoke.py:150-164 | writing the rule's value at the visited cell moves the loop on by one cell |
| Fill.FillDone | src/smoke.py:149-164 | once every line is done, the buffer is `Filled` |
| Projection.Divergence | src/smoke.py:153-162 | the divergence written at an interior cell: `-0.5*(x[i+1]-x[i-1]+y[i+w]-y[i-w])/w` |
| Projection.GradientX | src/smoke.py:176-180 | the x velocity written at an interior cell: its old value less `0.5*w*(p[i+1]-p[i-1])` |
| Projection.GradientY | src/smoke.py:181-188 | the y velocity written at an interior cell: its old value less `0.5*w*(p[i+w]-p[i-w])` |
| Projection.Projected | src/smoke.py:141-192 | the step-by-step composition of `_project` keeps all four fields' lengths |
| Projection.DivergenceStageZero | src/smoke.py:149-168 | with zero velocities, zero stale cells and the boundary passes, the divergence and the pressure become zero everywhere |
| Projection.GradientStageZero | src/smoke.py:172-192 | with zero velocities and zero pressure, both velocity fields stay zero through the gradient loop and their boundary passes |
| Projection.ProjectZero | src/smoke.py:141-192 | zero velocities give zero velocities, zero pressure and zero divergence everywhere; the incoming pressure and divergence need to be zero only on the stale cells |
| Projection.DivergenceRow | src/smoke.py:150-164 | one row of the first loop writes the divergence and a zero pressure at each of its cells |
| Projection.DivergenceAndClear | src/smoke.py:149-164 | the first loop gives `Filled` with the divergence rule and with the zero rule |
| Projection.GradientCellX | src/smoke.py:176-180 | one cell's x update: its old value less `0.5*w*(p[i+1]-p[i-1])` |
| Projection.GradientCellY | src/smoke.py:181-188 | one cell's y update: its old value less `0.5*w*(p[i+w]-p[i-w])` |
| Projection.GradientRow | src/smoke.py:173-188 | one row of the second loop updates each of its cells |
| Projection.SubtractGradient | src/smoke.py:172-188 | the second loop gives `Filled` with the two gradient rules |
| Projection.Project | src/smoke.py:141-192 | the four buffers become `Projected` of their old contents, with `RangeLength(iterationAmount)` solver iterations |
| Advection.Clamp | src/smoke.py:219-226 | the clamped position lies in `[lo, hi]`; it is the position itself when that is already in range, and otherwise one of the bounds |
| Advection.Weights | src/smoke.py:235-238 | `s0 + s1 == 1`, `s1` is the fractional part, `0 <= s1 < 1` and `0 < s0 <= 1` |
| Advection.SampleInBounds | src/smoke.py:229-232 | a clamped coordinate in `[0.5, n-1.5]` has its floor and floor + 1 in `[0, n-1]` |
| Advection.BackTrace | src/smoke.py:207-226 | the back-traced, clamped position lies in `[0.5, w-1.5] x [0.5, h-1.5]` |
| Advection.Interpolate | src/smoke.py:229-247 | the bilinear interpolation of the previous densities at a clamped position, with the weights of `Weights` |
| Advection.AdvectAt | src/smoke.py:212-247 | the density written at an interior cell: the interpolation at its back-traced, clamped position |
| Advection.Advected | src/smoke.py:198-248 | the interpolation loop over the interior followed by the boundary rule, keeping the field's length |
| Advection.InterpolateAtCell | src/smoke.py:229-247 | the interpolation at a cell's own position is that cell's value |
| Advection.AdvectStillCell | src/smoke.py:212-247 | with zero velocity at a cell, the cell takes its previous value |
| Advection.AdvectStill | src/smoke.py:198-248 | with both velocity fields zero, every interior cell ends up with its previous value, for any time step |
| Advection.TraceBack | src/smoke.py:212-226 | the in-place computation of the clamped position is `BackTrace` |
| Advection.Sample | src/smoke.py:229-247 | the four reads and the weighting give `Interpolate` |
| Advection.AdvectColumn | src/smoke.py:211-247 | one column of the loop writes the interpolated value at each of its cells |
| Advection.Advect | src/smoke.py:198-248 | the density buffer becomes `Advected`, the interpolation loop followed by the boundary rule |
| Smoke.Zeros | src/smoke.py:278-284 | `np.zeros(n)` has length `n` and every cell is zero |
| Smoke.Injected | src/smoke.py:289 | `field[index] += amount` succeeds exactly for an index in `[-n, n)`. It adds the amount at the slot Python reads and changes no other slot |
| Smoke.InjectedAtCell | src/smoke.py:287-289 | injecting at the index of a stage cell adds the amount to that cell and to no other |
| Smoke.InjectedAdds | src/smoke.py:289 | two injections at one index add up |
| Smoke.InjectedUndo | src/smoke.py:294-295 | injecting an amount and then its negation restores the field |
| Smoke.Volume.constructor | src/smoke.py:270-284 | six fresh, distinct buffers of `w*h` zeros, and the three parameters stored |
| Smoke.Volume.AddSmokeConcentration | src/smoke.py:287-289 | raises exactly when the index is out of range; otherwise `dN` is `Injected` at the cell, and no other buffer changes |
| Smoke.Volume.AddVelocity | src/smoke.py:292-295 | raises exactly when the index is out of range; otherwise `xN` and `yN` are `Injected` with `vX` and `vY` at the cell |
| Smoke.AddSmokeConcentrationAsWritten | src/smoke.py:287-289 | `addSmokeConcentration` as written, with the two-argument index call; it succeeds only if that call does |
| Smoke.AddVelocityAsWritten | src/smoke.py:292-295 | `addVelocity` as written, with the same index call; it succeeds only if that call does |
| Smoke.InjectionAsWrittenRaises | src/smoke.py:287-295 | as written, both injection methods raise for every cell and every amount |
| Json.Lookup | src/director.py:64 | `obj[key]` succeeds exactly when the key is a member name; with distinct names it gives that member's value |
| Json.Subscript | src/director.py:210-211 | `v[i]` on a list is Python's list index; on a string it is the one-character string; a number or an object raises |
| Colours.IsGradient | src/colour.py:16-17 | a colour is a gradient exactly when its raw value is not a string |
| Colours.GetSingleColour | src/colour.py:20-24 | a single colour gives itself; a non-empty list gives its first entry; anything else raises |
| Colours.GetColourIndex | src/colour.py:27-31 | a single colour gives itself for every index; a list gives entry `index` and raises exactly outside `[-len, len)` |
| Colours.FirstIsSingle | src/colour.py:20-31 | `getColourIndex(0) == getSingleColour()` |
| Colours.SingleEverywhere | src/colour.py:27-31 | a single colour gives the same answer for all indices, `getSingleColour()` |
| Colours.GradientLast | src/colour.py:27-29 | index -1 of a list gradient is its last entry |
| Director.EditNumber | src/director.py:173-198 | `set` replaces the field; `add` and `sub` add or subtract `step[4]`. An unknown string argument keeps the field. It raises exactly when the argument is not a string, or when an edit lacks a numeric operand |
| Director.EditPair | src/director.py:207-224 | it raises exactly when the argument is not a string or an edit lacks a pair of numbers; an unknown string argument keeps the position |
| Director.NumberPair | src/director.py:209-222 | `(step[4][0], step[4][1])` as two numbers: it succeeds exactly when the operand is a list whose first two entries are numbers, and gives those |
| Director.EditLight | src/director.py:172-200 | `colour` replaces the colour by `Colour(step[3])`; a successful edit changes only the field its action names, and never the spread |
| Director.EditProp | src/director.py:207-233 | a successful edit changes only the field its action names |
| Director.EditMachine | src/director.py:240-266 | a successful edit changes only the field its action names, and never the direction |
| Director.PairIsComponentwise | src/director.py:207-224 | a position edit is the numeric edit applied to each coordinate |
| Director.NumberUndo | src/director.py:173-178 | `add` then `sub` of the same number restores a numeric field |
| Director.PairUndo | src/director.py:208-222 | `add` then `sub` of the same pair restores a position |
| Director.LightUndo | src/director.py:172-198 | `add` then `sub` restores a light, for every action but `colour` |
| Director.PropUndo | src/director.py:207-233 | `add` then `sub` restores a prop |
| Director.MachineUndo | src/director.py:240-266 | `add` then `sub` restores a smoke machine |
| Director.LightSetOverwrites | src/director.py:172-198 | a second `set` of a light's field gives what that `set` gives alone |
| Director.PropSetOverwrites | src/director.py:207-233 | a second `set` of a prop's field gives what that `set` gives alone |
| Director.MachineSetOverwrites | src/director.py:240-266 | a second `set` of a smoke machine's field gives what that `set` gives alone |
| Director.ApplyLight | src/director.py:167-201 | only the named light can change; no bin other than the lights and no key set changes |
| Director.ApplyProp | src/director.py:202-234 | only the named prop can change; no bin other than the props and no key set changes |
| Director.ApplyMachine | src/director.py:235-267 | only the named smoke machine can change; no bin other than the machines and no key set changes |
| Director.ApplyEntry | src/director.py:163-275 | only the object the entry names can change. No object appears or disappears, and no volume steps. Only a `buffer` entry changes the buffering count. An empty entry raises |
| Director.BufferEntry | src/director.py:272-273 | a `buffer` entry sets the buffering count to `step[1]` and changes no object |
| Director.PassiveEntry | src/director.py:268-275 | `lightgroup`, `smokemachinevolume` and unknown string types change nothing |
| Director.EntryDispatch | src/director.py:164-235 | a `light`, `prop` or `smokemachine` entry is the edit of that kind of object |
| Director.LightUnknownKeeps | src/director.py:172-200 | an action other than `colour` keeps the light when its argument is an unknown string, and whatever the argument when the action is not `position`, `direction` or `intensity` |
| Director.PropUnknownKeeps | src/director.py:207-233 | an unknown string argument, or any action other than `position` and `scale` whatever the argument, keeps the prop |
| Director.MachineUnknownKeeps | src/director.py:240-266 | an unknown string argument, or any action other than `position` and `intensity` whatever the argument, keeps the smoke machine |
| Director.LightEntryKeeps | src/director.py:179-198 | such a `light` entry leaves the bins unchanged |
| Director.PropEntryKeeps | src/director.py:223-233 | such a `prop` entry leaves the bins unchanged |
| Director.MachineEntryKeeps | src/director.py:256-266 | such a `smokemachine` entry leaves the bins unchanged |
| Director.UnknownEdit | src/director.py:179-180 | an unknown action, or an unknown string argument of a known action, changes no object and not the buffering count |
| Director.LightEntryUndo | src/director.py:172-198 | an `add` entry followed by the same entry with `sub` restores the light bin |
| Director.PropEntryUndo | src/director.py:207-233 | an `add` entry followed by the same entry with `sub` restores the prop bin |
| Director.MachineEntryUndo | src/director.py:240-266 | an `add` entry followed by the same entry with `sub` restores the smoke machine bin |
| Director.AddThenSubRestores | src/director.py:172-266 | `add` followed by `sub` of the same operand restores all bins and the buffering count, for every action but `colour` |
| Director.LightEntrySet | src/director.py:175-176 | a second `set` entry of a light gives what that entry gives alone |
| Director.PropEntrySet | src/director.py:213-229 | a second `set` entry of a prop gives what that entry gives alone |
| Director.MachineEntrySet | src/director.py:246-262 | a second `set` entry of a smoke machine gives what that entry gives alone |
| Director.SetOverwrites | src/director.py:175-262 | a `set` forgets what was there: a second `set` entry gives what it gives alone |
| Director.ApplyEntries | src/director.py:163-275 | a frame keeps every key set and every volume; without a `buffer` entry it keeps the buffering count |
| Director.StepVolumes | src/director.py:149-153 | every volume is stepped once and no volume appears or disappears |
| Director.Tick | src/director.py:148-279 | a tick never changes the frame list |
| Director.TickStepsVolumes | src/director.py:149-153 | every tick steps every volume exactly once, before the buffering check, and keeps the sets of lights, props and machines |
| Director.TickWhileBuffering | src/director.py:156-160 | a buffering count above 1 goes down by one; the frame and every object stay as they were |
| Director.TickAdvances | src/director.py:279 | a tick that is not held and does not raise moves to `(stepFrame + 1) % len(steps)`, a valid frame index |
| Director.TickRaisedKeepsFrame | src/director.py:162-279 | a tick that raises leaves the frame where it was |
| Director.TickKeepsFrameInRange | src/director.py:162-279 | a valid frame index stays valid from tick to tick |
| Director.Choreography.constructor | src/director.py:142-145 | the first frame is 0 and the buffering count 1 |
| Director.Choreography.Step | src/director.py:148-279 | the new state and the raised flag are `Tick` of the old state |
| Director.EmptyBins | src/director.py:55-61 | one empty bin for each bin that `objectMapping` names |
| Director.ClassifyOne | src/director.py:63-67 | raises exactly when the object has no string type; keeps the set of bins |
| Director.ClassifyFrom | src/director.py:62-67 | the loop keeps the set of bins |
| Director.ClassifyRaises | src/director.py:62-67 | the loop raises exactly when some object has no string type |
| Director.ClassifyKeeps | src/director.py:62-65 | an entry whose key no later object has is kept |
| Director.ClassifyPuts | src/director.py:62-65 | each known object ends up in its bin under its key |
| Director.ClassifyOrigin | src/director.py:62-67 | every entry of a bin was put there by a known object of that bin's type under its key, or was there before |
| Director.Classify | src/director.py:62-67 | the loop over the objects gives `ClassifyFrom` of the empty bins |
| Director.ClassifyPlacesKnown | src/director.py:62-65 | each object of a known type sits in bin `objectMapping[type][1]`, under its key |
| Director.ClassifyPlacesOnlyKnown | src/director.py:62-67 | every entry comes from an object of that bin's type, so unknown types are dropped |

## Left out

- I/O, JSON decoding, the command line, the `tqdm` loop and all drawing. This covers `draw`, `clean`, `loadFromFile`, src/light.py's patches and src/prop.py's images.
- Module loading: the model assumes both modules load with two references removed. As written, src/smoke.py:31 calls `col.getOrMakeCMAP` when the module is imported, and src/colour.py does not define it, so importing src/smoke.py raises AttributeError. The class body of `Choreography` reads `smoke.SmokeMachineVolume` (src/director.py:34), which src/smoke.py does not define, so that class cannot be defined either. As written, no kernel and no `step` can run; the model describes what they do once both references are removed.
- `Volume.step` (src/smoke.py:298-299) has an empty body and no `self`, so there is nothing to model.
- Object construction in `parse` (src/director.py:69-117) is left out. It loads images, calls `SmokeMachine` with two arguments where it takes three (src/director.py:88), and uses `smoke.SmokeMachineVolume`, which src/smoke.py does not define (src/director.py:104; the same name is already read at src/director.py:34). The model starts from already built objects.
- Smoke machine volumes are abstract. Each is a counter of the calls of its `step()`.
- The `lightGroups` bin is left out, because `step` never reads it.
- The volume loop of `step` (src/director.py:149-153) is one map update, since the volumes are independent counters.
- `objectBins` is class-level shared state in Python, so every `Choreography` shares it. The model gives each instance its own bins; sharing between instances is not modelled.
- Floating point: cell values, positions and counts are exact reals. Rounding and numerical properties (solver convergence, divergence after projection) are out of scope.
- Array aliasing: the kernels have no callers in the source, because `Volume.step` (src/smoke.py:298-299) is empty. Their only internal calls, `_diffuse` to `_linearSolver` (src/smoke.py:129) and `_project` to `_linearSolver` (src/smoke.py:169), pass two different parameters through. So the model requires distinct buffers and does not model aliasing.
- Smoke.Volume.constructor: requires a non-negative cell count. With a negative `width * height`, `np.zeros` raises ValueError (src/smoke.py:278); that error path is not modelled.
- `_linearSolver` and `_diffuse` require a non-zero `c` (`deltaTime`). In Python, `1 / c` with `c == 0` raises ZeroDivisionError; that error path is not modelled.
- The JSON subset has no booleans and no null. Python treats `True` as 1 in arithmetic and comparisons; the model does not.
- Director.EditNumber: a `set` whose operand is not a number is modelled as raising. Python stores any value there, which would make the field a non-number for later ticks.
- Director.EditPair: a `set` whose operand does not yield two numbers is modelled as raising. Python stores whatever `step[4][0]` and `step[4][1]` give, for instance two characters of a string.
- Frames are lists of lists. A frame or an entry that is a string or an object is not modelled.
- Director.ClassifyPlacesKnown requires the object names to be distinct. A decoded JSON object always satisfies this, because duplicate names collapse to one member.
- The loop bodies of `_setBoundary`, `_linearSolver`, `_project` and `_advect` are split into Dafny methods (one pass, one row or column, one cell). The sequence of reads and writes is the source's.

## Findings

| source | as written | input that shows it | evidently intended | confidence | as-written member | corrected member |
|---|---|---|---|---|---|---|
| src/smoke.py:52-80 | `_setBoundary` calls `_coordToIndex(0, index)` and the like, with two arguments for three parameters, so every call raises TypeError | any call, e.g. `_setBoundary(0, v, StageDescriptor(3, 3))` raises at its first call, `_coordToIndex(1, 1)` (src/smoke.py:54) | `_coordToIndex(stageInfo, x, y)` | high, not executed | Boundary.SetBoundaryAsWrittenRaises | Boundary.EdgesReflected |
| src/smoke.py:288-293 | `addSmokeConcentration` and `addVelocity` call `_coordToIndex(pX, pY)`, so they raise TypeError | any call, e.g. `addSmokeConcentration(1, 1, 1.0)` raises at `_coordToIndex(1, 1)` (src/smoke.py:288) | `_coordToIndex(self.stageInfo, pX, pY)` | high, not executed | Smoke.InjectionAsWrittenRaises | Smoke.InjectedAtCell |
