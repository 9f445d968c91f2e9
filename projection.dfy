/** `_project` (src/smoke.py:141-192): computes the divergence of the velocity field,
    zeroes the pressure, solves for the pressure, and subtracts its gradient from the
    velocities. */
module Projection {
  import opened Grid
  import opened Boundary
  import opened Solver
  import opened Fill

  /** The four fields `_project` works on. */
  datatype Fields = Fields(xs: seq<real>, ys: seq<real>, pressure: seq<real>, divergence: seq<real>)

  predicate Sized(st: StageDescriptor, f: Fields) {
    |f.xs| == |f.ys| == |f.pressure| == |f.divergence| == CellCount(st)
  }

  /** The divergence written at interior cell (x, y) (src/smoke.py:153-162). */
  function Divergence(st: StageDescriptor, xs: seq<real>, ys: seq<real>, x: int, y: int): real
    requires |xs| == |ys| == CellCount(st) && IsInterior(st, x, y)
  {
    var i := CoordToIndex(st, x, y);
    NeighbourIndices(st, x, y);
    -0.5 * (xs[i + 1] - xs[i - 1] + ys[i + st.width] - ys[i - st.width]) / (st.width as real)
  }

  /** A velocity `v` less half the stage width times the pressure difference `hi - lo`
      across the cell. */
  function LessGradient(v: real, width: real, hi: real, lo: real): real {
    v - 0.5 * width * (hi - lo)
  }

  /** The x velocity written at interior cell (x, y): its old value less the horizontal
      pressure gradient (src/smoke.py:176-180). */
  function GradientX(st: StageDescriptor, xs: seq<real>, p: seq<real>, x: int, y: int): real
    requires |xs| == |p| == CellCount(st) && IsInterior(st, x, y)
  {
    var i := CoordToIndex(st, x, y);
    NeighbourIndices(st, x, y);
    LessGradient(xs[i], st.width as real, p[i + 1], p[i - 1])
  }

  /** The y velocity written at interior cell (x, y): its old value less the vertical
      pressure gradient (src/smoke.py:181-188). */
  function GradientY(st: StageDescriptor, ys: seq<real>, p: seq<real>, x: int, y: int): real
    requires |ys| == |p| == CellCount(st) && IsInterior(st, x, y)
  {
    var i := CoordToIndex(st, x, y);
    NeighbourIndices(st, x, y);
    LessGradient(ys[i], st.width as real, p[i + st.width], p[i - st.width])
  }

  function DivergenceRule(st: StageDescriptor, xs: seq<real>, ys: seq<real>): (f: (int, int) --> real)
    requires |xs| == |ys| == CellCount(st)
    ensures Covers(st, f)
  {
    (x, y) requires IsInterior(st, x, y) => Divergence(st, xs, ys, x, y)
  }

  function ZeroRule(st: StageDescriptor): (f: (int, int) --> real)
    ensures Covers(st, f)
  {
    (x, y) requires IsInterior(st, x, y) => 0.0
  }

  function GradientXRule(st: StageDescriptor, xs: seq<real>, p: seq<real>): (f: (int, int) --> real)
    requires |xs| == |p| == CellCount(st)
    ensures Covers(st, f)
  {
    (x, y) requires IsInterior(st, x, y) => GradientX(st, xs, p, x, y)
  }

  function GradientYRule(st: StageDescriptor, ys: seq<real>, p: seq<real>): (f: (int, int) --> real)
    requires |ys| == |p| == CellCount(st)
    ensures Covers(st, f)
  {
    (x, y) requires IsInterior(st, x, y) => GradientY(st, ys, p, x, y)
  }

  /** The pressure solve of `_project`: the solver with boundary kind 0, `a = 1`, `c = 6`. */
  const PressureA: real := 1.0
  const PressureC: real := 6.0

  /** The fields `_project` leaves, step by step as the source computes them. */
  function Projected(st: StageDescriptor, n: nat, f: Fields): (r: Fields)
    requires ValidStage(st) && Sized(st, f)
    ensures Sized(st, r)
  {
    var d1 := Filled(st, f.divergence, DivergenceRule(st, f.xs, f.ys));
    var p1 := Filled(st, f.pressure, ZeroRule(st));
    var d2 := Bounded(0, st, d1);
    var p2 := Bounded(0, st, p1);
    var p3 := Solve(0, st, PressureA, 1.0 / PressureC, d2, p2, n);
    var x4 := Filled(st, f.xs, GradientXRule(st, f.xs, p3));
    var y4 := Filled(st, f.ys, GradientYRule(st, f.ys, p3));
    Fields(Bounded(1, st, x4), Bounded(2, st, y4), p3, d2)
  }

  /** The first loop and its boundary passes leave zero divergence and pressure when
      the velocities are zero and the stale side-column cells are zero. */
  lemma DivergenceStageZero(st: StageDescriptor, f: Fields)
    requires ValidStage(st) && Sized(st, f)
    requires AllZero(f.xs) && AllZero(f.ys)
    requires forall x, y :: InGrid(st, x, y) && IsStale(st, x, y) ==>
      f.pressure[CoordToIndex(st, x, y)] == 0.0 && f.divergence[CoordToIndex(st, x, y)] == 0.0
    ensures AllZero(Bounded(0, st, Filled(st, f.divergence, DivergenceRule(st, f.xs, f.ys))))
    ensures AllZero(Bounded(0, st, Filled(st, f.pressure, ZeroRule(st))))
  {
    var d1 := Filled(st, f.divergence, DivergenceRule(st, f.xs, f.ys));
    var p1 := Filled(st, f.pressure, ZeroRule(st));
    forall x, y | InGrid(st, x, y) && IsInterior(st, x, y)
      ensures d1[CoordToIndex(st, x, y)] == 0.0
    {
      NeighbourIndices(st, x, y);
    }
    BoundedZero(0, st, d1, Bounded(0, st, d1));
    BoundedZero(0, st, p1, Bounded(0, st, p1));
  }

  /** The second loop and its boundary passes leave zero velocities when the velocities
      and the pressure are zero. */
  lemma GradientStageZero(st: StageDescriptor, xs: seq<real>, ys: seq<real>, p: seq<real>)
    requires ValidStage(st) && |xs| == |ys| == |p| == CellCount(st)
    requires AllZero(xs) && AllZero(ys) && AllZero(p)
    ensures AllZero(Bounded(1, st, Filled(st, xs, GradientXRule(st, xs, p))))
    ensures AllZero(Bounded(2, st, Filled(st, ys, GradientYRule(st, ys, p))))
  {
    var x4 := Filled(st, xs, GradientXRule(st, xs, p));
    var y4 := Filled(st, ys, GradientYRule(st, ys, p));
    forall x, y | InGrid(st, x, y) && IsInterior(st, x, y)
      ensures x4[CoordToIndex(st, x, y)] == 0.0 && y4[CoordToIndex(st, x, y)] == 0.0
    {
      NeighbourIndices(st, x, y);
    }
    BoundedZero(1, st, x4, Bounded(1, st, x4));
    BoundedZero(2, st, y4, Bounded(2, st, y4));
  }

  /** Zero velocities give zero everywhere: zero velocities, pressure and divergence,
      whatever the incoming pressure and divergence hold on the cells that the loops
      and the boundary rule overwrite. The stale side-column cells, which nothing
      overwrites, must be zero to begin with; on a square stage there are none. */
  lemma ProjectZero(st: StageDescriptor, n: nat, f: Fields)
    requires ValidStage(st) && Sized(st, f)
    requires AllZero(f.xs) && AllZero(f.ys)
    requires forall x, y :: InGrid(st, x, y) && IsStale(st, x, y) ==>
      f.pressure[CoordToIndex(st, x, y)] == 0.0 && f.divergence[CoordToIndex(st, x, y)] == 0.0
    ensures var r := Projected(st, n, f);
      AllZero(r.xs) && AllZero(r.ys) && AllZero(r.pressure) && AllZero(r.divergence)
  {
    DivergenceStageZero(st, f);
    var d2 := Bounded(0, st, Filled(st, f.divergence, DivergenceRule(st, f.xs, f.ys)));
    var p2 := Bounded(0, st, Filled(st, f.pressure, ZeroRule(st)));
    SolveZero(0, st, PressureA, 1.0 / PressureC, d2, p2, n);
    GradientStageZero(st, f.xs, f.ys, Solve(0, st, PressureA, 1.0 / PressureC, d2, p2, n));
  }

  // ---------------------------------------------------------------------------
  // The routine on arrays, in place.
  // ---------------------------------------------------------------------------

  /** One row of the first loop of `_project` (src/smoke.py:150-164). */
  method DivergenceRow(st: StageDescriptor, xValues: array<real>, yValues: array<real>,
                       pressureValues: array<real>, divergentValues: array<real>, y: int,
                       ghost d0: seq<real>, ghost p0: seq<real>)
    requires ValidStage(st) && 1 <= y <= st.height - 2
    requires xValues.Length == yValues.Length == pressureValues.Length == divergentValues.Length == CellCount(st)
    requires |d0| == |p0| == CellCount(st)
    requires pressureValues != divergentValues
    requires xValues != pressureValues && xValues != divergentValues
    requires yValues != pressureValues && yValues != divergentValues
    requires FilledBefore(st, divergentValues[..], d0, DivergenceRule(st, xValues[..], yValues[..]), false, 1, y)
    requires FilledBefore(st, pressureValues[..], p0, ZeroRule(st), false, 1, y)
    modifies pressureValues, divergentValues
    ensures FilledBefore(st, divergentValues[..], d0, DivergenceRule(st, xValues[..], yValues[..]), false, 1, y + 1)
    ensures FilledBefore(st, pressureValues[..], p0, ZeroRule(st), false, 1, y + 1)
  {
    ghost var df := DivergenceRule(st, xValues[..], yValues[..]);
    ghost var zf := ZeroRule(st);
    for x := 1 to st.width - 1
      invariant FilledBefore(st, divergentValues[..], d0, df, false, x, y)
      invariant FilledBefore(st, pressureValues[..], p0, zf, false, x, y)
    {
      var index := CoordToIndex(st, x, y);
      NeighbourIndices(st, x, y);
      var divergence := -0.5 * (xValues[index + 1] - xValues[index - 1]
                                + yValues[index + st.width] - yValues[index - st.width]) / (st.width as real);
      assert divergence == df(x, y);
      FillStep(st, divergentValues[..], d0, df, false, x, y);
      WriteCell(divergentValues, st, x, y, divergence);
      FillStep(st, pressureValues[..], p0, zf, false, x, y);
      WriteCell(pressureValues, st, x, y, 0.0);
    }
    FillLineDone(st, divergentValues[..], d0, df, false, y);
    FillLineDone(st, pressureValues[..], p0, zf, false, y);
  }

  /** The first loop of `_project` (src/smoke.py:149-164): the divergence of each
      interior cell, and a zero pressure there. */
  method DivergenceAndClear(st: StageDescriptor, xValues: array<real>, yValues: array<real>,
                            pressureValues: array<real>, divergentValues: array<real>)
    requires ValidStage(st)
    requires xValues.Length == yValues.Length == pressureValues.Length == divergentValues.Length == CellCount(st)
    requires pressureValues != divergentValues
    requires xValues != pressureValues && xValues != divergentValues
    requires yValues != pressureValues && yValues != divergentValues
    modifies pressureValues, divergentValues
    ensures divergentValues[..] == Filled(st, old(divergentValues[..]), DivergenceRule(st, xValues[..], yValues[..]))
    ensures pressureValues[..] == Filled(st, old(pressureValues[..]), ZeroRule(st))
  {
    ghost var d0, p0 := divergentValues[..], pressureValues[..];
    FilledStart(st, d0, DivergenceRule(st, xValues[..], yValues[..]), false);
    FilledStart(st, p0, ZeroRule(st), false);
    for y := 1 to st.height - 1
      invariant FilledBefore(st, divergentValues[..], d0, DivergenceRule(st, xValues[..], yValues[..]), false, 1, y)
      invariant FilledBefore(st, pressureValues[..], p0, ZeroRule(st), false, 1, y)
    {
      DivergenceRow(st, xValues, yValues, pressureValues, divergentValues, y, d0, p0);
    }
    FillDone(st, divergentValues[..], d0, DivergenceRule(st, xValues[..], yValues[..]), false);
    FillDone(st, pressureValues[..], p0, ZeroRule(st), false);
  }

  /** The x velocity update of one cell of the second loop of `_project`
      (src/smoke.py:176-180). */
  method GradientCellX(st: StageDescriptor, xValues: array<real>, pressureValues: array<real>,
                       x: int, y: int, ghost x0: seq<real>)
    requires ValidStage(st) && IsInterior(st, x, y)
    requires xValues.Length == pressureValues.Length == |x0| == CellCount(st) && xValues != pressureValues
    requires FilledBefore(st, xValues[..], x0, GradientXRule(st, x0, pressureValues[..]), false, x, y)
    modifies xValues
    ensures FilledBefore(st, xValues[..], x0, GradientXRule(st, x0, pressureValues[..]), false, x + 1, y)
  {
    ghost var gx := GradientXRule(st, x0, pressureValues[..]);
    var index := CoordToIndex(st, x, y);
    NeighbourIndices(st, x, y);
    assert xValues[index] == x0[index];
    var newX := xValues[index] - 0.5 * (st.width as real) * (pressureValues[index + 1] - pressureValues[index - 1]);
    assert newX == LessGradient(x0[index], st.width as real, pressureValues[index + 1], pressureValues[index - 1]);
    assert newX == gx(x, y);
    FillStep(st, xValues[..], x0, gx, false, x, y);
    WriteCell(xValues, st, x, y, newX);
  }

  /** The y velocity update of one cell of the second loop of `_project`
      (src/smoke.py:181-188). */
  method GradientCellY(st: StageDescriptor, yValues: array<real>, pressureValues: array<real>,
                       x: int, y: int, ghost y0: seq<real>)
    requires ValidStage(st) && IsInterior(st, x, y)
    requires yValues.Length == pressureValues.Length == |y0| == CellCount(st) && yValues != pressureValues
    requires FilledBefore(st, yValues[..], y0, GradientYRule(st, y0, pressureValues[..]), false, x, y)
    modifies yValues
    ensures FilledBefore(st, yValues[..], y0, GradientYRule(st, y0, pressureValues[..]), false, x + 1, y)
  {
    ghost var gy := GradientYRule(st, y0, pressureValues[..]);
    var index := CoordToIndex(st, x, y);
    NeighbourIndices(st, x, y);
    assert yValues[index] == y0[index];
    var newY := yValues[index] - 0.5 * (st.width as real)
                                 * (pressureValues[index + st.width] - pressureValues[index - st.width]);
    assert newY == LessGradient(y0[index], st.width as real,
                                pressureValues[index + st.width], pressureValues[index - st.width]);
    assert newY == gy(x, y);
    FillStep(st, yValues[..], y0, gy, false, x, y);
    WriteCell(yValues, st, x, y, newY);
  }

  /** One row of the second loop of `_project` (src/smoke.py:173-188). */
  method GradientRow(st: StageDescriptor, xValues: array<real>, yValues: array<real>, pressureValues: array<real>,
                     y: int, ghost x0: seq<real>, ghost y0: seq<real>)
    requires ValidStage(st) && 1 <= y <= st.height - 2
    requires xValues.Length == yValues.Length == pressureValues.Length == |x0| == |y0| == CellCount(st)
    requires xValues != yValues && xValues != pressureValues && yValues != pressureValues
    requires FilledBefore(st, xValues[..], x0, GradientXRule(st, x0, pressureValues[..]), false, 1, y)
    requires FilledBefore(st, yValues[..], y0, GradientYRule(st, y0, pressureValues[..]), false, 1, y)
    modifies xValues, yValues
    ensures FilledBefore(st, xValues[..], x0, GradientXRule(st, x0, pressureValues[..]), false, 1, y + 1)
    ensures FilledBefore(st, yValues[..], y0, GradientYRule(st, y0, pressureValues[..]), false, 1, y + 1)
  {
    for x := 1 to st.width - 1
      invariant FilledBefore(st, xValues[..], x0, GradientXRule(st, x0, pressureValues[..]), false, x, y)
      invariant FilledBefore(st, yValues[..], y0, GradientYRule(st, y0, pressureValues[..]), false, x, y)
    {
      GradientCellX(st, xValues, pressureValues, x, y, x0);
      GradientCellY(st, yValues, pressureValues, x, y, y0);
    }
    FillLineDone(st, xValues[..], x0, GradientXRule(st, x0, pressureValues[..]), false, y);
    FillLineDone(st, yValues[..], y0, GradientYRule(st, y0, pressureValues[..]), false, y);
  }

  /** The second loop of `_project` (src/smoke.py:172-188): subtract the pressure
      gradient from the velocity of each interior cell. */
  method SubtractGradient(st: StageDescriptor, xValues: array<real>, yValues: array<real>, pressureValues: array<real>)
    requires ValidStage(st)
    requires xValues.Length == yValues.Length == pressureValues.Length == CellCount(st)
    requires xValues != yValues && xValues != pressureValues && yValues != pressureValues
    modifies xValues, yValues
    ensures xValues[..] == Filled(st, old(xValues[..]), GradientXRule(st, old(xValues[..]), pressureValues[..]))
    ensures yValues[..] == Filled(st, old(yValues[..]), GradientYRule(st, old(yValues[..]), pressureValues[..]))
  {
    ghost var x0, y0 := xValues[..], yValues[..];
    FilledStart(st, x0, GradientXRule(st, x0, pressureValues[..]), false);
    FilledStart(st, y0, GradientYRule(st, y0, pressureValues[..]), false);
    for y := 1 to st.height - 1
      invariant FilledBefore(st, xValues[..], x0, GradientXRule(st, x0, pressureValues[..]), false, 1, y)
      invariant FilledBefore(st, yValues[..], y0, GradientYRule(st, y0, pressureValues[..]), false, 1, y)
    {
      GradientRow(st, xValues, yValues, pressureValues, y, x0, y0);
    }
    FillDone(st, xValues[..], x0, GradientXRule(st, x0, pressureValues[..]), false);
    FillDone(st, yValues[..], y0, GradientYRule(st, y0, pressureValues[..]), false);
  }

  /** `_project` (src/smoke.py:141-192) on four distinct arrays. */
  method Project(st: StageDescriptor, iterationAmount: int, xValues: array<real>, yValues: array<real>,
                 pressureValues: array<real>, divergentValues: array<real>)
    requires ValidStage(st)
    requires xValues.Length == yValues.Length == pressureValues.Length == divergentValues.Length == CellCount(st)
    requires xValues != yValues && xValues != pressureValues && xValues != divergentValues
    requires yValues != pressureValues && yValues != divergentValues && pressureValues != divergentValues
    modifies xValues, yValues, pressureValues, divergentValues
    ensures Fields(xValues[..], yValues[..], pressureValues[..], divergentValues[..]) ==
      Projected(st, RangeLength(iterationAmount), old(Fields(xValues[..], yValues[..], pressureValues[..], divergentValues[..])))
  {
    DivergenceAndClear(st, xValues, yValues, pressureValues, divergentValues);
    SetBoundary(0, divergentValues, st);
    SetBoundary(0, pressureValues, st);
    LinearSolver(0, pressureValues, divergentValues, 1.0, 6.0, st, iterationAmount);
    SubtractGradient(st, xValues, yValues, pressureValues);
    SetBoundary(1, xValues, st);
    SetBoundary(2, yValues, st);
  }
}
