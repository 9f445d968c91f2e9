/** `_linearSolver` and `_diffuse` (src/smoke.py:85-137): Gauss–Seidel relaxation of the
    interior cells, row by row and left to right, each sweep followed by `_setBoundary`. */
module Solver {
  import opened Grid
  import opened Boundary

  /** The update of one cell as the source writes it: `prev + a * (sum) * reciprocalC`,
      which is `prev + a * sum / c`, not `(prev + a * sum) / c`. */
  function Relax(p: real, a: real, rc: real, left: real, right: real, top: real, bottom: real): real {
    p + a * (left + right + top + bottom) * rc
  }

  /** The value written at interior cell (x, y), reading the field `u` as it stands at
      the flat indices `index - 1`, `index + 1`, `index - width`, `index + width`. */
  function RelaxAt(st: StageDescriptor, a: real, rc: real, prev: seq<real>, u: seq<real>, x: int, y: int): real
    requires |prev| == |u| == CellCount(st) && IsInterior(st, x, y)
  {
    var i := CoordToIndex(st, x, y);
    NeighbourIndices(st, x, y);
    Relax(prev[i], a, rc, u[i - 1], u[i + 1], u[i - st.width], u[i + st.width])
  }

  // ---------------------------------------------------------------------------
  // One sweep as written: rows 1 .. height - 2, in each row columns 1 .. width - 2.
  // ---------------------------------------------------------------------------

  /** Row y after the inner loop has relaxed columns `1 .. n - 1`, starting from `u`. */
  function RowSweep(st: StageDescriptor, a: real, rc: real, prev: seq<real>, u: seq<real>, y: int, n: int): (r: seq<real>)
    requires ValidStage(st) && |prev| == |u| == CellCount(st) && 1 <= y <= st.height - 2 && 1 <= n <= st.width - 1
    ensures |r| == |u|
    decreases n
  {
    if n == 1 then u
    else
      var t := RowSweep(st, a, rc, prev, u, y, n - 1);
      SetCell(st, t, n - 1, y, RelaxAt(st, a, rc, prev, t, n - 1, y))
  }

  /** The field after the outer loop has swept rows `1 .. m - 1`, starting from `u`. */
  function GridSweep(st: StageDescriptor, a: real, rc: real, prev: seq<real>, u: seq<real>, m: int): (r: seq<real>)
    requires ValidStage(st) && |prev| == |u| == CellCount(st) && 1 <= m <= st.height - 1
    ensures |r| == |u|
    decreases m
  {
    if m == 1 then u
    else RowSweep(st, a, rc, prev, GridSweep(st, a, rc, prev, u, m - 1), m - 1, st.width - 1)
  }

  /** One full Gauss–Seidel sweep of the interior. */
  function Sweep(st: StageDescriptor, a: real, rc: real, prev: seq<real>, u: seq<real>): (r: seq<real>)
    requires ValidStage(st) && |prev| == |u| == CellCount(st)
    ensures |r| == |u|
  {
    GridSweep(st, a, rc, prev, u, st.height - 1)
  }

  /** The field after `n` iterations: a sweep, then the boundary rule, `n` times. */
  function Solve(bc: int, st: StageDescriptor, a: real, rc: real, prev: seq<real>, v: seq<real>, n: nat): (r: seq<real>)
    requires ValidStage(st) && |prev| == |v| == CellCount(st)
    ensures |r| == |v|
    ensures n == 0 ==> r == v
    decreases n
  {
    if n == 0 then v else Bounded(bc, st, Sweep(st, a, rc, prev, Solve(bc, st, a, rc, prev, v, n - 1)))
  }

  // ---------------------------------------------------------------------------
  // What a sweep computes, cell by cell.
  // ---------------------------------------------------------------------------

  /** Whether the sweep reaches cell (x, y) before it reaches column `col` of row `row`. */
  predicate Before(x: int, y: int, col: int, row: int) {
    y < row || (y == row && x < col)
  }

  /** `cur` is the field part way through a sweep of `u`, just before the sweep reaches
      (col, row): every interior cell already visited holds the relaxation of its old
      right and bottom neighbours and its new left and top neighbours; every other cell
      holds its value in `u`. */
  ghost predicate SweptUpTo(st: StageDescriptor, a: real, rc: real, prev: seq<real>, u: seq<real>, cur: seq<real>, col: int, row: int)
    requires ValidStage(st) && |prev| == |u| == |cur| == CellCount(st)
  {
    forall x, y {:trigger cur[CoordToIndex(st, x, y)]} :: InGrid(st, x, y) ==>
      cur[CoordToIndex(st, x, y)] ==
        if IsInterior(st, x, y) && Before(x, y, col, row) then GaussSeidelAt(st, a, rc, prev, u, cur, x, y)
        else u[CoordToIndex(st, x, y)]
  }

  /** The Gauss–Seidel value of interior cell (x, y): the old right and bottom
      neighbours from `u`, the new left and top neighbours from `r`. */
  function GaussSeidelAt(st: StageDescriptor, a: real, rc: real, prev: seq<real>, u: seq<real>, r: seq<real>, x: int, y: int): real
    requires |prev| == |u| == |r| == CellCount(st) && IsInterior(st, x, y)
  {
    var i := CoordToIndex(st, x, y);
    NeighbourIndices(st, x, y);
    Relax(prev[i], a, rc, r[i - 1], u[i + 1], r[i - st.width], u[i + st.width])
  }

  /** Relaxing the next cell in order extends the visited part by that cell. */
  lemma RelaxStep(st: StageDescriptor, a: real, rc: real, prev: seq<real>, u: seq<real>, cur: seq<real>, x: int, y: int)
    requires ValidStage(st) && |prev| == |u| == |cur| == CellCount(st) && IsInterior(st, x, y)
    requires SweptUpTo(st, a, rc, prev, u, cur, x, y)
    ensures SweptUpTo(st, a, rc, prev, u, SetCell(st, cur, x, y, RelaxAt(st, a, rc, prev, cur, x, y)), x + 1, y)
  {
    var next := SetCell(st, cur, x, y, RelaxAt(st, a, rc, prev, cur, x, y));
    NeighbourIndices(st, x, y);
    assert cur[CoordToIndex(st, x + 1, y)] == u[CoordToIndex(st, x + 1, y)];
    assert cur[CoordToIndex(st, x, y + 1)] == u[CoordToIndex(st, x, y + 1)];
    assert next[CoordToIndex(st, x - 1, y)] == cur[CoordToIndex(st, x - 1, y)];
    assert next[CoordToIndex(st, x, y - 1)] == cur[CoordToIndex(st, x, y - 1)];
    forall cx, cy | InGrid(st, cx, cy) && IsInterior(st, cx, cy) && Before(cx, cy, x + 1, y)
      ensures GaussSeidelAt(st, a, rc, prev, u, next, cx, cy) == GaussSeidelAt(st, a, rc, prev, u, cur, cx, cy)
    {
      NeighbourIndices(st, cx, cy);
      assert next[CoordToIndex(st, cx - 1, cy)] == cur[CoordToIndex(st, cx - 1, cy)];
      assert next[CoordToIndex(st, cx, cy - 1)] == cur[CoordToIndex(st, cx, cy - 1)];
    }
  }

  lemma {:induction false} RowSweepCells(st: StageDescriptor, a: real, rc: real, prev: seq<real>, u: seq<real>, t: seq<real>, y: int, n: int)
    requires ValidStage(st) && |prev| == |u| == |t| == CellCount(st) && 1 <= y <= st.height - 2 && 1 <= n <= st.width - 1
    requires SweptUpTo(st, a, rc, prev, u, t, 1, y)
    ensures SweptUpTo(st, a, rc, prev, u, RowSweep(st, a, rc, prev, t, y, n), n, y)
    decreases n
  {
    if n > 1 {
      RowSweepCells(st, a, rc, prev, u, t, y, n - 1);
      RelaxStep(st, a, rc, prev, u, RowSweep(st, a, rc, prev, t, y, n - 1), n - 1, y);
    }
  }

  /** Having finished row y is the same as being at the start of row y + 1. */
  lemma RowFinished(st: StageDescriptor, a: real, rc: real, prev: seq<real>, u: seq<real>, cur: seq<real>, y: int)
    requires ValidStage(st) && |prev| == |u| == |cur| == CellCount(st)
    requires SweptUpTo(st, a, rc, prev, u, cur, st.width - 1, y)
    ensures SweptUpTo(st, a, rc, prev, u, cur, 1, y + 1)
  {
    forall x, y' | InGrid(st, x, y') && IsInterior(st, x, y')
      ensures Before(x, y', st.width - 1, y) == Before(x, y', 1, y + 1)
    {
    }
  }

  lemma {:induction false} GridSweepCells(st: StageDescriptor, a: real, rc: real, prev: seq<real>, u: seq<real>, m: int)
    requires ValidStage(st) && |prev| == |u| == CellCount(st) && 1 <= m <= st.height - 1
    ensures SweptUpTo(st, a, rc, prev, u, GridSweep(st, a, rc, prev, u, m), 1, m)
    decreases m
  {
    if m > 1 {
      var t := GridSweep(st, a, rc, prev, u, m - 1);
      GridSweepCells(st, a, rc, prev, u, m - 1);
      RowSweepCells(st, a, rc, prev, u, t, m - 1, st.width - 1);
      RowFinished(st, a, rc, prev, u, RowSweep(st, a, rc, prev, t, m - 1, st.width - 1), m - 1);
    }
  }

  /** The Gauss–Seidel property of one sweep `r` of `u`: cells outside the interior keep
      their value, and each interior cell is `prev + a * (l + r + t + b) * rc` where the
      left and top neighbours are already the new values and the right and bottom
      neighbours still the old ones. */
  lemma SweepCells(st: StageDescriptor, a: real, rc: real, prev: seq<real>, u: seq<real>)
    requires ValidStage(st) && |prev| == |u| == CellCount(st)
    ensures forall x, y {:trigger Sweep(st, a, rc, prev, u)[CoordToIndex(st, x, y)]} :: InGrid(st, x, y) ==>
      Sweep(st, a, rc, prev, u)[CoordToIndex(st, x, y)] ==
        if IsInterior(st, x, y) then GaussSeidelAt(st, a, rc, prev, u, Sweep(st, a, rc, prev, u), x, y)
        else u[CoordToIndex(st, x, y)]
  {
    GridSweepCells(st, a, rc, prev, u, st.height - 1);
  }

  // ---------------------------------------------------------------------------
  // Zero fields stay zero.
  // ---------------------------------------------------------------------------

  lemma {:induction false} RowSweepZero(st: StageDescriptor, a: real, rc: real, prev: seq<real>, u: seq<real>, y: int, n: int)
    requires ValidStage(st) && |prev| == |u| == CellCount(st) && 1 <= y <= st.height - 2 && 1 <= n <= st.width - 1
    requires AllZero(prev) && AllZero(u)
    ensures AllZero(RowSweep(st, a, rc, prev, u, y, n))
    decreases n
  {
    if n > 1 {
      var t := RowSweep(st, a, rc, prev, u, y, n - 1);
      RowSweepZero(st, a, rc, prev, u, y, n - 1);
      assert RelaxAt(st, a, rc, prev, t, n - 1, y) == 0.0 by {
        NeighbourIndices(st, n - 1, y);
      }
      SetCellZero(st, t, n - 1, y);
    }
  }

  lemma {:induction false} GridSweepZero(st: StageDescriptor, a: real, rc: real, prev: seq<real>, u: seq<real>, m: int)
    requires ValidStage(st) && |prev| == |u| == CellCount(st) && 1 <= m <= st.height - 1
    requires AllZero(prev) && AllZero(u)
    ensures AllZero(GridSweep(st, a, rc, prev, u, m))
    decreases m
  {
    if m > 1 {
      GridSweepZero(st, a, rc, prev, u, m - 1);
      RowSweepZero(st, a, rc, prev, GridSweep(st, a, rc, prev, u, m - 1), m - 1, st.width - 1);
    }
  }

  /** Solving with a zero right-hand side from a zero field gives zero, for any
      coefficients and any number of iterations. */
  lemma {:induction false} SolveZero(bc: int, st: StageDescriptor, a: real, rc: real, prev: seq<real>, v: seq<real>, n: nat)
    requires ValidStage(st) && |prev| == |v| == CellCount(st)
    requires AllZero(prev) && AllZero(v)
    ensures AllZero(Solve(bc, st, a, rc, prev, v, n))
    decreases n
  {
    if n > 0 {
      SolveZero(bc, st, a, rc, prev, v, n - 1);
      IterationZero(bc, st, a, rc, prev, Solve(bc, st, a, rc, prev, v, n - 1));
    }
  }

  /** One iteration, a sweep and the boundary rule, keeps a zero field zero. */
  lemma IterationZero(bc: int, st: StageDescriptor, a: real, rc: real, prev: seq<real>, s: seq<real>)
    requires ValidStage(st) && |prev| == |s| == CellCount(st)
    requires AllZero(prev) && AllZero(s)
    ensures AllZero(Bounded(bc, st, Sweep(st, a, rc, prev, s)))
  {
    GridSweepZero(st, a, rc, prev, s, st.height - 1);
    BoundedZero(bc, st, Sweep(st, a, rc, prev, s), Bounded(bc, st, Sweep(st, a, rc, prev, s)));
  }

  // ---------------------------------------------------------------------------
  // `_diffuse`.
  // ---------------------------------------------------------------------------

  /** The coefficient `_diffuse` hands the solver: diffusion * deltaTime * width * height. */
  function DiffuseAmount(st: StageDescriptor, diffusion: real, deltaTime: real): real {
    diffusion * deltaTime * (st.width as real) * (st.height as real)
  }

  /** The field `_diffuse` leaves: the solver with `a = DiffuseAmount` and `c = deltaTime`. */
  function Diffused(bc: int, st: StageDescriptor, n: nat, v: seq<real>, before: seq<real>, diffusion: real, deltaTime: real): (r: seq<real>)
    requires ValidStage(st) && |v| == |before| == CellCount(st) && deltaTime != 0.0
    ensures |r| == |v|
  {
    Solve(bc, st, DiffuseAmount(st, diffusion, deltaTime), 1.0 / deltaTime, before, v, n)
  }

  lemma DiffuseZero(bc: int, st: StageDescriptor, n: nat, v: seq<real>, before: seq<real>, diffusion: real, deltaTime: real)
    requires ValidStage(st) && |v| == |before| == CellCount(st) && deltaTime != 0.0
    requires AllZero(v) && AllZero(before)
    ensures AllZero(Diffused(bc, st, n, v, before, diffusion, deltaTime))
  {
    SolveZero(bc, st, DiffuseAmount(st, diffusion, deltaTime), 1.0 / deltaTime, before, v, n);
  }

  // ---------------------------------------------------------------------------
  // The routines on arrays, in place.
  // ---------------------------------------------------------------------------

  /** The inner loop of `_linearSolver` for row y (src/smoke.py:99-113). */
  method RelaxRow(values: array<real>, prev: array<real>, a: real, rc: real, st: StageDescriptor, y: int)
    requires ValidStage(st) && values.Length == prev.Length == CellCount(st) && values != prev
    requires 1 <= y <= st.height - 2
    modifies values
    ensures values[..] == RowSweep(st, a, rc, prev[..], old(values[..]), y, st.width - 1)
  {
    ghost var t := values[..];
    for x := 1 to st.width - 1
      invariant values[..] == RowSweep(st, a, rc, prev[..], t, y, x)
    {
      ghost var cur := values[..];
      var index := CoordToIndex(st, x, y);
      NeighbourIndices(st, x, y);
      var left := values[index - 1];
      var right := values[index + 1];
      var top := values[index - st.width];
      var bottom := values[index + st.width];
      var e := Relax(prev[index], a, rc, left, right, top, bottom);
      assert e == RelaxAt(st, a, rc, prev[..], cur, x, y);
      WriteCell(values, st, x, y, e);
    }
  }

  /** One sweep: the outer `y` loop of `_linearSolver` (src/smoke.py:98-113). */
  method SweepInPlace(values: array<real>, prev: array<real>, a: real, rc: real, st: StageDescriptor)
    requires ValidStage(st) && values.Length == prev.Length == CellCount(st) && values != prev
    modifies values
    ensures values[..] == Sweep(st, a, rc, prev[..], old(values[..]))
  {
    ghost var u := values[..];
    for y := 1 to st.height - 1
      invariant values[..] == GridSweep(st, a, rc, prev[..], u, y)
    {
      RelaxRow(values, prev, a, rc, st, y);
    }
  }

  /** `len(range(n))`: the number of passes of `for _ in range(n)`, zero for a negative
      `n`. */
  function RangeLength(n: int): (r: nat)
    ensures r == 0 <==> n <= 0
    ensures 0 <= n ==> r == n
  {
    if n < 0 then 0 else n
  }

  /** `_linearSolver` (src/smoke.py:85-114): `iterationAmount` sweeps, each followed by
      the boundary rule; a negative count runs none. `c == 0` would divide by zero. */
  method LinearSolver(bc: int, values: array<real>, prev: array<real>, a: real, c: real, st: StageDescriptor, iterationAmount: int)
    requires ValidStage(st) && values.Length == prev.Length == CellCount(st) && values != prev
    requires c != 0.0
    modifies values
    ensures values[..] == Solve(bc, st, a, 1.0 / c, prev[..], old(values[..]), RangeLength(iterationAmount))
  {
    var reciprocalC := 1.0 / c;
    ghost var v := values[..];
    var passes := if iterationAmount < 0 then 0 else iterationAmount;
    for i := 0 to passes
      invariant values[..] == Solve(bc, st, a, reciprocalC, prev[..], v, i)
    {
      SweepInPlace(values, prev, a, reciprocalC, st);
      SetBoundary(bc, values, st);
    }
  }

  /** `_diffuse` (src/smoke.py:118-137). */
  method Diffuse(bc: int, st: StageDescriptor, iterationAmount: int, values: array<real>, beforeValues: array<real>, diffusion: real, deltaTime: real)
    requires ValidStage(st) && values.Length == beforeValues.Length == CellCount(st) && values != beforeValues
    requires deltaTime != 0.0
    modifies values
    ensures values[..] == Diffused(bc, st, RangeLength(iterationAmount), old(values[..]), beforeValues[..], diffusion, deltaTime)
  {
    var diffuseAmount := DiffuseAmount(st, diffusion, deltaTime);
    LinearSolver(bc, values, beforeValues, diffuseAmount, deltaTime, st, iterationAmount);
  }
}
