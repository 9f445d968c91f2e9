/** `_setBoundary` (src/smoke.py): reflects the edge cells of a field from their
    interior neighbours, then sets each corner to the mean of its two edge neighbours.
    Boundary kind 1 negates across the left and right columns, kind 2 across the top
    and bottom rows, and every other kind copies. */
module Boundary {
  import opened Wrappers
  import opened Grid

  /** The factor `-1 if mirrored else 1` applied when an edge copies its neighbour. */
  function Sign(mirrored: bool): (s: real)
    ensures s == -1.0 <==> mirrored
    ensures s == 1.0 <==> !mirrored
  {
    if mirrored then -1.0 else 1.0
  }

  /** `(-1 if mirrored else 1) * x`: the value an edge cell copies from its neighbour. */
  function Reflect(mirrored: bool, x: real): real {
    if mirrored then -x else x
  }

  /** Cells of the left and right columns that the edge loop never reaches: the loop
      index runs to `width - 2` only, so on a stage higher than wide the rows
      `width - 1 .. height - 2` of both side columns keep their old value. */
  predicate IsStale(st: StageDescriptor, x: int, y: int) {
    (x == 0 || x == st.width - 1) && st.width - 1 <= y <= st.height - 2
  }

  // ---------------------------------------------------------------------------
  // The routine as written: the edge loop, then the four corner assignments.
  // ---------------------------------------------------------------------------

  /** One pass of the edge loop body with loop index `i` (src/smoke.py:52-64): four
      writes, each reading the field as the previous writes left it. */
  function EdgeIteration(bc: int, st: StageDescriptor, u: seq<real>, i: int): seq<real>
    requires ValidStage(st) && |u| == CellCount(st) && 1 <= i <= st.width - 2
  {
    var w, h := st.width, st.height;
    var u1 := SetCell(st, u, 0, i, Reflect(bc == 1, At(st, u, 1, i)));
    var u2 := SetCell(st, u1, w - 1, i, Reflect(bc == 1, At(st, u1, w - 2, i)));
    var u3 := SetCell(st, u2, i, 0, Reflect(bc == 2, At(st, u2, i, 1)));
    SetCell(st, u3, i, h - 1, Reflect(bc == 2, At(st, u3, i, h - 2)))
  }

  /** The field after the edge loop has run for indices `1 .. n - 1`. */
  function EdgeLoop(bc: int, st: StageDescriptor, v: seq<real>, n: int): (r: seq<real>)
    requires ValidStage(st) && |v| == CellCount(st) && 1 <= n <= st.width - 1
    ensures |r| == |v|
    decreases n
  {
    if n == 1 then v else EdgeIteration(bc, st, EdgeLoop(bc, st, v, n - 1), n - 1)
  }

  /** The four corner assignments (src/smoke.py:66-81), in the source's order. */
  function BalanceCorners(st: StageDescriptor, u: seq<real>): seq<real>
    requires ValidStage(st) && |u| == CellCount(st)
  {
    var w, h := st.width, st.height;
    var u1 := SetCell(st, u, 0, 0, 0.5 * (At(st, u, 1, 0) + At(st, u, 0, 1)));
    var u2 := SetCell(st, u1, 0, h - 1, 0.5 * (At(st, u1, 1, h - 1) + At(st, u1, 0, h - 2)));
    var u3 := SetCell(st, u2, w - 1, 0, 0.5 * (At(st, u2, w - 2, 0) + At(st, u2, w - 1, 1)));
    SetCell(st, u3, w - 1, h - 1, 0.5 * (At(st, u3, w - 2, h - 1) + At(st, u3, w - 1, h - 2)))
  }

  // ---------------------------------------------------------------------------
  // A cell-by-cell reference definition of the result.
  // ---------------------------------------------------------------------------

  /** Cell (x, y) after the edge loop: the four edge rules for the positions the loop
      reaches, the old value everywhere else. */
  function EdgePass(bc: int, st: StageDescriptor, v: seq<real>, x: int, y: int): real
    requires ValidStage(st) && |v| == CellCount(st) && InGrid(st, x, y)
  {
    var w, h := st.width, st.height;
    if x == 0 && 1 <= y <= w - 2 then Reflect(bc == 1, At(st, v, 1, y))
    else if x == w - 1 && 1 <= y <= w - 2 then Reflect(bc == 1, At(st, v, w - 2, y))
    else if y == 0 && 1 <= x <= w - 2 then Reflect(bc == 2, At(st, v, x, 1))
    else if y == h - 1 && 1 <= x <= w - 2 then Reflect(bc == 2, At(st, v, x, h - 2))
    else At(st, v, x, y)
  }

  /** Cell (x, y) once the corners are balanced too. */
  function BoundaryAt(bc: int, st: StageDescriptor, v: seq<real>, x: int, y: int): real
    requires ValidStage(st) && |v| == CellCount(st) && InGrid(st, x, y)
  {
    var w, h := st.width, st.height;
    if x == 0 && y == 0 then
      0.5 * (EdgePass(bc, st, v, 1, 0) + EdgePass(bc, st, v, 0, 1))
    else if x == 0 && y == h - 1 then
      0.5 * (EdgePass(bc, st, v, 1, h - 1) + EdgePass(bc, st, v, 0, h - 2))
    else if x == w - 1 && y == 0 then
      0.5 * (EdgePass(bc, st, v, w - 2, 0) + EdgePass(bc, st, v, w - 1, 1))
    else if x == w - 1 && y == h - 1 then
      0.5 * (EdgePass(bc, st, v, w - 2, h - 1) + EdgePass(bc, st, v, w - 1, h - 2))
    else EdgePass(bc, st, v, x, y)
  }

  /** Whether the edge loop has written cell (x, y) once it has run for `1 .. n - 1`. */
  predicate WrittenBefore(st: StageDescriptor, x: int, y: int, n: int) {
    ((x == 0 || x == st.width - 1) && 1 <= y < n) ||
    ((y == 0 || y == st.height - 1) && 1 <= x < n)
  }

  /** After `n - 1` passes of the edge loop, the cells written so far hold their
      edge-rule value and every other cell its old value. */
  ghost predicate EdgesDone(bc: int, st: StageDescriptor, v: seq<real>, u: seq<real>, n: int)
    requires ValidStage(st) && |v| == |u| == CellCount(st)
  {
    forall x, y {:trigger u[CoordToIndex(st, x, y)]} :: InGrid(st, x, y) ==>
      u[CoordToIndex(st, x, y)] ==
        if WrittenBefore(st, x, y, n) then EdgePass(bc, st, v, x, y) else At(st, v, x, y)
  }

  lemma {:induction false} EdgeLoopCells(bc: int, st: StageDescriptor, v: seq<real>, n: int)
    requires ValidStage(st) && |v| == CellCount(st) && 1 <= n <= st.width - 1
    ensures EdgesDone(bc, st, v, EdgeLoop(bc, st, v, n), n)
    decreases n
  {
    if n == 1 {
      forall x, y | InGrid(st, x, y) ensures !WrittenBefore(st, x, y, 1) { }
    } else {
      EdgeLoopCells(bc, st, v, n - 1);
      EdgeIterationCells(bc, st, v, EdgeLoop(bc, st, v, n - 1), n - 1);
    }
  }

  lemma EdgeIterationCells(bc: int, st: StageDescriptor, v: seq<real>, u: seq<real>, i: int)
    requires ValidStage(st) && |v| == |u| == CellCount(st) && 1 <= i <= st.width - 2
    requires EdgesDone(bc, st, v, u, i)
    ensures EdgesDone(bc, st, v, EdgeIteration(bc, st, u, i), i + 1)
  {
    var w, h := st.width, st.height;
    assert At(st, u, 1, i) == At(st, v, 1, i);
    assert At(st, u, w - 2, i) == At(st, v, w - 2, i);
    assert At(st, u, i, 1) == At(st, v, i, 1);
    assert At(st, u, i, h - 2) == At(st, v, i, h - 2);
  }

  /** The corner assignments read only edge cells, which they do not write. */
  lemma CornerCells(bc: int, st: StageDescriptor, v: seq<real>, u: seq<real>)
    requires ValidStage(st) && |v| == |u| == CellCount(st)
    requires forall x, y {:trigger u[CoordToIndex(st, x, y)]} :: InGrid(st, x, y) ==> u[CoordToIndex(st, x, y)] == EdgePass(bc, st, v, x, y)
    ensures forall x, y {:trigger BalanceCorners(st, u)[CoordToIndex(st, x, y)]} :: InGrid(st, x, y) ==>
      BalanceCorners(st, u)[CoordToIndex(st, x, y)] == BoundaryAt(bc, st, v, x, y)
  {
    var w, h := st.width, st.height;
    assert At(st, u, 1, 0) == EdgePass(bc, st, v, 1, 0);
    assert At(st, u, 0, 1) == EdgePass(bc, st, v, 0, 1);
    assert At(st, u, 1, h - 1) == EdgePass(bc, st, v, 1, h - 1);
    assert At(st, u, 0, h - 2) == EdgePass(bc, st, v, 0, h - 2);
    assert At(st, u, w - 2, 0) == EdgePass(bc, st, v, w - 2, 0);
    assert At(st, u, w - 1, 1) == EdgePass(bc, st, v, w - 1, 1);
    assert At(st, u, w - 2, h - 1) == EdgePass(bc, st, v, w - 2, h - 1);
    assert At(st, u, w - 1, h - 2) == EdgePass(bc, st, v, w - 1, h - 2);
  }

  /** `r` is, cell by cell, what the reference definition gives for `v`. */
  ghost predicate IsBoundaryOf(bc: int, st: StageDescriptor, v: seq<real>, r: seq<real>)
    requires ValidStage(st) && |v| == CellCount(st)
  {
    |r| == |v| &&
    forall x, y {:trigger r[CoordToIndex(st, x, y)]} :: InGrid(st, x, y) ==>
      r[CoordToIndex(st, x, y)] == BoundaryAt(bc, st, v, x, y)
  }

  /** The field `_setBoundary(bc, v, st)` leaves behind: the edge loop followed by the
      corner assignments. Cell by cell it is the reference definition `BoundaryAt`. */
  function Bounded(bc: int, st: StageDescriptor, v: seq<real>): (r: seq<real>)
    requires ValidStage(st) && |v| == CellCount(st)
    ensures |r| == |v|
    ensures IsBoundaryOf(bc, st, v, r)
  {
    var u := EdgeLoop(bc, st, v, st.width - 1);
    EdgeLoopCells(bc, st, v, st.width - 1);
    CornerCells(bc, st, v, u);
    BalanceCorners(st, u)
  }

  /** One more pass of the edge loop body extends the loop by one index. */
  lemma EdgeLoopNext(bc: int, st: StageDescriptor, v: seq<real>, u: seq<real>, r: seq<real>, i: int)
    requires ValidStage(st) && |v| == |u| == CellCount(st) && 1 <= i <= st.width - 2
    requires u == EdgeLoop(bc, st, v, i) && r == EdgeIteration(bc, st, u, i)
    ensures r == EdgeLoop(bc, st, v, i + 1)
  {
  }

  /** The edge loop followed by the corner assignments is `Bounded`. */
  lemma BoundedSteps(bc: int, st: StageDescriptor, v: seq<real>, u: seq<real>, r: seq<real>)
    requires ValidStage(st) && |v| == |u| == CellCount(st)
    requires u == EdgeLoop(bc, st, v, st.width - 1) && r == BalanceCorners(st, u)
    ensures r == Bounded(bc, st, v)
  {
  }

  /** The edge rules: for every loop position i in 1 .. width - 2, each side-column cell
      is its inner neighbour times a sign that is -1 exactly for kind 1, and each top- or
      bottom-row cell is its inner neighbour times a sign that is -1 exactly for kind 2. */
  lemma EdgesReflected(bc: int, st: StageDescriptor, v: seq<real>, r: seq<real>)
    requires ValidStage(st) && |v| == CellCount(st) && IsBoundaryOf(bc, st, v, r)
    ensures forall i :: 1 <= i <= st.width - 2 ==>
      r[CoordToIndex(st, 0, i)] == Sign(bc == 1) * r[CoordToIndex(st, 1, i)] &&
      r[CoordToIndex(st, st.width - 1, i)] == Sign(bc == 1) * r[CoordToIndex(st, st.width - 2, i)] &&
      r[CoordToIndex(st, i, 0)] == Sign(bc == 2) * r[CoordToIndex(st, i, 1)] &&
      r[CoordToIndex(st, i, st.height - 1)] == Sign(bc == 2) * r[CoordToIndex(st, i, st.height - 2)]
  {
    forall i | 1 <= i <= st.width - 2
      ensures r[CoordToIndex(st, 0, i)] == Sign(bc == 1) * r[CoordToIndex(st, 1, i)]
      ensures r[CoordToIndex(st, st.width - 1, i)] == Sign(bc == 1) * r[CoordToIndex(st, st.width - 2, i)]
      ensures r[CoordToIndex(st, i, 0)] == Sign(bc == 2) * r[CoordToIndex(st, i, 1)]
      ensures r[CoordToIndex(st, i, st.height - 1)] == Sign(bc == 2) * r[CoordToIndex(st, i, st.height - 2)]
    {
      assert r[CoordToIndex(st, 1, i)] == At(st, v, 1, i);
      assert r[CoordToIndex(st, st.width - 2, i)] == At(st, v, st.width - 2, i);
      assert r[CoordToIndex(st, i, 1)] == At(st, v, i, 1);
      assert r[CoordToIndex(st, i, st.height - 2)] == At(st, v, i, st.height - 2);
    }
  }

  /** The corner (x, y) is the mean of its two adjacent edge cells. */
  lemma CornerAveraged(bc: int, st: StageDescriptor, v: seq<real>, r: seq<real>, x: int, y: int, nx: int, ny: int)
    requires ValidStage(st) && |v| == CellCount(st) && IsBoundaryOf(bc, st, v, r)
    requires (x, nx) == (0, 1) || (x, nx) == (st.width - 1, st.width - 2)
    requires (y, ny) == (0, 1) || (y, ny) == (st.height - 1, st.height - 2)
    ensures r[CoordToIndex(st, x, y)] == 0.5 * (r[CoordToIndex(st, nx, y)] + r[CoordToIndex(st, x, ny)])
  {
    assert r[CoordToIndex(st, nx, y)] == EdgePass(bc, st, v, nx, y);
    assert r[CoordToIndex(st, x, ny)] == EdgePass(bc, st, v, x, ny);
    assert r[CoordToIndex(st, x, y)] == BoundaryAt(bc, st, v, x, y);
  }

  /** Each corner is the mean of its two adjacent edge cells, as they stand afterwards. */
  lemma CornersAveraged(bc: int, st: StageDescriptor, v: seq<real>, r: seq<real>)
    requires ValidStage(st) && |v| == CellCount(st) && IsBoundaryOf(bc, st, v, r)
    ensures var w, h := st.width, st.height;
      r[CoordToIndex(st, 0, 0)] == 0.5 * (r[CoordToIndex(st, 1, 0)] + r[CoordToIndex(st, 0, 1)]) &&
      r[CoordToIndex(st, 0, h - 1)] == 0.5 * (r[CoordToIndex(st, 1, h - 1)] + r[CoordToIndex(st, 0, h - 2)]) &&
      r[CoordToIndex(st, w - 1, 0)] == 0.5 * (r[CoordToIndex(st, w - 2, 0)] + r[CoordToIndex(st, w - 1, 1)]) &&
      r[CoordToIndex(st, w - 1, h - 1)] == 0.5 * (r[CoordToIndex(st, w - 2, h - 1)] + r[CoordToIndex(st, w - 1, h - 2)])
  {
    var w, h := st.width, st.height;
    CornerAveraged(bc, st, v, r, 0, 0, 1, 1);
    CornerAveraged(bc, st, v, r, 0, h - 1, 1, h - 2);
    CornerAveraged(bc, st, v, r, w - 1, 0, w - 2, 1);
    CornerAveraged(bc, st, v, r, w - 1, h - 1, w - 2, h - 2);
  }

  /** Interior cells keep their value, and so do the side-column cells the edge loop
      does not reach; every other cell is an edge or a corner. */
  lemma InnerCellsKept(bc: int, st: StageDescriptor, v: seq<real>, r: seq<real>)
    requires ValidStage(st) && |v| == CellCount(st) && IsBoundaryOf(bc, st, v, r)
    ensures forall x, y :: InGrid(st, x, y) && (IsInterior(st, x, y) || IsStale(st, x, y)) ==>
      r[CoordToIndex(st, x, y)] == v[CoordToIndex(st, x, y)]
  {
    forall x, y | InGrid(st, x, y) && (IsInterior(st, x, y) || IsStale(st, x, y))
      ensures r[CoordToIndex(st, x, y)] == v[CoordToIndex(st, x, y)]
    {
      assert r[CoordToIndex(st, x, y)] == BoundaryAt(bc, st, v, x, y);
    }
  }

  /** The cells `_setBoundary` does not overwrite, and which it therefore keeps, are zero:
      the interior and the stale side-column cells. */
  ghost predicate ZeroInside(st: StageDescriptor, v: seq<real>)
    requires |v| == CellCount(st)
  {
    forall x, y {:trigger v[CoordToIndex(st, x, y)]} :: InGrid(st, x, y) && (IsInterior(st, x, y) || IsStale(st, x, y)) ==>
      v[CoordToIndex(st, x, y)] == 0.0
  }

  /** A field that is zero on the interior and on the stale cells is zero everywhere
      afterwards: every edge cell copies an interior or stale cell and every corner
      averages two of those. In particular a zero field stays zero. */
  lemma BoundedZero(bc: int, st: StageDescriptor, v: seq<real>, r: seq<real>)
    requires ValidStage(st) && |v| == CellCount(st) && IsBoundaryOf(bc, st, v, r) && ZeroInside(st, v)
    ensures AllZero(r)
  {
    forall k | 0 <= k < |r| ensures r[k] == 0.0 {
      IndexRoundTrip(st, k);
      var c := IndexToCoord(st, k);
      assert r[CoordToIndex(st, c.0, c.1)] == BoundaryAt(bc, st, v, c.0, c.1);
    }
  }

  /** One pass of the loop body, as four successive single-cell writes, is `EdgeIteration`. */
  lemma EdgeIterationSteps(bc: int, st: StageDescriptor, i: int, u: seq<real>,
                           u1: seq<real>, e1: real, u2: seq<real>, e2: real,
                           u3: seq<real>, e3: real, u4: seq<real>, e4: real)
    requires ValidStage(st) && |u| == CellCount(st) && 1 <= i <= st.width - 2
    requires e1 == Reflect(bc == 1, At(st, u, 1, i))
    requires u1 == SetCell(st, u, 0, i, e1)
    requires e2 == Reflect(bc == 1, At(st, u1, st.width - 2, i))
    requires u2 == SetCell(st, u1, st.width - 1, i, e2)
    requires e3 == Reflect(bc == 2, At(st, u2, i, 1))
    requires u3 == SetCell(st, u2, i, 0, e3)
    requires e4 == Reflect(bc == 2, At(st, u3, i, st.height - 2))
    requires u4 == SetCell(st, u3, i, st.height - 1, e4)
    ensures u4 == EdgeIteration(bc, st, u, i)
  {
  }

  /** The four corner writes, in order, are `BalanceCorners`. */
  lemma CornerSteps(st: StageDescriptor, u: seq<real>,
                    u1: seq<real>, e1: real, u2: seq<real>, e2: real,
                    u3: seq<real>, e3: real, u4: seq<real>, e4: real)
    requires ValidStage(st) && |u| == CellCount(st)
    requires e1 == 0.5 * (At(st, u, 1, 0) + At(st, u, 0, 1))
    requires u1 == SetCell(st, u, 0, 0, e1)
    requires e2 == 0.5 * (At(st, u1, 1, st.height - 1) + At(st, u1, 0, st.height - 2))
    requires u2 == SetCell(st, u1, 0, st.height - 1, e2)
    requires e3 == 0.5 * (At(st, u2, st.width - 2, 0) + At(st, u2, st.width - 1, 1))
    requires u3 == SetCell(st, u2, st.width - 1, 0, e3)
    requires e4 == 0.5 * (At(st, u3, st.width - 2, st.height - 1) + At(st, u3, st.width - 1, st.height - 2))
    requires u4 == SetCell(st, u3, st.width - 1, st.height - 1, e4)
    ensures u4 == BalanceCorners(st, u)
  {
  }


  /** One pass of the edge loop of `_setBoundary` (src/smoke.py:52-64): the two side-column
      cells of row i, then the top and bottom cells of column i. */
  method ReflectEdgesAt(bc: int, values: array<real>, st: StageDescriptor, index: int)
    requires ValidStage(st) && values.Length == CellCount(st) && 1 <= index <= st.width - 2
    modifies values
    ensures values[..] == EdgeIteration(bc, st, old(values[..]), index)
  {
    var w, h := st.width, st.height;
    ghost var u := values[..];
    var left := Reflect(bc == 1, values[CoordToIndex(st, 1, index)]);
    WriteCell(values, st, 0, index, left);
    ghost var u1 := values[..];
    var right := Reflect(bc == 1, values[CoordToIndex(st, w - 2, index)]);
    WriteCell(values, st, w - 1, index, right);
    ghost var u2 := values[..];
    var top := Reflect(bc == 2, values[CoordToIndex(st, index, 1)]);
    WriteCell(values, st, index, 0, top);
    ghost var u3 := values[..];
    var bottom := Reflect(bc == 2, values[CoordToIndex(st, index, h - 2)]);
    WriteCell(values, st, index, h - 1, bottom);
    EdgeIterationSteps(bc, st, index, u, u1, left, u2, right, u3, top, values[..], bottom);
  }

  /** The edge loop of `_setBoundary` (src/smoke.py:50-64). */
  method ReflectEdges(bc: int, values: array<real>, st: StageDescriptor)
    requires ValidStage(st) && values.Length == CellCount(st)
    modifies values
    ensures values[..] == EdgeLoop(bc, st, old(values[..]), st.width - 1)
  {
    ghost var v := values[..];
    for index := 1 to st.width - 1
      invariant values[..] == EdgeLoop(bc, st, v, index)
    {
      ghost var u := values[..];
      ReflectEdgesAt(bc, values, st, index);
      EdgeLoopNext(bc, st, v, u, values[..], index);
    }
  }

  /** The four corner averages of `_setBoundary` (src/smoke.py:66-81). */
  method AverageCorners(values: array<real>, st: StageDescriptor)
    requires ValidStage(st) && values.Length == CellCount(st)
    modifies values
    ensures values[..] == BalanceCorners(st, old(values[..]))
  {
    var w, h := st.width, st.height;
    ghost var u := values[..];
    var c1 := 0.5 * (values[CoordToIndex(st, 1, 0)] + values[CoordToIndex(st, 0, 1)]);
    WriteCell(values, st, 0, 0, c1);
    ghost var u1 := values[..];
    var c2 := 0.5 * (values[CoordToIndex(st, 1, h - 1)] + values[CoordToIndex(st, 0, h - 2)]);
    WriteCell(values, st, 0, h - 1, c2);
    ghost var u2 := values[..];
    var c3 := 0.5 * (values[CoordToIndex(st, w - 2, 0)] + values[CoordToIndex(st, w - 1, 1)]);
    WriteCell(values, st, w - 1, 0, c3);
    ghost var u3 := values[..];
    var c4 := 0.5 * (values[CoordToIndex(st, w - 2, h - 1)] + values[CoordToIndex(st, w - 1, h - 2)]);
    WriteCell(values, st, w - 1, h - 1, c4);
    CornerSteps(st, u, u1, c1, u2, c2, u3, c3, values[..], c4);
  }

  /** `_setBoundary`, on the flat buffer in place, with the intended three-argument index
      calls (src/smoke.py:52-80 passes the coordinates without the stage). */
  method SetBoundary(bc: int, values: array<real>, st: StageDescriptor)
    requires ValidStage(st) && values.Length == CellCount(st)
    modifies values
    ensures values[..] == Bounded(bc, st, old(values[..]))
  {
    ghost var v := values[..];
    ReflectEdges(bc, values, st);
    ghost var u := values[..];
    AverageCorners(values, st);
    BoundedSteps(bc, st, v, u, values[..]);
  }

  // ---------------------------------------------------------------------------
  // The routine exactly as written, with its two-argument index calls
  // ---------------------------------------------------------------------------

  /** The argument list `(x, y)` of the calls `_coordToIndex(x, y)` of src/smoke.py:52-80. */
  function Pair(x: int, y: int): seq<Argument> {
    [NumberArgument(x), NumberArgument(y)]
  }

  /** `values[_coordToIndex(args)]` on a numpy field; `None` when the call or the read
      raises. */
  function ReadAt(values: seq<real>, args: seq<Argument>): (r: Option<real>)
    ensures r.Some? ==> CallCoordToIndex(args).Some?
  {
    match CallCoordToIndex(args)
    case None => None
    case Some(i) => PyIndex(values, i)
  }

  /** `values[_coordToIndex(args)] = x`; `None` when the call or the write raises. */
  function WriteAt(values: seq<real>, args: seq<Argument>, x: real): (r: Option<seq<real>>)
    ensures r.Some? ==> CallCoordToIndex(args).Some? && |r.value| == |values|
  {
    match CallCoordToIndex(args)
    case None => None
    case Some(i) =>
      match PySlot(|values|, i)
      case None => None
      case Some(k) => Some(values[k := x])
  }

  /** `values[target] = (-1 if mirrored else 1) * values[source]`: Python evaluates the
      right-hand side, and so the `source` call, before the `target` call. */
  function ReflectAsWritten(values: seq<real>, mirrored: bool, target: seq<Argument>, source: seq<Argument>): (r: Option<seq<real>>)
    ensures r.Some? ==> CallCoordToIndex(source).Some? && CallCoordToIndex(target).Some?
  {
    match ReadAt(values, source)
    case None => None
    case Some(x) => WriteAt(values, target, Reflect(mirrored, x))
  }

  /** `values[target] = 0.5 * (values[first] + values[second])`. */
  function AverageAsWritten(values: seq<real>, target: seq<Argument>, first: seq<Argument>, second: seq<Argument>): (r: Option<seq<real>>)
    ensures r.Some? ==> CallCoordToIndex(first).Some? && CallCoordToIndex(second).Some? && CallCoordToIndex(target).Some?
  {
    match ReadAt(values, first)
    case None => None
    case Some(a) =>
      match ReadAt(values, second)
      case None => None
      case Some(b) => WriteAt(values, target, 0.5 * (a + b))
  }

  /** One pass of the edge loop with index `i` as written (src/smoke.py:52-64). */
  function EdgePassAsWritten(bc: int, st: StageDescriptor, v: seq<real>, i: int): (r: Option<seq<real>>)
    ensures r.Some? ==> CallCoordToIndex(Pair(1, i)).Some?
    ensures r.None?
  {
    var w, h := st.width, st.height;
    match ReflectAsWritten(v, bc == 1, Pair(0, i), Pair(1, i))
    case None => None
    case Some(u1) =>
      match ReflectAsWritten(u1, bc == 1, Pair(w - 1, i), Pair(w - 2, i))
      case None => None
      case Some(u2) =>
        match ReflectAsWritten(u2, bc == 2, Pair(i, 0), Pair(i, 1))
        case None => None
        case Some(u3) => ReflectAsWritten(u3, bc == 2, Pair(i, h - 1), Pair(i, h - 2))
  }

  /** The passes `1 .. n - 1` of the edge loop as written; an exception ends the loop. */
  function EdgeLoopAsWritten(bc: int, st: StageDescriptor, v: seq<real>, n: int): (r: Option<seq<real>>)
    ensures n <= 1 ==> r == Some(v)
    ensures 2 <= n ==> r.None?
    decreases n
  {
    if n <= 1 then Some(v)
    else
      match EdgeLoopAsWritten(bc, st, v, n - 1)
      case None => None
      case Some(u) => EdgePassAsWritten(bc, st, u, n - 1)
  }

  /** `_setBoundary` as written (src/smoke.py:45-81), for any stage: the edge loop over
      `range(1, width - 1)`, then the four corner assignments. */
  function SetBoundaryAsWritten(bc: int, st: StageDescriptor, v: seq<real>): (r: Option<seq<real>>)
    ensures r.Some? ==> CallCoordToIndex(Pair(1, 0)).Some?
    ensures 3 <= st.width ==> r.None?
  {
    var w, h := st.width, st.height;
    match EdgeLoopAsWritten(bc, st, v, w - 1)
    case None => None
    case Some(u) =>
      match AverageAsWritten(u, Pair(0, 0), Pair(1, 0), Pair(0, 1))
      case None => None
      case Some(u1) =>
        match AverageAsWritten(u1, Pair(0, h - 1), Pair(1, h - 1), Pair(0, h - 2))
        case None => None
        case Some(u2) =>
          match AverageAsWritten(u2, Pair(w - 1, 0), Pair(w - 2, 0), Pair(w - 1, 1))
          case None => None
          case Some(u3) => AverageAsWritten(u3, Pair(w - 1, h - 1), Pair(w - 2, h - 1), Pair(w - 1, h - 2))
  }

  /** As written, every pass of the edge loop raises at its first call,
      `_coordToIndex(1, index)`. */
  lemma EdgePassAsWrittenRaises(bc: int, st: StageDescriptor, v: seq<real>, i: int)
    ensures EdgePassAsWritten(bc, st, v, i) == None
  {
    TwoArgumentCallRaises(1, i);
  }

  /** As written, `_setBoundary` raises on every stage and every field: with
      `width >= 3` at the first pass of the edge loop, and otherwise at the first corner
      assignment. */
  lemma SetBoundaryAsWrittenRaises(bc: int, st: StageDescriptor, v: seq<real>)
    ensures SetBoundaryAsWritten(bc, st, v) == None
  {
    var w := st.width;
    if w - 1 > 1 {
      EdgePassAsWrittenRaises(bc, st, v, w - 2);
      match EdgeLoopAsWritten(bc, st, v, w - 2)
      case None =>
      case Some(u) => EdgePassAsWrittenRaises(bc, st, u, w - 2);
    } else {
      TwoArgumentCallRaises(1, 0);
    }
  }
}
