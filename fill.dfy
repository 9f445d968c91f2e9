/** Loops that replace every interior cell of a field by a value computed from other,
    unchanged fields (the divergence, pressure and gradient loops of `_project` and the
    interpolation loop of `_advect`, src/smoke.py). The order of the visits does not
    matter for the result, so one reference definition serves the row-by-row and the
    column-by-column loops. */
module Fill {
  import opened Grid

  /** A rule defined on every interior cell. */
  ghost predicate Covers(st: StageDescriptor, f: (int, int) --> real) {
    forall x, y :: IsInterior(st, x, y) ==> f.requires(x, y)
  }

  /** `u` with every interior cell (x, y) replaced by `f(x, y)`. */
  function Filled(st: StageDescriptor, u: seq<real>, f: (int, int) --> real): (r: seq<real>)
    requires 0 < st.width && |u| == CellCount(st) && Covers(st, f)
    ensures |r| == |u|
    ensures forall x, y {:trigger r[CoordToIndex(st, x, y)]} :: InGrid(st, x, y) ==>
      r[CoordToIndex(st, x, y)] == if IsInterior(st, x, y) then f(x, y) else u[CoordToIndex(st, x, y)]
  {
    var r := seq(|u|, k requires 0 <= k < |u| =>
      var c := IndexToCoord(st, k);
      if IsInterior(st, c.0, c.1) then f(c.0, c.1) else u[k]);
    forall x, y | InGrid(st, x, y)
      ensures r[CoordToIndex(st, x, y)] == if IsInterior(st, x, y) then f(x, y) else u[CoordToIndex(st, x, y)]
    {
      CoordRoundTrip(st, x, y);
    }
    r
  }

  /** Whether a loop visits (x, y) before it reaches (col, row): rows outermost when
      `byColumn` is false, columns outermost when it is true. */
  predicate Visited(byColumn: bool, x: int, y: int, col: int, row: int) {
    if byColumn then x < col || (x == col && y < row)
    else y < row || (y == row && x < col)
  }

  /** `r` is `u` part way through such a loop, just before it reaches (col, row). */
  ghost predicate FilledBefore(st: StageDescriptor, r: seq<real>, u: seq<real>, f: (int, int) --> real,
                               byColumn: bool, col: int, row: int)
    requires |r| == |u| == CellCount(st) && Covers(st, f)
  {
    forall x, y {:trigger r[CoordToIndex(st, x, y)]} :: InGrid(st, x, y) ==>
      r[CoordToIndex(st, x, y)] ==
        if IsInterior(st, x, y) && Visited(byColumn, x, y, col, row) then f(x, y) else u[CoordToIndex(st, x, y)]
  }

  /** Nothing is visited before the first interior cell. */
  lemma FilledStart(st: StageDescriptor, u: seq<real>, f: (int, int) --> real, byColumn: bool)
    requires |u| == CellCount(st) && Covers(st, f)
    ensures FilledBefore(st, u, u, f, byColumn, 1, 1)
  {
  }

  /** Writing `f(x, y)` at the cell being visited moves the loop on by one cell. */
  lemma FillStep(st: StageDescriptor, r: seq<real>, u: seq<real>, f: (int, int) --> real, byColumn: bool, x: int, y: int)
    requires |r| == |u| == CellCount(st) && Covers(st, f) && IsInterior(st, x, y)
    requires FilledBefore(st, r, u, f, byColumn, x, y)
    ensures byColumn ==> FilledBefore(st, SetCell(st, r, x, y, f(x, y)), u, f, byColumn, x, y + 1)
    ensures !byColumn ==> FilledBefore(st, SetCell(st, r, x, y, f(x, y)), u, f, byColumn, x + 1, y)
  {
  }

  /** The end of an inner loop is the start of the next one. */
  lemma FillLineDone(st: StageDescriptor, r: seq<real>, u: seq<real>, f: (int, int) --> real, byColumn: bool, line: int)
    requires |r| == |u| == CellCount(st) && Covers(st, f)
    requires byColumn ==> FilledBefore(st, r, u, f, byColumn, line, st.height - 1)
    requires !byColumn ==> FilledBefore(st, r, u, f, byColumn, st.width - 1, line)
    ensures byColumn ==> FilledBefore(st, r, u, f, byColumn, line + 1, 1)
    ensures !byColumn ==> FilledBefore(st, r, u, f, byColumn, 1, line + 1)
  {
    forall x, y | InGrid(st, x, y) && IsInterior(st, x, y)
      ensures byColumn ==> Visited(byColumn, x, y, line, st.height - 1) == Visited(byColumn, x, y, line + 1, 1)
      ensures !byColumn ==> Visited(byColumn, x, y, st.width - 1, line) == Visited(byColumn, x, y, 1, line + 1)
    {
    }
  }

  /** Once every line is done, the field is `Filled(st, u, f)`. */
  lemma FillDone(st: StageDescriptor, r: seq<real>, u: seq<real>, f: (int, int) --> real, byColumn: bool)
    requires 0 < st.width && |r| == |u| == CellCount(st) && Covers(st, f)
    requires byColumn ==> FilledBefore(st, r, u, f, byColumn, st.width - 1, 1)
    requires !byColumn ==> FilledBefore(st, r, u, f, byColumn, 1, st.height - 1)
    ensures r == Filled(st, u, f)
  {
    var s := Filled(st, u, f);
    forall x, y | InGrid(st, x, y) ensures r[CoordToIndex(st, x, y)] == s[CoordToIndex(st, x, y)] {
      if IsInterior(st, x, y) {
        assert Visited(byColumn, x, y, if byColumn then st.width - 1 else 1, if byColumn then 1 else st.height - 1);
      }
    }
    FieldsEqual(st, r, s);
  }
}
