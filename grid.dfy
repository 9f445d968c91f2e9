/** The row-major index map of the smoke grid (src/smoke.py, `_coordToIndex` and
    `_indexToCoord`) and the cell classes that the other kernels use. */
module Grid {
  import opened Wrappers

  /** The stage dimensions the smoke kernel reads (src/stage.py); the backdrop is not needed here. */
  datatype StageDescriptor = StageDescriptor(width: int, height: int)

  /** The dimensions every kernel routine needs so that all of its reads and writes are in
      bounds: at least three cells each way, and no wider than high, because the edge loop
      of `_setBoundary` runs over `1 .. width - 2` for the left and right columns too. */
  predicate ValidStage(st: StageDescriptor) {
    3 <= st.width <= st.height
  }

  /** The number of cells, and so the length of every field buffer. */
  function CellCount(st: StageDescriptor): int {
    st.width * st.height
  }

  /** Quotient and remainder are unique: the fact behind both round trips. */
  lemma DivModUnique(n: int, w: int, q: int, r: int)
    requires 0 < w && 0 <= r < w && n == q * w + r
    ensures n / w == q && n % w == r
  {
    var q', r' := n / w, n % w;
    assert n == q' * w + r';
    assert (q - q') * w == r' - r;
    if q - q' >= 1 {
      assert (q - q') * w >= w by { MulAtLeast(q - q', w); }
    } else if q - q' <= -1 {
      assert (q' - q) * w >= w by { MulAtLeast(q' - q, w); }
    }
  }

  lemma MulAtLeast(d: int, w: int)
    requires 1 <= d && 0 < w
    ensures d * w >= w
  {
    assert d * w == (d - 1) * w + w;
    assert (d - 1) * w >= 0;
  }

  lemma MulMonotone(a: int, b: int, w: int)
    requires 0 <= a <= b && 0 <= w
    ensures a * w <= b * w
  {
    assert b * w - a * w == (b - a) * w;
    assert (b - a) * w >= 0;
  }

  /** `_coordToIndex`: `y * width + x`. A cell of the grid lands in `[0, w*h)`. */
  function CoordToIndex(st: StageDescriptor, x: int, y: int): (i: int)
    ensures 0 <= x < st.width && 0 <= y < st.height ==> 0 <= i < CellCount(st)
  {
    var i := y * st.width + x;
    if 0 <= x < st.width && 0 <= y < st.height then
      MulMonotone(y, st.height - 1, st.width);
      i
    else i
  }

  /** A positional argument of a call to `_coordToIndex`: a stage descriptor or a number. */
  datatype Argument = StageArgument(stage: StageDescriptor) | NumberArgument(n: int)

  /** A call to `_coordToIndex` as Python evaluates it, `None` standing for the exception:
      the function has the three parameters `(stageInfo, x, y)`, so any other number of
      arguments raises a TypeError, and `y * stageInfo.width` raises unless the first
      argument is a stage and the other two are numbers. */
  function CallCoordToIndex(args: seq<Argument>): (r: Option<int>)
    ensures r.Some? <==> |args| == 3 && args[0].StageArgument? && args[1].NumberArgument? && args[2].NumberArgument?
    ensures r.Some? ==> r.value == CoordToIndex(args[0].stage, args[1].n, args[2].n)
  {
    if |args| != 3 then None
    else match (args[0], args[1], args[2])
      case (StageArgument(st), NumberArgument(x), NumberArgument(y)) => Some(CoordToIndex(st, x, y))
      case _ => None
  }

  /** The calls of src/smoke.py:52-80, 288 and 293 pass two arguments, the coordinates
      without the stage: as written every one of them raises. */
  lemma TwoArgumentCallRaises(x: int, y: int)
    ensures CallCoordToIndex([NumberArgument(x), NumberArgument(y)]) == None
  {
  }

  /** The intended call, with the stage first, gives the index of the cell, and that
      index decodes to the cell again. */
  lemma ThreeArgumentCallIndexes(st: StageDescriptor, x: int, y: int)
    requires 0 <= x < st.width
    ensures CallCoordToIndex([StageArgument(st), NumberArgument(x), NumberArgument(y)]) == Some(CoordToIndex(st, x, y))
    ensures IndexToCoord(st, CallCoordToIndex([StageArgument(st), NumberArgument(x), NumberArgument(y)]).value) == (x, y)
  {
    CoordRoundTrip(st, x, y);
  }

  /** The four neighbours of a cell are one index and one row of indices away. */
  lemma NeighbourIndices(st: StageDescriptor, x: int, y: int)
    ensures CoordToIndex(st, x, y) - 1 == CoordToIndex(st, x - 1, y)
    ensures CoordToIndex(st, x, y) + 1 == CoordToIndex(st, x + 1, y)
    ensures CoordToIndex(st, x, y) - st.width == CoordToIndex(st, x, y - 1)
    ensures CoordToIndex(st, x, y) + st.width == CoordToIndex(st, x, y + 1)
  {
    assert (y - 1) * st.width == y * st.width - st.width;
    assert (y + 1) * st.width == y * st.width + st.width;
  }

  /** `_indexToCoord`: `(i % width, i // width)`. For a positive width Python's floor
      division and modulo agree with Dafny's Euclidean ones for every `i`, negative too. */
  function IndexToCoord(st: StageDescriptor, i: int): (r: (int, int))
    requires 0 < st.width
    ensures 0 <= r.0 < st.width
  {
    (i % st.width, i / st.width)
  }

  /** Decoding an encoded column-and-row pair gives the pair back, for every row and
      every column of the grid. */
  lemma CoordRoundTrip(st: StageDescriptor, x: int, y: int)
    requires 0 <= x < st.width
    ensures IndexToCoord(st, CoordToIndex(st, x, y)) == (x, y)
  {
    DivModUnique(y * st.width + x, st.width, y, x);
  }

  /** Encoding a decoded index gives the index back; the column is always inside the grid,
      and the row is too when the index addresses a cell of the grid. */
  lemma IndexRoundTrip(st: StageDescriptor, i: int)
    requires 0 < st.width
    ensures 0 <= IndexToCoord(st, i).0 < st.width
    ensures CoordToIndex(st, IndexToCoord(st, i).0, IndexToCoord(st, i).1) == i
    ensures 0 <= i < CellCount(st) ==> 0 <= IndexToCoord(st, i).1 < st.height
  {
    var w := st.width;
    var q, r := i / w, i % w;
    assert i == q * w + r && 0 <= r < w;
    if 0 <= i < CellCount(st) {
      if q >= st.height {
        MulMonotone(st.height, q, w);
        assert false;
      }
    }
  }

  /** Distinct cells have distinct indices. */
  lemma CoordInjective(st: StageDescriptor, x: int, y: int, a: int, b: int)
    requires 0 <= x < st.width && 0 <= a < st.width
    ensures CoordToIndex(st, x, y) == CoordToIndex(st, a, b) <==> x == a && y == b
  {
    CoordRoundTrip(st, x, y);
    CoordRoundTrip(st, a, b);
  }

  /** A cell that the kernels' interior loops visit: column in `1 .. width - 2` and
      row in `1 .. height - 2`. */
  predicate IsInterior(st: StageDescriptor, x: int, y: int) {
    1 <= x <= st.width - 2 && 1 <= y <= st.height - 2
  }

  /** The value of cell (x, y) of a field `v`. */
  function At(st: StageDescriptor, v: seq<real>, x: int, y: int): real
    requires |v| == CellCount(st) && 0 <= x < st.width && 0 <= y < st.height
  {
    v[CoordToIndex(st, x, y)]
  }

  predicate InGrid(st: StageDescriptor, x: int, y: int) {
    0 <= x < st.width && 0 <= y < st.height
  }

  /** Every cell of `v` is zero. */
  predicate AllZero(v: seq<real>) {
    forall k :: 0 <= k < |v| ==> v[k] == 0.0
  }

  /** A field with a given value at one cell and `u`'s value at every other cell. */
  function SetCell(st: StageDescriptor, u: seq<real>, x: int, y: int, e: real): (r: seq<real>)
    requires |u| == CellCount(st) && 0 <= x < st.width && 0 <= y < st.height
    ensures |r| == |u|
    ensures forall cx, cy {:trigger r[CoordToIndex(st, cx, cy)]} :: 0 <= cx < st.width && 0 <= cy < st.height ==>
      r[CoordToIndex(st, cx, cy)] == if cx == x && cy == y then e else u[CoordToIndex(st, cx, cy)]
  {
    var r := u[CoordToIndex(st, x, y) := e];
    forall cx, cy | 0 <= cx < st.width && 0 <= cy < st.height
      ensures r[CoordToIndex(st, cx, cy)] == if cx == x && cy == y then e else u[CoordToIndex(st, cx, cy)]
    {
      CoordInjective(st, cx, cy, x, y);
    }
    r
  }

  /** One cell write of the flat buffer, stated in coordinates. */
  method WriteCell(values: array<real>, st: StageDescriptor, x: int, y: int, e: real)
    requires values.Length == CellCount(st) && 0 <= x < st.width && 0 <= y < st.height
    modifies values
    ensures values[..] == SetCell(st, old(values[..]), x, y, e)
  {
    values[CoordToIndex(st, x, y)] := e;
  }

  /** Writing a zero into a zero field leaves it zero. */
  lemma SetCellZero(st: StageDescriptor, u: seq<real>, x: int, y: int)
    requires |u| == CellCount(st) && 0 <= x < st.width && 0 <= y < st.height && AllZero(u)
    ensures AllZero(SetCell(st, u, x, y, 0.0))
  {
    assert SetCell(st, u, x, y, 0.0) == u[CoordToIndex(st, x, y) := 0.0];
  }

  /** Two fields of the grid that agree on every cell are equal. */
  lemma FieldsEqual(st: StageDescriptor, u: seq<real>, r: seq<real>)
    requires 0 < st.width && |u| == |r| == CellCount(st)
    requires forall x, y :: 0 <= x < st.width && 0 <= y < st.height ==>
      u[CoordToIndex(st, x, y)] == r[CoordToIndex(st, x, y)]
    ensures u == r
  {
    forall k | 0 <= k < |u| ensures u[k] == r[k] {
      IndexRoundTrip(st, k);
    }
  }
}
