/** `_advect` (src/smoke.py:198-248): the semi-Lagrangian step. Each interior cell traces
    its position back along the velocity, clamps it into the stage, and takes the
    bilinear interpolation of the previous field there; then the boundary rule runs. */
module Advection {
  import opened Grid
  import opened Boundary
  import opened Fill

  /** The clamp of src/smoke.py:219-226: below `lo` gives `lo`, otherwise above `hi`
      gives `hi`. */
  function Clamp(v: real, lo: real, hi: real): (r: real)
    ensures lo <= hi ==> lo <= r <= hi
    ensures lo <= v <= hi ==> r == v
    ensures r == v || r == lo || r == hi
  {
    if v < lo then lo else if v > hi then hi else v
  }

  /** The interpolation weights `(1 - s, s)` for a position `p`, where `s` is the
      fractional part of `p` (src/smoke.py:235-238). */
  function Weights(p: real): (w: (real, real))
    ensures w.0 + w.1 == 1.0
    ensures 0.0 <= w.1 < 1.0 && 0.0 < w.0 <= 1.0
    ensures w.1 == p - (p.Floor as real)
  {
    var s1 := p - (p.Floor as real);
    (1.0 - s1, s1)
  }

  /** A clamped position lies in `[0.5, n - 1.5]`, so its floor and the next integer
      are both cells of a line of length `n` (src/smoke.py:229-232). */
  lemma SampleInBounds(p: real, n: int)
    requires 3 <= n && 0.5 <= p <= (n as real) - 1.5
    ensures 0 <= p.Floor && p.Floor + 1 <= n - 1
  {
  }

  /** The clamped position that cell (x, y) traces back to under the velocity
      (xVelocity, yVelocity) (src/smoke.py:207-226). */
  function BackTrace(st: StageDescriptor, xVelocity: real, yVelocity: real, deltaTime: real, x: int, y: int): (p: (real, real))
    requires ValidStage(st)
    ensures 0.5 <= p.0 <= (st.width as real) - 1.5
    ensures 0.5 <= p.1 <= (st.height as real) - 1.5
  {
    var deltaX := deltaTime * (st.width as real);
    var deltaY := deltaTime * (st.height as real);
    (Clamp((x as real) - deltaX * xVelocity, 0.5, (st.width as real) - 1.5),
     Clamp((y as real) - deltaY * yVelocity, 0.5, (st.height as real) - 1.5))
  }

  /** The bilinear interpolation of `prev` at (px, py) (src/smoke.py:229-247): the four
      surrounding cells weighted by the fractional distances. */
  function Interpolate(st: StageDescriptor, prev: seq<real>, px: real, py: real): real
    requires ValidStage(st) && |prev| == CellCount(st)
    requires 0.5 <= px <= (st.width as real) - 1.5 && 0.5 <= py <= (st.height as real) - 1.5
  {
    SampleInBounds(px, st.width);
    SampleInBounds(py, st.height);
    var x0, y0 := px.Floor, py.Floor;
    var x1, y1 := x0 + 1, y0 + 1;
    var (s0, s1) := Weights(px);
    var (t0, t1) := Weights(py);
    s0 * (t0 * At(st, prev, x0, y0) + t1 * At(st, prev, x0, y1))
      + s1 * (t0 * At(st, prev, x1, y0) + t1 * At(st, prev, x1, y1))
  }

  /** The value `_advect` writes at interior cell (x, y). */
  function AdvectAt(st: StageDescriptor, prev: seq<real>, xv: seq<real>, yv: seq<real>, deltaTime: real, x: int, y: int): real
    requires ValidStage(st) && |prev| == |xv| == |yv| == CellCount(st) && IsInterior(st, x, y)
  {
    var i := CoordToIndex(st, x, y);
    var p := BackTrace(st, xv[i], yv[i], deltaTime, x, y);
    Interpolate(st, prev, p.0, p.1)
  }

  function AdvectRule(st: StageDescriptor, prev: seq<real>, xv: seq<real>, yv: seq<real>, deltaTime: real): (f: (int, int) --> real)
    requires ValidStage(st) && |prev| == |xv| == |yv| == CellCount(st)
    ensures Covers(st, f)
  {
    (x, y) requires IsInterior(st, x, y) => AdvectAt(st, prev, xv, yv, deltaTime, x, y)
  }

  /** The field `_advect` leaves in `densities`. */
  function Advected(bc: int, st: StageDescriptor, d: seq<real>, prev: seq<real>, xv: seq<real>, yv: seq<real>, deltaTime: real): (r: seq<real>)
    requires ValidStage(st) && |d| == |prev| == |xv| == |yv| == CellCount(st)
    ensures |r| == |d|
  {
    Bounded(bc, st, Filled(st, d, AdvectRule(st, prev, xv, yv, deltaTime)))
  }

  /** The interpolation at a cell's own position is that cell's value. */
  lemma InterpolateAtCell(st: StageDescriptor, prev: seq<real>, x: int, y: int)
    requires ValidStage(st) && |prev| == CellCount(st) && IsInterior(st, x, y)
    ensures Interpolate(st, prev, x as real, y as real) == At(st, prev, x, y)
  {
    assert (x as real).Floor == x && (y as real).Floor == y;
  }

  /** With no velocity a cell traces back to itself and takes its previous value. */
  lemma AdvectStillCell(st: StageDescriptor, prev: seq<real>, xv: seq<real>, yv: seq<real>, deltaTime: real, x: int, y: int)
    requires ValidStage(st) && |prev| == |xv| == |yv| == CellCount(st) && IsInterior(st, x, y)
    requires At(st, xv, x, y) == 0.0 && At(st, yv, x, y) == 0.0
    ensures AdvectAt(st, prev, xv, yv, deltaTime, x, y) == At(st, prev, x, y)
  {
    var i := CoordToIndex(st, x, y);
    assert BackTrace(st, xv[i], yv[i], deltaTime, x, y) == (x as real, y as real);
    InterpolateAtCell(st, prev, x, y);
  }

  /** With both velocity fields zero, advection leaves every interior cell with its
      previous value, whatever the time step. */
  lemma AdvectStill(bc: int, st: StageDescriptor, d: seq<real>, prev: seq<real>, xv: seq<real>, yv: seq<real>, deltaTime: real)
    requires ValidStage(st) && |d| == |prev| == |xv| == |yv| == CellCount(st)
    requires AllZero(xv) && AllZero(yv)
    ensures forall x, y :: IsInterior(st, x, y) ==>
      Advected(bc, st, d, prev, xv, yv, deltaTime)[CoordToIndex(st, x, y)] == prev[CoordToIndex(st, x, y)]
  {
    var u := Filled(st, d, AdvectRule(st, prev, xv, yv, deltaTime));
    InnerCellsKept(bc, st, u, Bounded(bc, st, u));
    forall x, y | IsInterior(st, x, y)
      ensures Advected(bc, st, d, prev, xv, yv, deltaTime)[CoordToIndex(st, x, y)] == prev[CoordToIndex(st, x, y)]
    {
      AdvectStillCell(st, prev, xv, yv, deltaTime, x, y);
    }
  }

  // ---------------------------------------------------------------------------
  // The routine on arrays, in place.
  // ---------------------------------------------------------------------------

  /** The back-trace and clamp of src/smoke.py:214-226 for one cell, given the velocity
      read at that cell. */
  method TraceBack(st: StageDescriptor, deltaTime: real, x: int, y: int, xVelocity: real, yVelocity: real)
    returns (xPosition: real, yPosition: real)
    requires ValidStage(st)
    ensures xPosition == BackTrace(st, xVelocity, yVelocity, deltaTime, x, y).0
    ensures yPosition == BackTrace(st, xVelocity, yVelocity, deltaTime, x, y).1
  {
    var deltaX := deltaTime * (st.width as real);
    var deltaY := deltaTime * (st.height as real);
    xPosition := (x as real) - deltaX * xVelocity;
    yPosition := (y as real) - deltaY * yVelocity;
    if xPosition < 0.5 {
      xPosition := 0.5;
    } else if xPosition > (st.width as real) - 1.5 {
      xPosition := (st.width as real) - 1.5;
    }
    if yPosition < 0.5 {
      yPosition := 0.5;
    } else if yPosition > (st.height as real) - 1.5 {
      yPosition := (st.height as real) - 1.5;
    }
  }

  /** The interpolation of src/smoke.py:229-247 for one clamped position; every read is
      inside the stage. */
  method Sample(previousDensities: array<real>, st: StageDescriptor, xPosition: real, yPosition: real) returns (value: real)
    requires ValidStage(st) && previousDensities.Length == CellCount(st)
    requires 0.5 <= xPosition <= (st.width as real) - 1.5 && 0.5 <= yPosition <= (st.height as real) - 1.5
    ensures value == Interpolate(st, previousDensities[..], xPosition, yPosition)
  {
    SampleInBounds(xPosition, st.width);
    SampleInBounds(yPosition, st.height);
    var x0 := xPosition.Floor;
    var x1 := x0 + 1;
    var y0 := yPosition.Floor;
    var y1 := y0 + 1;
    var s1 := xPosition - (x0 as real);
    var s0 := 1.0 - s1;
    var t1 := yPosition - (y0 as real);
    var t0 := 1.0 - t1;
    value := s0 * (t0 * previousDensities[CoordToIndex(st, x0, y0)]
                   + t1 * previousDensities[CoordToIndex(st, x0, y1)])
           + s1 * (t0 * previousDensities[CoordToIndex(st, x1, y0)]
                   + t1 * previousDensities[CoordToIndex(st, x1, y1)]);
  }

  /** One column of the loop of `_advect` (src/smoke.py:211-247). */
  method AdvectColumn(densities: array<real>, previousDensities: array<real>, xVelocities: array<real>,
                      yVelocities: array<real>, st: StageDescriptor, deltaTime: real, x: int, ghost d0: seq<real>)
    requires ValidStage(st) && 1 <= x <= st.width - 2
    requires densities.Length == previousDensities.Length == xVelocities.Length == yVelocities.Length == |d0| == CellCount(st)
    requires densities != previousDensities && densities != xVelocities && densities != yVelocities
    requires FilledBefore(st, densities[..], d0, AdvectRule(st, previousDensities[..], xVelocities[..], yVelocities[..], deltaTime), true, x, 1)
    modifies densities
    ensures FilledBefore(st, densities[..], d0, AdvectRule(st, previousDensities[..], xVelocities[..], yVelocities[..], deltaTime), true, x + 1, 1)
  {
    ghost var f := AdvectRule(st, previousDensities[..], xVelocities[..], yVelocities[..], deltaTime);
    for y := 1 to st.height - 1
      invariant FilledBefore(st, densities[..], d0, f, true, x, y)
    {
      var index := CoordToIndex(st, x, y);
      var xPosition, yPosition := TraceBack(st, deltaTime, x, y, xVelocities[index], yVelocities[index]);
      var value := Sample(previousDensities, st, xPosition, yPosition);
      assert value == f(x, y);
      FillStep(st, densities[..], d0, f, true, x, y);
      WriteCell(densities, st, x, y, value);
    }
    FillLineDone(st, densities[..], d0, f, true, x);
  }

  /** `_advect` (src/smoke.py:198-248). The column loop is outermost, as in the source. */
  method Advect(bc: int, densities: array<real>, previousDensities: array<real>, xVelocities: array<real>,
                yVelocities: array<real>, st: StageDescriptor, deltaTime: real)
    requires ValidStage(st)
    requires densities.Length == previousDensities.Length == xVelocities.Length == yVelocities.Length == CellCount(st)
    requires densities != previousDensities && densities != xVelocities && densities != yVelocities
    modifies densities
    ensures densities[..] == Advected(bc, st, old(densities[..]), previousDensities[..], xVelocities[..], yVelocities[..], deltaTime)
  {
    ghost var d0 := densities[..];
    FilledStart(st, d0, AdvectRule(st, previousDensities[..], xVelocities[..], yVelocities[..], deltaTime), true);
    for x := 1 to st.width - 1
      invariant FilledBefore(st, densities[..], d0, AdvectRule(st, previousDensities[..], xVelocities[..], yVelocities[..], deltaTime), true, x, 1)
    {
      AdvectColumn(densities, previousDensities, xVelocities, yVelocities, st, deltaTime, x, d0);
    }
    FillDone(st, densities[..], d0, AdvectRule(st, previousDensities[..], xVelocities[..], yVelocities[..], deltaTime), true);
    SetBoundary(bc, densities, st);
  }
}
