/** The smoke volume record and its buffers (src/smoke.py:19-28, 252-299). */
module Smoke {
  import opened Wrappers
  import opened Grid

  /** A smoke machine (src/smoke.py:19-28): a position on the stage, a heading in
      degrees and an intensity. The source only stores the three values. */
  datatype SmokeMachine = SmokeMachine(position: (real, real), direction: real, intensity: real)

  /** A field of `n` zero cells, as `np.zeros(n)` makes. */
  function Zeros(n: nat): (r: seq<real>)
    ensures |r| == n && AllZero(r)
  {
    seq(n, _ => 0.0)
  }

  /** `field` after numpy's `field[index] += amount`, or `None` when the index raises
      IndexError: a negative index counts from the end. */
  function Injected(field: seq<real>, index: int, amount: real): (r: Option<seq<real>>)
    ensures r.Some? <==> -|field| <= index < |field|
    ensures r.Some? ==> |r.value| == |field|
    ensures r.Some? ==> forall k :: 0 <= k < |field| ==>
      r.value[k] == field[k] + (if PySlot(|field|, index) == Some(k) then amount else 0.0)
  {
    match PySlot(|field|, index)
    case Some(k) => Some(field[k := field[k] + amount])
    case None => None
  }

  /** `addSmokeConcentration` as written (src/smoke.py:287-289): `index =
      _coordToIndex(pX, pY)`, then `dN[index] += concentration`. */
  function AddSmokeConcentrationAsWritten(dN: seq<real>, pX: int, pY: int, concentration: real): (r: Option<seq<real>>)
    ensures r.Some? ==> CallCoordToIndex([NumberArgument(pX), NumberArgument(pY)]).Some?
  {
    match CallCoordToIndex([NumberArgument(pX), NumberArgument(pY)])
    case None => None
    case Some(index) => Injected(dN, index, concentration)
  }

  /** `addVelocity` as written (src/smoke.py:292-295): the same index call, then
      `xN[index] += vX` and `yN[index] += vY`; `None` when any of them raises. */
  function AddVelocityAsWritten(xN: seq<real>, yN: seq<real>, pX: int, pY: int, vX: real, vY: real): (r: Option<(seq<real>, seq<real>)>)
    ensures r.Some? ==> CallCoordToIndex([NumberArgument(pX), NumberArgument(pY)]).Some?
  {
    match CallCoordToIndex([NumberArgument(pX), NumberArgument(pY)])
    case None => None
    case Some(index) =>
      match (Injected(xN, index, vX), Injected(yN, index, vY))
      case (Some(x), Some(y)) => Some((x, y))
      case _ => None
  }

  /** As written, both injection methods raise for every cell and every amount. */
  lemma InjectionAsWrittenRaises(dN: seq<real>, xN: seq<real>, yN: seq<real>, pX: int, pY: int, amount: real, vX: real, vY: real)
    ensures AddSmokeConcentrationAsWritten(dN, pX, pY, amount) == None
    ensures AddVelocityAsWritten(xN, yN, pX, pY, vX, vY) == None
  {
    TwoArgumentCallRaises(pX, pY);
  }

  /** Injecting at the index of a stage cell adds the amount to that cell and to no
      other. */
  lemma InjectedAtCell(st: StageDescriptor, field: seq<real>, x: int, y: int, amount: real)
    requires |field| == CellCount(st) && InGrid(st, x, y)
    ensures Injected(field, CoordToIndex(st, x, y), amount).Some?
    ensures forall cx, cy {:trigger CoordToIndex(st, cx, cy)} :: InGrid(st, cx, cy) ==>
      Injected(field, CoordToIndex(st, x, y), amount).value[CoordToIndex(st, cx, cy)]
        == field[CoordToIndex(st, cx, cy)] + (if cx == x && cy == y then amount else 0.0)
  {
    forall cx, cy | InGrid(st, cx, cy)
      ensures Injected(field, CoordToIndex(st, x, y), amount).value[CoordToIndex(st, cx, cy)]
        == field[CoordToIndex(st, cx, cy)] + (if cx == x && cy == y then amount else 0.0)
    {
      CoordInjective(st, x, y, cx, cy);
    }
  }

  /** Two injections at one index add up. */
  lemma InjectedAdds(field: seq<real>, index: int, a: real, b: real)
    requires -|field| <= index < |field|
    ensures Injected(Injected(field, index, a).value, index, b) == Injected(field, index, a + b)
  {
    var once := Injected(field, index, a).value;
    assert Injected(once, index, b).value == Injected(field, index, a + b).value;
  }

  /** Injecting an amount and then its negation restores the field. */
  lemma InjectedUndo(field: seq<real>, index: int, amount: real)
    requires -|field| <= index < |field|
    ensures Injected(Injected(field, index, amount).value, index, -amount) == Some(field)
  {
    InjectedAdds(field, index, amount, -amount);
    assert Injected(field, index, 0.0).value == field;
  }

  /** The simulated volume of src/smoke.py:252-299: the current (`xN`, `yN`, `dN`) and
      previous (`xB`, `yB`, `dB`) velocity and density fields of one stage. */
  class Volume {
    const stageInfo: StageDescriptor
    const nCells: int
    const deltaTime: real
    const viscosity: real
    const diffusion: real
    const xN: array<real>
    const yN: array<real>
    const dN: array<real>
    const xB: array<real>
    const yB: array<real>
    const dB: array<real>

    /** Six separate buffers of one cell per stage cell. */
    predicate Valid() {
      nCells == CellCount(stageInfo)
      && xN.Length == yN.Length == dN.Length == xB.Length == yB.Length == dB.Length == nCells
      && xN != yN && xN != dN && yN != dN
      && xB != yB && xB != dB && yB != dB
      && xN != xB && xN != yB && xN != dB
      && yN != xB && yN != yB && yN != dB
      && dN != xB && dN != yB && dN != dB
    }

    /** `Volume.__init__` (src/smoke.py:270-284). `np.zeros` refuses a negative length,
        so the cell count may not be negative. */
    constructor (stageInfo: StageDescriptor, deltaTime: real, viscosity: real, diffusion: real)
      requires 0 <= CellCount(stageInfo)
      ensures Valid()
      ensures this.stageInfo == stageInfo && this.deltaTime == deltaTime
      ensures this.viscosity == viscosity && this.diffusion == diffusion
      ensures fresh(xN) && fresh(yN) && fresh(dN) && fresh(xB) && fresh(yB) && fresh(dB)
      ensures xN[..] == Zeros(nCells) && yN[..] == Zeros(nCells) && dN[..] == Zeros(nCells)
      ensures xB[..] == Zeros(nCells) && yB[..] == Zeros(nCells) && dB[..] == Zeros(nCells)
    {
      this.stageInfo := stageInfo;
      var n := CellCount(stageInfo);
      this.nCells := n;
      this.deltaTime := deltaTime;
      this.viscosity := viscosity;
      this.diffusion := diffusion;
      this.yN := new real[n](_ => 0.0);
      this.xN := new real[n](_ => 0.0);
      this.dN := new real[n](_ => 0.0);
      this.yB := new real[n](_ => 0.0);
      this.xB := new real[n](_ => 0.0);
      this.dB := new real[n](_ => 0.0);
    }

    /** `addSmokeConcentration` (src/smoke.py:287-289): adds `concentration` to the density
        of the cell (pX, pY). An index numpy refuses raises IndexError, reported as
        `raised` with nothing changed. */
    method AddSmokeConcentration(pX: int, pY: int, concentration: real) returns (raised: bool)
      requires Valid()
      modifies dN
      ensures raised <==> Injected(old(dN[..]), CoordToIndex(stageInfo, pX, pY), concentration).None?
      ensures !raised ==> dN[..] == Injected(old(dN[..]), CoordToIndex(stageInfo, pX, pY), concentration).value
      ensures raised ==> dN[..] == old(dN[..])
    {
      var index := CoordToIndex(stageInfo, pX, pY);
      var slot := PySlot(dN.Length, index);
      if slot.None? {
        return true;
      }
      dN[slot.value] := dN[slot.value] + concentration;
      raised := false;
    }

    /** `addVelocity` (src/smoke.py:292-295): adds (vX, vY) to the velocity of the cell
        (pX, pY). An index numpy refuses raises IndexError before either field changes. */
    method AddVelocity(pX: int, pY: int, vX: real, vY: real) returns (raised: bool)
      requires Valid()
      modifies xN, yN
      ensures raised <==> Injected(old(xN[..]), CoordToIndex(stageInfo, pX, pY), vX).None?
      ensures !raised ==> xN[..] == Injected(old(xN[..]), CoordToIndex(stageInfo, pX, pY), vX).value
      ensures !raised ==> yN[..] == Injected(old(yN[..]), CoordToIndex(stageInfo, pX, pY), vY).value
      ensures raised ==> xN[..] == old(xN[..]) && yN[..] == old(yN[..])
    {
      var index := CoordToIndex(stageInfo, pX, pY);
      var slot := PySlot(xN.Length, index);
      if slot.None? {
        return true;
      }
      xN[slot.value] := xN[slot.value] + vX;
      yN[slot.value] := yN[slot.value] + vY;
      raised := false;
    }
  }
}
