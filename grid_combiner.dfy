/**
 * GridCombiner: merges two precomputed data grids into a new in-memory grid whose extents and
 * timestep range enclose both, copying the left grid's values first and the right grid's after,
 * so the right grid wins wherever the two overlap.
 */
module GridCombiners {
  import opened Wrappers
  import opened UnitsAlgebra

  /** A grid-space position at a timestep. */
  datatype Cell = Cell(x: int, y: int, timestep: int)

  /** The part of a DataGridLayer the combiner reads: its ranges, its units and its values. */
  datatype Layer = Layer(
    minX: int, maxX: int, minY: int, maxY: int,
    minTimestep: int, maxTimestep: int,
    units: Units,
    valueAt: Cell -> real)

  /** PatchBuilderExtents in grid space: the top left is (min x, max y). */
  datatype Extents = Extents(topLeftX: int, topLeftY: int, bottomRightX: int, bottomRightY: int)

  function Min(a: int, b: int): int { if a <= b then a else b }
  function Max(a: int, b: int): int { if a >= b then a else b }

  // ---------------------------------------------------------------------------
  // Extents, timesteps and units
  // ---------------------------------------------------------------------------

  /** getCombinedExtents. */
  function CombinedExtents(left: Layer, right: Layer): (e: Extents)
    ensures e.topLeftX <= left.minX && e.topLeftX <= right.minX
    ensures e.topLeftX == left.minX || e.topLeftX == right.minX
    ensures e.bottomRightX >= left.maxX && e.bottomRightX >= right.maxX
    ensures e.bottomRightX == left.maxX || e.bottomRightX == right.maxX
    ensures e.topLeftY >= left.maxY && e.topLeftY >= right.maxY
    ensures e.topLeftY == left.maxY || e.topLeftY == right.maxY
    ensures e.bottomRightY <= left.minY && e.bottomRightY <= right.minY
    ensures e.bottomRightY == left.minY || e.bottomRightY == right.minY
  {
    Extents(Min(left.minX, right.minX), Max(left.maxY, right.maxY), Max(left.maxX, right.maxX), Min(left.minY, right.minY))
  }

  /** getMinTimestep. */
  function MinTimestep(left: Layer, right: Layer): (t: int)
    ensures t <= left.minTimestep && t <= right.minTimestep
    ensures t == left.minTimestep || t == right.minTimestep
  {
    Min(left.minTimestep, right.minTimestep)
  }

  /** getMaxTimestep. */
  function MaxTimestep(left: Layer, right: Layer): (t: int)
    ensures t >= left.maxTimestep && t >= right.maxTimestep
    ensures t == left.maxTimestep || t == right.maxTimestep
  {
    Max(left.maxTimestep, right.maxTimestep)
  }

  /** getUnits: IllegalArgumentException unless the units are equal; otherwise the right grid's. */
  function CombinedUnits(left: Layer, right: Layer): (r: Result<Units>)
    ensures r.Success? <==> Equal(left.units, right.units)
    ensures r.Success? ==> r.value == right.units
    ensures r.Failure? ==> r.error == Error(IllegalArgument,
      "Units must be equal: left=" + ToString(left.units) + ", right=" + ToString(right.units))
  {
    if !Equal(left.units, right.units) then
      Failure(Error(IllegalArgument, "Units must be equal: left=" + ToString(left.units) + ", right=" + ToString(right.units)))
    else Success(right.units)
  }

  /** A cell inside the given extents and timestep range. */
  predicate Covers(e: Extents, minTimestep: int, maxTimestep: int, c: Cell)
  {
    e.topLeftX <= c.x <= e.bottomRightX && e.bottomRightY <= c.y <= e.topLeftY &&
    minTimestep <= c.timestep <= maxTimestep
  }

  predicate InLayer(s: Layer, c: Cell)
  {
    s.minX <= c.x <= s.maxX && s.minY <= c.y <= s.maxY && s.minTimestep <= c.timestep <= s.maxTimestep
  }

  /** The combined ranges cover every cell of either grid. */
  lemma CombinedCoversBoth(left: Layer, right: Layer, c: Cell)
    requires InLayer(left, c) || InLayer(right, c)
    ensures Covers(CombinedExtents(left, right), MinTimestep(left, right), MaxTimestep(left, right), c)
  {
  }

  /** Any box covering both grids contains the combined one: the combined ranges are the tightest. */
  lemma CombinedIsTightest(left: Layer, right: Layer, e: Extents, minTimestep: int, maxTimestep: int)
    requires left.minX <= left.maxX && left.minY <= left.maxY && left.minTimestep <= left.maxTimestep
    requires right.minX <= right.maxX && right.minY <= right.maxY && right.minTimestep <= right.maxTimestep
    requires forall c :: InLayer(left, c) || InLayer(right, c) ==> Covers(e, minTimestep, maxTimestep, c)
    ensures var combined := CombinedExtents(left, right);
      e.topLeftX <= combined.topLeftX && combined.bottomRightX <= e.bottomRightX &&
      e.bottomRightY <= combined.bottomRightY && combined.topLeftY <= e.topLeftY &&
      minTimestep <= MinTimestep(left, right) && MaxTimestep(left, right) <= maxTimestep
  {
    assert InLayer(left, Cell(left.minX, left.minY, left.minTimestep));
    assert InLayer(left, Cell(left.maxX, left.maxY, left.maxTimestep));
    assert InLayer(right, Cell(right.minX, right.minY, right.minTimestep));
    assert InLayer(right, Cell(right.maxX, right.maxY, right.maxTimestep));
  }

  // ---------------------------------------------------------------------------
  // Copying values
  // ---------------------------------------------------------------------------

  /** The cells with lo.x <= x <= hi.x, lo.y <= y <= hi.y and lo.timestep <= timestep <= hi.timestep. */
  function Box(lo: Cell, hi: Cell): set<Cell>
  {
    set x: int, y: int, t: int | lo.x <= x <= hi.x && lo.y <= y <= hi.y && lo.timestep <= t <= hi.timestep :: Cell(x, y, t)
  }

  lemma InBox(lo: Cell, hi: Cell, c: Cell)
    ensures c in Box(lo, hi) <==> lo.x <= c.x <= hi.x && lo.y <= c.y <= hi.y && lo.timestep <= c.timestep <= hi.timestep
  {
    if lo.x <= c.x <= hi.x && lo.y <= c.y <= hi.y && lo.timestep <= c.timestep <= hi.timestep {
      assert c == Cell(c.x, c.y, c.timestep);
    }
  }

  lemma BoxEmpty(lo: Cell, hi: Cell)
    requires hi.x < lo.x || hi.y < lo.y || hi.timestep < lo.timestep
    ensures Box(lo, hi) == {}
  {
    forall c | c in Box(lo, hi) ensures false {
      InBox(lo, hi, c);
    }
  }

  /** Every cell of a grid. */
  function LayerCells(s: Layer): set<Cell>
  {
    Box(Cell(s.minX, s.minY, s.minTimestep), Cell(s.maxX, s.maxY, s.maxTimestep))
  }

  /** The stored values after the source's values are written over the cells of area. */
  function Overlay(stored: map<Cell, real>, s: Layer, area: set<Cell>): map<Cell, real>
  {
    map c | c in stored.Keys + area :: if c in area then s.valueAt(c) else stored[c]
  }

  /** The cells of area take the source's values; every other stored cell keeps its value. */
  lemma OverlayMeaning(stored: map<Cell, real>, s: Layer, area: set<Cell>)
    ensures Overlay(stored, s, area).Keys == stored.Keys + area
    ensures forall c :: c in area ==> Overlay(stored, s, area)[c] == s.valueAt(c)
    ensures forall c :: c in stored && c !in area ==> Overlay(stored, s, area)[c] == stored[c]
  {
  }

  /** Writing two areas one after the other is writing their union. */
  lemma OverlayTwice(stored: map<Cell, real>, s: Layer, a: set<Cell>, b: set<Cell>)
    ensures Overlay(Overlay(stored, s, a), s, b) == Overlay(stored, s, a + b)
  {
    OverlayMeaning(stored, s, a);
    OverlayMeaning(Overlay(stored, s, a), s, b);
    OverlayMeaning(stored, s, a + b);
  }

  /** Writing one cell is a map update. */
  lemma OverlayOne(stored: map<Cell, real>, s: Layer, c: Cell)
    ensures Overlay(stored, s, {c}) == stored[c := s.valueAt(c)]
  {
    OverlayMeaning(stored, s, {c});
  }

  /** Writing an empty box changes nothing. */
  lemma OverlayEmptyBox(stored: map<Cell, real>, s: Layer, lo: Cell, hi: Cell)
    requires hi.x < lo.x || hi.y < lo.y || hi.timestep < lo.timestep
    ensures Overlay(stored, s, Box(lo, hi)) == stored
  {
    BoxEmpty(lo, hi);
    OverlayMeaning(stored, s, {});
  }

  /** A DoublePrecomputedGrid reduced to its ranges, its units and the values set so far. */
  class CombinedGrid {
    const extents: Extents
    const minTimestep: int
    const maxTimestep: int
    const units: Units
    var stored: map<Cell, real>

    constructor(extents: Extents, minTimestep: int, maxTimestep: int, units: Units)
      ensures this.extents == extents && this.minTimestep == minTimestep && this.maxTimestep == maxTimestep
      ensures this.units == units && stored == map[]
    {
      this.extents := extents;
      this.minTimestep := minTimestep;
      this.maxTimestep := maxTimestep;
      this.units := units;
      stored := map[];
    }

    /** setAt: the value at one cell, replacing any earlier one. */
    method SetAt(x: int, y: int, timestep: int, value: real)
      modifies this
      ensures stored == old(stored)[Cell(x, y, timestep) := value]
    {
      stored := stored[Cell(x, y, timestep) := value];
    }
  }

  /** The timestep loop of addInValues, for one (x, y). */
  method AddTimesteps(combinedGrid: CombinedGrid, source: Layer, x: int, y: int)
    modifies combinedGrid
    ensures combinedGrid.stored == Overlay(old(combinedGrid.stored), source,
      Box(Cell(x, y, source.minTimestep), Cell(x, y, source.maxTimestep)))
  {
    ghost var before := combinedGrid.stored;
    var timestep := source.minTimestep;
    while timestep <= source.maxTimestep
      invariant source.minTimestep <= timestep
      invariant timestep <= source.maxTimestep + 1 || timestep == source.minTimestep
      invariant combinedGrid.stored == Overlay(before, source, Box(Cell(x, y, source.minTimestep), Cell(x, y, timestep - 1)))
      decreases source.maxTimestep - timestep
    {
      combinedGrid.SetAt(x, y, timestep, source.valueAt(Cell(x, y, timestep)));
      OverlayNextTimestep(before, source, x, y, source.minTimestep, timestep);
      timestep := timestep + 1;
    }
    if source.maxTimestep < source.minTimestep {
      OverlayEmptyBox(before, source, Cell(x, y, source.minTimestep), Cell(x, y, timestep - 1));
      OverlayEmptyBox(before, source, Cell(x, y, source.minTimestep), Cell(x, y, source.maxTimestep));
    }
  }

  lemma ExtendTimestep(x: int, y: int, t0: int, t: int)
    requires t0 <= t
    ensures Box(Cell(x, y, t0), Cell(x, y, t - 1)) + {Cell(x, y, t)} == Box(Cell(x, y, t0), Cell(x, y, t))
  {
    forall c ensures c in Box(Cell(x, y, t0), Cell(x, y, t - 1)) + {Cell(x, y, t)} <==> c in Box(Cell(x, y, t0), Cell(x, y, t)) {
      InBox(Cell(x, y, t0), Cell(x, y, t - 1), c);
      InBox(Cell(x, y, t0), Cell(x, y, t), c);
    }
  }

  /** One more timestep of the timestep loop. */
  lemma OverlayNextTimestep(before: map<Cell, real>, source: Layer, x: int, y: int, t0: int, t: int)
    requires t0 <= t
    ensures Overlay(before, source, Box(Cell(x, y, t0), Cell(x, y, t - 1)))[Cell(x, y, t) := source.valueAt(Cell(x, y, t))] ==
      Overlay(before, source, Box(Cell(x, y, t0), Cell(x, y, t)))
  {
    var done := Box(Cell(x, y, t0), Cell(x, y, t - 1));
    OverlayOne(Overlay(before, source, done), source, Cell(x, y, t));
    ExtendTimestep(x, y, t0, t);
    OverlayTwice(before, source, done, {Cell(x, y, t)});
  }

  /** The y loop of addInValues, for one x. */
  method AddColumn(combinedGrid: CombinedGrid, source: Layer, x: int)
    modifies combinedGrid
    ensures combinedGrid.stored == Overlay(old(combinedGrid.stored), source,
      Box(Cell(x, source.minY, source.minTimestep), Cell(x, source.maxY, source.maxTimestep)))
  {
    ghost var before := combinedGrid.stored;
    var y := source.minY;
    while y <= source.maxY
      invariant source.minY <= y
      invariant y <= source.maxY + 1 || y == source.minY
      invariant combinedGrid.stored == Overlay(before, source,
        Box(Cell(x, source.minY, source.minTimestep), Cell(x, y - 1, source.maxTimestep)))
      decreases source.maxY - y
    {
      AddTimesteps(combinedGrid, source, x, y);
      OverlayNextY(before, source, x, source.minY, y, source.minTimestep, source.maxTimestep);
      y := y + 1;
    }
    if source.maxY < source.minY {
      OverlayEmptyBox(before, source, Cell(x, source.minY, source.minTimestep), Cell(x, y - 1, source.maxTimestep));
      OverlayEmptyBox(before, source, Cell(x, source.minY, source.minTimestep), Cell(x, source.maxY, source.maxTimestep));
    }
  }

  lemma ExtendY(x: int, y0: int, y: int, t0: int, t1: int)
    requires y0 <= y
    ensures Box(Cell(x, y0, t0), Cell(x, y - 1, t1)) + Box(Cell(x, y, t0), Cell(x, y, t1)) == Box(Cell(x, y0, t0), Cell(x, y, t1))
  {
    forall c ensures c in Box(Cell(x, y0, t0), Cell(x, y - 1, t1)) + Box(Cell(x, y, t0), Cell(x, y, t1)) <==>
      c in Box(Cell(x, y0, t0), Cell(x, y, t1)) {
      InBox(Cell(x, y0, t0), Cell(x, y - 1, t1), c);
      InBox(Cell(x, y, t0), Cell(x, y, t1), c);
      InBox(Cell(x, y0, t0), Cell(x, y, t1), c);
    }
  }

  /** One more y of the y loop. */
  lemma OverlayNextY(before: map<Cell, real>, source: Layer, x: int, y0: int, y: int, t0: int, t1: int)
    requires y0 <= y
    ensures Overlay(Overlay(before, source, Box(Cell(x, y0, t0), Cell(x, y - 1, t1))), source, Box(Cell(x, y, t0), Cell(x, y, t1))) ==
      Overlay(before, source, Box(Cell(x, y0, t0), Cell(x, y, t1)))
  {
    ExtendY(x, y0, y, t0, t1);
    OverlayTwice(before, source, Box(Cell(x, y0, t0), Cell(x, y - 1, t1)), Box(Cell(x, y, t0), Cell(x, y, t1)));
  }

  /** addInValues: every cell of the source's ranges gets the source's value. */
  method AddInValues(combinedGrid: CombinedGrid, source: Layer)
    modifies combinedGrid
    ensures combinedGrid.stored == Overlay(old(combinedGrid.stored), source, LayerCells(source))
  {
    ghost var before := combinedGrid.stored;
    var x := source.minX;
    while x <= source.maxX
      invariant source.minX <= x
      invariant x <= source.maxX + 1 || x == source.minX
      invariant combinedGrid.stored == Overlay(before, source,
        Box(Cell(source.minX, source.minY, source.minTimestep), Cell(x - 1, source.maxY, source.maxTimestep)))
      decreases source.maxX - x
    {
      AddColumn(combinedGrid, source, x);
      OverlayNextX(before, source, source.minX, x, source.minY, source.maxY, source.minTimestep, source.maxTimestep);
      x := x + 1;
    }
    if source.maxX < source.minX {
      OverlayEmptyBox(before, source, Cell(source.minX, source.minY, source.minTimestep), Cell(x - 1, source.maxY, source.maxTimestep));
      OverlayEmptyBox(before, source, Cell(source.minX, source.minY, source.minTimestep), Cell(source.maxX, source.maxY, source.maxTimestep));
    }
  }

  lemma ExtendX(x0: int, x: int, y0: int, y1: int, t0: int, t1: int)
    requires x0 <= x
    ensures Box(Cell(x0, y0, t0), Cell(x - 1, y1, t1)) + Box(Cell(x, y0, t0), Cell(x, y1, t1)) == Box(Cell(x0, y0, t0), Cell(x, y1, t1))
  {
    forall c ensures c in Box(Cell(x0, y0, t0), Cell(x - 1, y1, t1)) + Box(Cell(x, y0, t0), Cell(x, y1, t1)) <==>
      c in Box(Cell(x0, y0, t0), Cell(x, y1, t1)) {
      InBox(Cell(x0, y0, t0), Cell(x - 1, y1, t1), c);
      InBox(Cell(x, y0, t0), Cell(x, y1, t1), c);
      InBox(Cell(x0, y0, t0), Cell(x, y1, t1), c);
    }
  }

  /** One more x of the x loop. */
  lemma OverlayNextX(before: map<Cell, real>, source: Layer, x0: int, x: int, y0: int, y1: int, t0: int, t1: int)
    requires x0 <= x
    ensures Overlay(Overlay(before, source, Box(Cell(x0, y0, t0), Cell(x - 1, y1, t1))), source, Box(Cell(x, y0, t0), Cell(x, y1, t1))) ==
      Overlay(before, source, Box(Cell(x0, y0, t0), Cell(x, y1, t1)))
  {
    ExtendX(x0, x, y0, y1, t0, t1);
    OverlayTwice(before, source, Box(Cell(x0, y0, t0), Cell(x - 1, y1, t1)), Box(Cell(x, y0, t0), Cell(x, y1, t1)));
  }

  // ---------------------------------------------------------------------------
  // combine
  // ---------------------------------------------------------------------------

  /** The values of the combined grid: the left grid's, then the right grid's over them. */
  function CombinedValues(left: Layer, right: Layer): map<Cell, real>
  {
    Overlay(Overlay(map[], left, LayerCells(left)), right, LayerCells(right))
  }

  /**
   * Every cell of either grid has a value; the right grid's wherever it has the cell, the left
   * grid's elsewhere; no other cell is set, and every set cell lies within the combined ranges.
   */
  lemma RightWins(left: Layer, right: Layer, c: Cell)
    ensures c in CombinedValues(left, right) <==> InLayer(left, c) || InLayer(right, c)
    ensures InLayer(right, c) ==> CombinedValues(left, right)[c] == right.valueAt(c)
    ensures InLayer(left, c) && !InLayer(right, c) ==> CombinedValues(left, right)[c] == left.valueAt(c)
    ensures c in CombinedValues(left, right) ==>
      Covers(CombinedExtents(left, right), MinTimestep(left, right), MaxTimestep(left, right), c)
  {
    InBox(Cell(left.minX, left.minY, left.minTimestep), Cell(left.maxX, left.maxY, left.maxTimestep), c);
    InBox(Cell(right.minX, right.minY, right.minTimestep), Cell(right.maxX, right.maxY, right.maxTimestep), c);
    OverlayMeaning(map[], left, LayerCells(left));
    OverlayMeaning(Overlay(map[], left, LayerCells(left)), right, LayerCells(right));
  }

  /** combine: IllegalArgumentException for unequal units, else a new grid holding both. */
  method Combine(left: Layer, right: Layer) returns (r: Result<CombinedGrid>)
    ensures r.Failure? <==> CombinedUnits(left, right).Failure?
    ensures r.Failure? ==> r.error == CombinedUnits(left, right).error
    ensures r.Success? ==> (
      fresh(r.value) &&
      r.value.extents == CombinedExtents(left, right) &&
      r.value.minTimestep == MinTimestep(left, right) && r.value.maxTimestep == MaxTimestep(left, right) &&
      r.value.units == right.units &&
      r.value.stored == CombinedValues(left, right))
  {
    var combinedExtents := CombinedExtents(left, right);
    var minTimestep := MinTimestep(left, right);
    var maxTimestep := MaxTimestep(left, right);
    var units := CombinedUnits(left, right);
    if units.Failure? {
      return Failure(units.error);
    }
    var combinedGrid := new CombinedGrid(combinedExtents, minTimestep, maxTimestep, units.value);
    AddInValues(combinedGrid, left);
    AddInValues(combinedGrid, right);
    return Success(combinedGrid);
  }
}
