/**
 * The component grid and the simulation state around it (src/sim/model.rs).
 * The grid is a sequence of columns; a placed component occupies a rectangle
 * whose lower-left cell holds the component itself (`Real`) and whose other
 * cells point back at that origin (`Reference`).
 */
module Model {
  import opened Wrappers
  import opened Helpers
  import opened PortGrids
  import opened Placement

  /** A sprite entity of the engine, kept only as an opaque number. */
  type EntityId = nat

  datatype CellState = Empty | Reference(origin: Pos) | Real(entity: EntityId, component: Component)

  /** `ComponentGrid::grid`: `g[x][y]` is the cell in column `x`, row `y`. */
  type Cells = seq<seq<CellState>>

  /** The error of a placement that does not fit (model.rs declares it as its own `PortGridError`). */
  datatype FitError = CantFit

  /** Every column of the footprint exists and is tall enough for it. */
  predicate InBounds(g: Cells, pos: Pos, size: Size) {
    (size.w == 0 || pos.x + size.w <= |g|) &&
    forall x :: pos.x <= x < pos.x + size.w ==> pos.y + size.h <= |g[x]|
  }

  /** Rows [`y0`, `y0` + `h`) of a column all exist and are `Empty`. */
  predicate ColumnFits(column: seq<CellState>, y0: nat, h: nat) {
    (h == 0 || y0 + h <= |column|) && forall y :: y0 <= y < y0 + h ==> column[y].Empty?
  }

  /** `can_fit` as a predicate: the footprint columns exist, and their footprint cells exist and are `Empty`. */
  predicate Fits(g: Cells, pos: Pos, size: Size) {
    (size.w == 0 || pos.x + size.w <= |g|) &&
    forall x :: pos.x <= x < pos.x + size.w ==> ColumnFits(g[x], pos.y, size.h)
  }

  /** Shape of a grid after an in-place cell-by-cell rewrite: same columns, same heights. */
  predicate SameDimensions(a: Cells, b: Cells) {
    |a| == |b| && forall x :: 0 <= x < |a| ==> |a[x]| == |b[x]|
  }

  /** What `place_component` leaves in cell (`x`, `y`), which it writes when `inside` holds. */
  function PlacedCell(cell: CellState, x: nat, y: nat, pos: Pos, inside: bool, e: EntityId, c: Component): CellState {
    if !inside then cell
    else if x == pos.x && y == pos.y then Real(e, c)
    else Reference(pos)
  }

  /**
   * The grid after placing component `c` with entity `e` at `pos`: the origin is
   * `Real`, the rest of the footprint refers to it, every other cell is kept.
   */
  function Placed(g: Cells, e: EntityId, c: Component, pos: Pos): (r: Cells)
    ensures SameDimensions(r, g)
  {
    var size := GridSize(Dummy(c));
    seq(|g|, x requires 0 <= x < |g| =>
      seq(|g[x]|, y requires 0 <= y < |g[x]| => PlacedCell(g[x][y], x, y, pos, InFootprint(x, y, pos, size), e, c)))
  }

  /** The grid after `remove_component`: the footprint is `Empty`, every other cell is kept. */
  function Cleared(g: Cells, pos: Pos, size: Size): (r: Cells)
    ensures SameDimensions(r, g)
  {
    seq(|g|, x requires 0 <= x < |g| =>
      seq(|g[x]|, y requires 0 <= y < |g[x]| => if InFootprint(x, y, pos, size) then Empty else g[x][y]))
  }

  /**
   * What placement leaves in each cell: the origin holds the component, the rest
   * of the footprint refers to the origin, and every other cell is unchanged.
   */
  lemma PlacedContents(g: Cells, e: EntityId, c: Component, pos: Pos, x: nat, y: nat)
    requires x < |g| && y < |g[x]|
    ensures x == pos.x && y == pos.y ==> Placed(g, e, c, pos)[x][y] == Real(e, c)
    ensures InFootprint(x, y, pos, GridSize(Dummy(c))) && (x != pos.x || y != pos.y) ==>
      Placed(g, e, c, pos)[x][y] == Reference(pos)
    ensures !InFootprint(x, y, pos, GridSize(Dummy(c))) ==> Placed(g, e, c, pos)[x][y] == g[x][y]
  {
  }

  /** What removal leaves in each cell: the footprint is `Empty` and every other cell is unchanged. */
  lemma ClearedContents(g: Cells, pos: Pos, size: Size, x: nat, y: nat)
    requires x < |g| && y < |g[x]|
    ensures InFootprint(x, y, pos, size) ==> Cleared(g, pos, size)[x][y] == Empty
    ensures !InFootprint(x, y, pos, size) ==> Cleared(g, pos, size)[x][y] == g[x][y]
  {
  }

  /** Two grids of the same dimensions agree on which footprints are in bounds. */
  lemma InBoundsSameDimensions(a: Cells, b: Cells, pos: Pos, size: Size)
    requires SameDimensions(a, b) && InBounds(a, pos, size)
    ensures InBounds(b, pos, size)
  {
    forall x | pos.x <= x < pos.x + size.w
      ensures pos.y + size.h <= |b[x]|
    {
      assert pos.y + size.h <= |a[x]|;
    }
  }

  /** Grids of the same dimensions that agree on every cell are equal. */
  lemma CellsEqual(a: Cells, b: Cells)
    requires SameDimensions(a, b)
    requires forall x, y :: 0 <= x < |a| && 0 <= y < |a[x]| ==> a[x][y] == b[x][y]
    ensures a == b
  {
    forall x | 0 <= x < |a|
      ensures a[x] == b[x]
    {
      assert |a[x]| == |b[x]|;
    }
  }

  /** A footprint that fits is in bounds. */
  lemma FitsInBounds(g: Cells, pos: Pos, size: Size)
    requires Fits(g, pos, size) && size.h >= 1
    ensures InBounds(g, pos, size)
  {
    forall x | pos.x <= x < pos.x + size.w
      ensures pos.y + size.h <= |g[x]|
    {
      assert ColumnFits(g[x], pos.y, size.h);
    }
  }

  /** A missing column, or a missing or non-`Empty` cell inside the footprint, makes it not fit. */
  lemma BlockedCellPreventsFit(g: Cells, pos: Pos, size: Size, x: nat, y: nat)
    requires pos.x <= x < pos.x + size.w
    requires x >= |g| || (pos.y <= y < pos.y + size.h && (y >= |g[x]| || !g[x][y].Empty?))
    ensures !Fits(g, pos, size)
  {
  }

  /** Once placed, a component's origin cell blocks every footprint that covers it. */
  lemma PlacedBlocksOverlap(g: Cells, e: EntityId, c: Component, pos: Pos, q: Pos, s: Size)
    requires InBounds(g, pos, GridSize(Dummy(c)))
    requires InFootprint(pos.x, pos.y, q, s)
    ensures !Fits(Placed(g, e, c, pos), q, s)
  {
    var r: Cells := Placed(g, e, c, pos);
    assert pos.y + GridSize(Dummy(c)).h <= |g[pos.x]|;
    assert r[pos.x][pos.y] == Real(e, c);
    BlockedCellPreventsFit(r, q, s, pos.x, pos.y);
  }

  /** Removing a component that was placed on a free footprint restores the grid. */
  lemma ClearPlacedRoundTrip(g: Cells, e: EntityId, c: Component, pos: Pos)
    requires Fits(g, pos, GridSize(Dummy(c)))
    ensures Cleared(Placed(g, e, c, pos), pos, GridSize(Dummy(c))) == g
  {
    var size := GridSize(Dummy(c));
    var r := Cleared(Placed(g, e, c, pos), pos, size);
    assert |r| == |g|;
    forall x | 0 <= x < |g|
      ensures r[x] == g[x]
    {
      assert |r[x]| == |g[x]|;
      forall y | 0 <= y < |g[x]|
        ensures r[x][y] == g[x][y]
      {
        if InFootprint(x, y, pos, size) {
          assert ColumnFits(g[x], pos.y, size.h);
        }
      }
    }
  }

  /** After removal the same footprint fits again, provided it is in bounds. */
  lemma ClearedFits(g: Cells, pos: Pos, size: Size)
    requires InBounds(g, pos, size)
    ensures Fits(Cleared(g, pos, size), pos, size)
  {
    var r: Cells := Cleared(g, pos, size);
    forall x | pos.x <= x < pos.x + size.w
      ensures ColumnFits(r[x], pos.y, size.h)
    {
      assert |r[x]| == |g[x]| && pos.y + size.h <= |g[x]|;
    }
  }

  /** The footprint of the component whose `Real` cell is at `o`. */
  function FootprintAt(g: Cells, o: Pos): Size
    requires o.x < |g| && o.y < |g[o.x]| && g[o.x][o.y].Real?
  {
    GridSize(Dummy(g[o.x][o.y].component))
  }

  /** The `Real` cell at `o` owns its footprint: it is in bounds and every other cell of it refers to `o`. */
  ghost predicate OwnsFootprint(g: Cells, o: Pos)
    requires o.x < |g| && o.y < |g[o.x]| && g[o.x][o.y].Real?
  {
    var size := FootprintAt(g, o);
    InBounds(g, o, size) &&
    forall i: nat, j: nat :: InFootprint(i, j, o, size) && (i != o.x || j != o.y) ==> g[i][j] == Reference(o)
  }

  /** The `Reference` at (`x`, `y`) points at a `Real` cell whose footprint contains it. */
  ghost predicate ReferenceResolves(g: Cells, x: nat, y: nat)
    requires x < |g| && y < |g[x]| && g[x][y].Reference?
  {
    var o := g[x][y].origin;
    o.x < |g| && o.y < |g[o.x]| && g[o.x][o.y].Real? && InFootprint(x, y, o, FootprintAt(g, o))
  }

  /** The grid invariant that placement and removal keep. */
  ghost predicate WellFormed(g: Cells) {
    (forall x: nat, y: nat :: x < |g| && y < |g[x]| && g[x][y].Real? ==> OwnsFootprint(g, Pos(x, y))) &&
    (forall x: nat, y: nat :: x < |g| && y < |g[x]| && g[x][y].Reference? ==> ReferenceResolves(g, x, y))
  }

  /** The empty grid is well formed. */
  lemma EmptyWellFormed(g: Cells)
    requires forall x, y :: 0 <= x < |g| && 0 <= y < |g[x]| ==> g[x][y] == Empty
    ensures WellFormed(g)
  {
  }

  /** Every cell of a footprint that fits exists and is `Empty`. */
  lemma FitsCellEmpty(g: Cells, pos: Pos, size: Size, x: int, y: int)
    requires Fits(g, pos, size) && InFootprint(x, y, pos, size)
    ensures 0 <= x < |g| && 0 <= y < |g[x]| && g[x][y].Empty?
  {
    assert ColumnFits(g[x], pos.y, size.h);
  }

  /** After placing on a fitting footprint, each `Real` cell still owns its footprint. */
  lemma PlacedOwnsFootprint(g: Cells, e: EntityId, c: Component, pos: Pos, x: nat, y: nat)
    requires WellFormed(g) && Fits(g, pos, GridSize(Dummy(c)))
    requires x < |g| && y < |g[x]| && Placed(g, e, c, pos)[x][y].Real?
    ensures OwnsFootprint(Placed(g, e, c, pos), Pos(x, y))
  {
    var size := GridSize(Dummy(c));
    var r: Cells := Placed(g, e, c, pos);
    if x == pos.x && y == pos.y {
      FitsInBounds(g, pos, size);
      InBoundsSameDimensions(g, r, pos, size);
    } else {
      assert !InFootprint(x, y, pos, size);
      assert g[x][y] == r[x][y] && OwnsFootprint(g, Pos(x, y));
      var s := FootprintAt(g, Pos(x, y));
      InBoundsSameDimensions(g, r, Pos(x, y), s);
      forall i: nat, j: nat | InFootprint(i, j, Pos(x, y), s) && (i != x || j != y)
        ensures r[i][j] == Reference(Pos(x, y))
      {
        assert g[i][j] == Reference(Pos(x, y));
        if InFootprint(i, j, pos, size) {
          FitsCellEmpty(g, pos, size, i, j);
        }
      }
    }
  }

  /** After placing on a fitting footprint, each `Reference` cell still resolves. */
  lemma PlacedReferenceResolves(g: Cells, e: EntityId, c: Component, pos: Pos, x: nat, y: nat)
    requires WellFormed(g) && Fits(g, pos, GridSize(Dummy(c)))
    requires x < |g| && y < |g[x]| && Placed(g, e, c, pos)[x][y].Reference?
    ensures ReferenceResolves(Placed(g, e, c, pos), x, y)
  {
    var size := GridSize(Dummy(c));
    var r: Cells := Placed(g, e, c, pos);
    if !InFootprint(x, y, pos, size) {
      assert g[x][y] == r[x][y] && ReferenceResolves(g, x, y);
      var o := g[x][y].origin;
      if InFootprint(o.x, o.y, pos, size) {
        FitsCellEmpty(g, pos, size, o.x, o.y);
      }
      assert r[o.x][o.y] == g[o.x][o.y];
    }
  }

  /** Placing on a footprint that fits keeps the grid well formed. */
  lemma PlacedWellFormed(g: Cells, e: EntityId, c: Component, pos: Pos)
    requires WellFormed(g) && Fits(g, pos, GridSize(Dummy(c)))
    ensures WellFormed(Placed(g, e, c, pos))
  {
    var r: Cells := Placed(g, e, c, pos);
    forall x: nat, y: nat | x < |r| && y < |r[x]| && r[x][y].Real?
      ensures OwnsFootprint(r, Pos(x, y))
    {
      PlacedOwnsFootprint(g, e, c, pos, x, y);
    }
    forall x: nat, y: nat | x < |r| && y < |r[x]| && r[x][y].Reference?
      ensures ReferenceResolves(r, x, y)
    {
      PlacedReferenceResolves(g, e, c, pos, x, y);
    }
  }

  /** Removing a component whose origin is at `pos` keeps the grid well formed. */
  lemma {:induction false} ClearedWellFormed(g: Cells, pos: Pos)
    requires WellFormed(g) && pos.x < |g| && pos.y < |g[pos.x]| && g[pos.x][pos.y].Real?
    ensures WellFormed(Cleared(g, pos, FootprintAt(g, pos)))
  {
    var size := FootprintAt(g, pos);
    var r: Cells := Cleared(g, pos, size);
    assert OwnsFootprint(g, pos);
    forall x: nat, y: nat | x < |r| && y < |r[x]| && r[x][y].Real?
      ensures OwnsFootprint(r, Pos(x, y))
    {
      assert !InFootprint(x, y, pos, size);
      assert g[x][y] == r[x][y] && OwnsFootprint(g, Pos(x, y));
      var s := FootprintAt(g, Pos(x, y));
      assert FootprintAt(r, Pos(x, y)) == s;
      InBoundsSameDimensions(g, r, Pos(x, y), s);
      forall i: nat, j: nat | InFootprint(i, j, Pos(x, y), s) && (i != x || j != y)
        ensures r[i][j] == Reference(Pos(x, y))
      {
        assert g[i][j] == Reference(Pos(x, y));
        assert !InFootprint(i, j, pos, size);
      }
    }
    forall x: nat, y: nat | x < |r| && y < |r[x]| && r[x][y].Reference?
      ensures ReferenceResolves(r, x, y)
    {
      assert !InFootprint(x, y, pos, size);
      assert g[x][y] == r[x][y] && ReferenceResolves(g, x, y);
      var o := g[x][y].origin;
      assert !InFootprint(o.x, o.y, pos, size);
      assert r[o.x][o.y] == g[o.x][o.y];
    }
  }

  /** `ComponentGrid`: the 2-D grid of placed components. */
  class ComponentGrid {
    var grid: Cells

    /** A grid of `width` columns of `height` empty cells, as a level load builds it. */
    constructor Filled(width: nat, height: nat)
      ensures |grid| == width && forall x :: 0 <= x < width ==> |grid[x]| == height
      ensures forall x, y :: 0 <= x < |grid| && 0 <= y < |grid[x]| ==> grid[x][y] == Empty
    {
      grid := seq(width, _ => seq(height, _ => Empty));
    }

    /** `can_fit`: whether the footprint lies inside the grid on `Empty` cells only. */
    method CanFit(pos: Pos, size: Size) returns (b: bool)
      ensures b == Fits(grid, pos, size)
    {
      for x := pos.x to pos.x + size.w
        invariant x == pos.x || x <= |grid|
        invariant forall x' :: pos.x <= x' < x ==> ColumnFits(grid[x'], pos.y, size.h)
      {
        if x >= |grid| {
          return false;
        }
        var row := grid[x];
        for y := pos.y to pos.y + size.h
          invariant y == pos.y || y <= |row|
          invariant forall y' :: pos.y <= y' < y ==> row[y'].Empty?
        {
          if y >= |row| {
            assert !ColumnFits(row, pos.y, size.h);
            return false;
          }
          match row[y] {
            case Empty =>
            case Reference(_) =>
              assert !ColumnFits(row, pos.y, size.h);
              return false;
            case Real(_, _) =>
              assert !ColumnFits(row, pos.y, size.h);
              return false;
          }
        }
      }
      return true;
    }

    /**
     * `place_component`: the first footprint cell visited (the origin) becomes
     * `Real`, the others `Reference(pos)`. No overlap check is made; indexing
     * outside the grid would panic, so the footprint must be in bounds.
     */
    method PlaceComponent(e: EntityId, c: Component, pos: Pos)
      requires InBounds(grid, pos, GridSize(Dummy(c)))
      modifies this
      ensures grid == Placed(old(grid), e, c, pos)
    {
      var size := GridSize(Dummy(c));
      var first := true;
      for i := pos.x to pos.x + size.w
        invariant SameDimensions(grid, old(grid))
        invariant first <==> i == pos.x
        invariant forall x, y :: 0 <= x < |grid| && 0 <= y < |grid[x]| ==>
          grid[x][y] == PlacedCell(old(grid)[x][y], x, y, pos, pos.x <= x < i && pos.y <= y < pos.y + size.h, e, c)
      {
        assert pos.y + size.h <= |old(grid)[i]|;
        for j := pos.y to pos.y + size.h
          invariant SameDimensions(grid, old(grid))
          invariant first <==> i == pos.x && j == pos.y
          invariant forall x, y :: 0 <= x < |grid| && 0 <= y < |grid[x]| ==>
            grid[x][y] == PlacedCell(old(grid)[x][y], x, y, pos,
                                     (pos.x <= x < i && pos.y <= y < pos.y + size.h) || (x == i && pos.y <= y < j), e, c)
        {
          if first {
            first := false;
            grid := grid[i := grid[i][j := Real(e, c)]];
          } else {
            grid := grid[i := grid[i][j := Reference(pos)]];
          }
        }
      }
      CellsEqual(grid, Placed(old(grid), e, c, pos));
    }

    /** `remove_component`: every footprint cell of kind `d` at `pos` becomes `Empty`. */
    method RemoveComponent(d: DummyComponent, pos: Pos)
      requires InBounds(grid, pos, GridSize(d))
      modifies this
      ensures grid == Cleared(old(grid), pos, GridSize(d))
    {
      var size := GridSize(d);
      for i := pos.x to pos.x + size.w
        invariant SameDimensions(grid, old(grid))
        invariant forall x, y :: 0 <= x < |grid| && 0 <= y < |grid[x]| ==>
          grid[x][y] == if InFootprint(x, y, pos, Size(i - pos.x, size.h)) then Empty else old(grid)[x][y]
      {
        assert pos.y + size.h <= |old(grid)[i]|;
        for j := pos.y to pos.y + size.h
          invariant SameDimensions(grid, old(grid))
          invariant forall x, y :: 0 <= x < |grid| && 0 <= y < |grid[x]| ==>
            grid[x][y] == if InFootprint(x, y, pos, Size(i - pos.x, size.h)) || (x == i && pos.y <= y < j) then Empty
                          else old(grid)[x][y]
        {
          grid := grid[i := grid[i][j := Empty]];
        }
      }
      CellsEqual(grid, Cleared(old(grid), pos, GridSize(d)));
    }
  }

  // ---------------------------------------------------------------------------
  // The shape of a level

  /**
   * What `with_size` builds: a port grid one column wider than the component
   * grid, with columns of equal height, each one row taller than the component
   * column beside it.
   */
  predicate LevelShaped(g: Cells, pg: Columns) {
    |pg| == |g| + 1 &&
    (forall x :: 0 <= x < |pg| ==> |pg[x]| == |pg[0]|) &&
    (forall x :: 0 <= x < |g| ==> |pg[x]| == |g[x]| + 1)
  }

  /** Rewriting cells in place, on either grid, keeps the shape of the level. */
  lemma LevelShapeKept(g: Cells, pg: Columns, g': Cells, pg': Columns)
    requires LevelShaped(g, pg) && SameDimensions(g', g) && SameShape(pg', pg)
    ensures LevelShaped(g', pg')
  {
    forall x | 0 <= x < |pg'|
      ensures |pg'[x]| == |pg'[0]|
    {
      assert |pg'[x]| == |pg[x]| == |pg[0]|;
    }
  }

  /**
   * On a level of that shape, an observer or a provider whose footprint is in
   * bounds has its port inside the port grid: placing or removing it never
   * makes `modify_bulk` panic.
   */
  lemma OwnPortsInsertable(g: Cells, pg: Columns, d: DummyComponent, gatePorts: DummyComponent -> seq<PortDescriptor>, pos: Pos)
    requires LevelShaped(g, pg) && (d.Observer? || d.Provider?) && InBounds(g, pos, GridSize(d))
    ensures BulkInsertable(pg, Ports(d, gatePorts), pos)
  {
    var list := Ports(d, gatePorts);
    assert |list| == 1;
    var at := Shifted(list[0], pos);
    assert at == pos;
    assert pos.x < |g| && pos.y + 1 <= |g[pos.x]|;
    if d.Provider? {
      assert |pg[pos.x + 1]| == |pg[0]| == |pg[pos.x]|;
    }
    assert Insertable(pg, at, list[0].side);
  }

  /**
   * `SimulationData`: the component grid and the port grid over it. The port
   * tables of the gate kinds are a parameter (see `Placement.Ports`).
   */
  class SimulationData {
    const grid: ComponentGrid
    const portGrid: PortGrid
    const gatePorts: DummyComponent -> seq<PortDescriptor>

    /** The empty state of a level of `width` columns and `height` rows. */
    constructor WithSize(width: nat, height: nat, gatePorts: DummyComponent -> seq<PortDescriptor>)
      ensures |grid.grid| == width && forall x :: 0 <= x < width ==> |grid.grid[x]| == height
      ensures forall x, y :: 0 <= x < |grid.grid| && 0 <= y < |grid.grid[x]| ==> grid.grid[x][y] == Empty
      ensures WellFormed(grid.grid)
      ensures |portGrid.cells| == width + 1 && forall x :: 0 <= x <= width ==> |portGrid.cells[x]| == height + 1
      ensures forall s :: HasSlot(portGrid.cells, s) ==> ReadSlot(portGrid.cells, s) == None
      ensures this.gatePorts == gatePorts
      ensures LevelShaped(grid.grid, portGrid.cells)
    {
      grid := new ComponentGrid.Filled(width, height);
      portGrid := new PortGrid.NewWithSize(height, width);
      this.gatePorts := gatePorts;
      new;
      EmptyWellFormed(grid.grid);
    }

    /**
     * `place_new_component`: if kind `d` fits at `pos`, build a default component,
     * place it and declare its ports on the port grid; otherwise fail with
     * `CantFit` and change nothing. Declaring the ports panics on a port outside
     * the port grid, so a fitting placement must have every port inside it.
     */
    method PlaceNewComponent(d: DummyComponent, pos: Pos, e: EntityId) returns (r: Result<(), FitError>)
      requires Fits(grid.grid, pos, GridSize(d)) ==> BulkInsertable(portGrid.cells, Ports(d, gatePorts), pos)
      modifies grid, portGrid
      ensures r.Err? <==> !Fits(old(grid.grid), pos, GridSize(d))
      ensures r.Err? ==> r.error == CantFit && grid.grid == old(grid.grid) && portGrid.cells == old(portGrid.cells)
      ensures r.Ok? ==> exists c :: Dummy(c) == d && grid.grid == Placed(old(grid.grid), e, c, pos)
      ensures r.Ok? ==>
        portGrid.cells == BulkWritten(old(portGrid.cells), Some(Port(false)), Ports(d, gatePorts), pos)
      ensures r.Ok? && old(WellFormed(grid.grid)) ==> WellFormed(grid.grid)
      ensures old(LevelShaped(grid.grid, portGrid.cells)) ==> LevelShaped(grid.grid, portGrid.cells)
    {
      var fits := grid.CanFit(pos, GridSize(d));
      if !fits {
        return Err(CantFit);
      }
      var c := BuildDefault(d);
      FitsInBounds(grid.grid, pos, GridSize(d));
      if WellFormed(grid.grid) {
        PlacedWellFormed(grid.grid, e, c, pos);
      }
      ghost var g0, pg0 := grid.grid, portGrid.cells;
      grid.PlaceComponent(e, c, pos);
      portGrid.ModifyBulk(Some(Port(false)), Ports(d, gatePorts), pos);
      if LevelShaped(g0, pg0) {
        LevelShapeKept(g0, pg0, grid.grid, portGrid.cells);
      }
      return Ok(());
    }

    /**
     * `SimulationData::remove_component`: clear the footprint of kind `d` at `pos`
     * and withdraw its ports, without checking what is there; it always succeeds.
     */
    method RemoveComponent(d: DummyComponent, pos: Pos) returns (r: Result<(), FitError>)
      requires InBounds(grid.grid, pos, GridSize(d))
      requires BulkInsertable(portGrid.cells, Ports(d, gatePorts), pos)
      modifies grid, portGrid
      ensures r == Ok(())
      ensures grid.grid == Cleared(old(grid.grid), pos, GridSize(d))
      ensures portGrid.cells == BulkWritten(old(portGrid.cells), None, Ports(d, gatePorts), pos)
      ensures old(WellFormed(grid.grid) && grid.grid[pos.x][pos.y].Real? &&
                  Dummy(grid.grid[pos.x][pos.y].component) == d) ==>
        WellFormed(grid.grid)
      ensures old(LevelShaped(grid.grid, portGrid.cells)) ==> LevelShaped(grid.grid, portGrid.cells)
    {
      if pos.x < |grid.grid| && WellFormed(grid.grid) && grid.grid[pos.x][pos.y].Real?
        && Dummy(grid.grid[pos.x][pos.y].component) == d
      {
        ClearedWellFormed(grid.grid, pos);
      }
      ghost var g0, pg0 := grid.grid, portGrid.cells;
      grid.RemoveComponent(d, pos);
      portGrid.ModifyBulk(None, Ports(d, gatePorts), pos);
      if LevelShaped(g0, pg0) {
        LevelShapeKept(g0, pg0, grid.grid, portGrid.cells);
      }
      return Ok(());
    }
  }
}
