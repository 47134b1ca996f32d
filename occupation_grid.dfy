/**
 * The placement occupancy grid of the editor (src/components/occupation_grid.rs):
 * rows of cells that are `Free` or `Occupied`, indexed `cells[x][y]`.
 */
module OccupationGrids {
  import opened Helpers

  datatype CellInUse = Occupied | Free

  type Rows = seq<seq<CellInUse>>

  /** Cells [`y0`, `y1`) of a row all exist and are `Free` (nothing is inspected when `y1 <= y0`). */
  predicate RangeFree(row: seq<CellInUse>, y0: nat, y1: int) {
    (y1 <= y0 || y1 <= |row|) && forall y :: y0 <= y < y1 ==> row[y] == Free
  }

  /** Rows [`x0`, `x1`) all exist and are `Free` over [`y0`, `y1`). */
  predicate RectFree(cells: Rows, x0: nat, x1: int, y0: nat, y1: int) {
    (x1 <= x0 || x1 <= |cells|) && forall x :: x0 <= x < x1 ==> RangeFree(cells[x], y0, y1)
  }

  /** The rows after `fill`: every existing cell of the rectangle holds `state`, every other cell is kept. */
  function Filled(cells: Rows, pos: Pos, size: Size, state: CellInUse): (r: Rows)
    ensures |r| == |cells| && forall x :: 0 <= x < |r| ==> |r[x]| == |cells[x]|
  {
    seq(|cells|, x requires 0 <= x < |cells| =>
      seq(|cells[x]|, y requires 0 <= y < |cells[x]| => if InFootprint(x, y, pos, size) then state else cells[x][y]))
  }

  /** What `fill` leaves in each existing cell: `state` inside the rectangle, the old value outside. */
  lemma FilledContents(cells: Rows, pos: Pos, size: Size, state: CellInUse, x: nat, y: nat)
    requires x < |cells| && y < |cells[x]|
    ensures InFootprint(x, y, pos, size) ==> Filled(cells, pos, size, state)[x][y] == state
    ensures !InFootprint(x, y, pos, size) ==> Filled(cells, pos, size, state)[x][y] == cells[x][y]
  {
  }

  /** Rows of equal shape that agree on every cell are equal. */
  lemma RowsEqual(a: Rows, b: Rows)
    requires |a| == |b| && forall x :: 0 <= x < |a| ==> |a[x]| == |b[x]|
    requires forall x, y :: 0 <= x < |a| && 0 <= y < |a[x]| ==> a[x][y] == b[x][y]
    ensures a == b
  {
    forall x | 0 <= x < |a|
      ensures a[x] == b[x]
    {
      assert |a[x]| == |b[x]|;
    }
  }

  /** The rectangle of `pos` and `size` lies within the rows. */
  predicate InBounds(cells: Rows, pos: Pos, size: Size) {
    (size.w == 0 || pos.x + size.w <= |cells|) &&
    forall x :: pos.x <= x < pos.x + size.w ==> pos.y + size.h <= |cells[x]|
  }

  /** Filling an in-bounds rectangle with `Occupied` makes the intended check fail there. */
  lemma FilledOccupiedBlocks(cells: Rows, pos: Pos, size: Size)
    requires InBounds(cells, pos, size) && size.w >= 1 && size.h >= 1
    ensures !RectFree(Filled(cells, pos, size, Occupied), pos.x, pos.x + size.w, pos.y, pos.y + size.h)
  {
    var r := Filled(cells, pos, size, Occupied);
    assert pos.y + size.h <= |cells[pos.x]|;
    assert r[pos.x][pos.y] == Occupied;
    assert !RangeFree(r[pos.x], pos.y, pos.y + size.h);
  }

  /** Filling an in-bounds rectangle with `Free` makes the intended check succeed there. */
  lemma FilledFreeFits(cells: Rows, pos: Pos, size: Size)
    requires InBounds(cells, pos, size)
    ensures RectFree(Filled(cells, pos, size, Free), pos.x, pos.x + size.w, pos.y, pos.y + size.h)
  {
    var r := Filled(cells, pos, size, Free);
    forall x | pos.x <= x < pos.x + size.w
      ensures RangeFree(r[x], pos.y, pos.y + size.h)
    {
      assert |r[x]| == |cells[x]| && pos.y + size.h <= |cells[x]|;
    }
  }

  /**
   * `can_fit` as written inspects one row and one column short of the footprint,
   * so a single-cell footprint always fits, even on an occupied cell.
   */
  lemma AsWrittenAcceptsUnitFootprint(cells: Rows, pos: Pos)
    ensures RectFree(cells, pos.x, pos.x + 1 - 1, pos.y, pos.y + 1 - 1)
  {
  }

  /** The counterexample: one occupied cell, a 1x1 footprint on it. */
  lemma AsWrittenAcceptsOccupiedCell()
    ensures RectFree([[Occupied]], 0, 0 + 1 - 1, 0, 0 + 1 - 1)
    ensures !RectFree([[Occupied]], 0, 0 + 1, 0, 0 + 1)
  {
    var cells: Rows := [[Occupied]];
    assert cells[0][0] == Occupied;
    assert !RangeFree(cells[0], 0, 1);
  }

  /** `OccupationGrid`: the free/occupied rows of the editor's placement grid. */
  class OccupationGrid {
    var cells: Rows

    /** `empty_grid_from_size`: `rows` rows of `columns` free cells. */
    constructor EmptyGridFromSize(rows: nat, columns: nat)
      ensures |cells| == rows && forall x :: 0 <= x < rows ==> |cells[x]| == columns
      ensures forall x, y :: 0 <= x < |cells| && 0 <= y < |cells[x]| ==> cells[x][y] == Free
    {
      cells := seq(rows, _ => seq(columns, _ => Free));
    }

    /** `fill`: set every existing cell of the rectangle to `state`, skipping missing rows and cells. */
    method Fill(pos: Pos, size: Size, state: CellInUse)
      modifies this
      ensures cells == Filled(old(cells), pos, size, state)
    {
      for x := pos.x to pos.x + size.w
        invariant |cells| == |old(cells)| && forall x' :: 0 <= x' < |cells| ==> |cells[x']| == |old(cells)[x']|
        invariant forall x', y :: 0 <= x' < |cells| && 0 <= y < |cells[x']| ==>
          cells[x'][y] == if InFootprint(x', y, pos, Size(x - pos.x, size.h)) then state else old(cells)[x'][y]
      {
        if x >= |cells| {
          continue;
        }
        for y := pos.y to pos.y + size.h
          invariant |cells| == |old(cells)| && forall x' :: 0 <= x' < |cells| ==> |cells[x']| == |old(cells)[x']|
          invariant forall x', y' :: 0 <= x' < |cells| && 0 <= y' < |cells[x']| ==>
            cells[x'][y'] == if InFootprint(x', y', pos, Size(x - pos.x, size.h)) || (x' == x && pos.y <= y' < y) then state
                             else old(cells)[x'][y']
        {
          if y >= |cells[x]| {
            continue;
          }
          cells := cells[x := cells[x][y := state]];
        }
      }
      RowsEqual(cells, Filled(old(cells), pos, size, state));
    }

    /**
     * `can_fit` as written: it inspects rows [x, x + w - 1) and cells [y, y + h - 1).
     * The subtractions are on `usize`, so `x + w` must be at least 1, and `y + h`
     * too whenever the inner loop is reached.
     */
    method CanFit(pos: Pos, size: Size) returns (b: bool)
      requires pos.x + size.w >= 1
      requires size.w >= 2 && pos.x < |cells| ==> pos.y + size.h >= 1
      ensures b == RectFree(cells, pos.x, pos.x + size.w - 1, pos.y, pos.y + size.h - 1)
    {
      var x1 := pos.x + size.w - 1;
      var x := pos.x;
      while x < x1
        invariant pos.x <= x && (x == pos.x || x <= |cells|)
        invariant forall x' :: pos.x <= x' < x ==> RangeFree(cells[x'], pos.y, pos.y + size.h - 1)
      {
        if x >= |cells| {
          return false;
        }
        var row := cells[x];
        var y1 := pos.y + size.h - 1;
        var y := pos.y;
        while y < y1
          invariant pos.y <= y && (y == pos.y || y <= |row|)
          invariant forall y' :: pos.y <= y' < y ==> row[y'] == Free
        {
          if y >= |row| {
            return false;
          }
          if row[y] == Occupied {
            assert !RangeFree(row, pos.y, y1);
            return false;
          }
          y := y + 1;
        }
        x := x + 1;
      }
      return true;
    }

    /** `can_fit` as evidently intended: the whole footprint exists and is `Free`. */
    method CanFitIntended(pos: Pos, size: Size) returns (b: bool)
      ensures b == RectFree(cells, pos.x, pos.x + size.w, pos.y, pos.y + size.h)
    {
      for x := pos.x to pos.x + size.w
        invariant x == pos.x || x <= |cells|
        invariant forall x' :: pos.x <= x' < x ==> RangeFree(cells[x'], pos.y, pos.y + size.h)
      {
        if x >= |cells| {
          return false;
        }
        var row := cells[x];
        for y := pos.y to pos.y + size.h
          invariant y == pos.y || y <= |row|
          invariant forall y' :: pos.y <= y' < y ==> row[y'] == Free
        {
          if y >= |row| {
            return false;
          }
          if row[y] == Occupied {
            assert !RangeFree(row, pos.y, pos.y + size.h);
            return false;
          }
        }
      }
      return true;
    }
  }
}
