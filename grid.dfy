/**
 * The fixed-size occupancy grid of the early placement code (src/components/grid.rs):
 * a `GRID_CELL_AMOUNT_HEIGHT` by `GRID_CELL_AMOUNT_WIDTH` array of cells, indexed
 * `occupiedCells[x, y]`.
 */
module Grids {
  import opened Helpers

  /** `GRID_CELL_AMOUNT_WIDTH` and `GRID_CELL_AMOUNT_HEIGHT` (src/game.rs). */
  const GRID_CELL_AMOUNT_WIDTH: nat := 7
  const GRID_CELL_AMOUNT_HEIGHT: nat := 7

  datatype CellInUse = Occupied | Free

  class Grid {
    const occupiedCells: array2<CellInUse>

    /** `Grid::default()`: an array of the declared dimensions with every cell `Free`. */
    constructor Default()
      ensures occupiedCells.Length0 == GRID_CELL_AMOUNT_HEIGHT && occupiedCells.Length1 == GRID_CELL_AMOUNT_WIDTH
      ensures fresh(occupiedCells)
      ensures forall i, j :: 0 <= i < occupiedCells.Length0 && 0 <= j < occupiedCells.Length1 ==>
        occupiedCells[i, j] == Free
    {
      occupiedCells := new CellInUse[GRID_CELL_AMOUNT_HEIGHT, GRID_CELL_AMOUNT_WIDTH]((_, _) => Free);
    }

    /** `can_fit` as a predicate: the footprint lies in the array and none of its cells is `Occupied`. */
    predicate Fits(pos: Pos, size: Size)
      reads this, occupiedCells
    {
      (size.w == 0 || (pos.x + size.w <= occupiedCells.Length0 &&
                       (size.h == 0 || pos.y + size.h <= occupiedCells.Length1))) &&
      forall i, j :: pos.x <= i < pos.x + size.w && pos.y <= j < pos.y + size.h ==> occupiedCells[i, j] == Free
    }

    /** An `Occupied` footprint cell, or a footprint index past the array, rules the footprint out. */
    lemma BlockedFootprint(pos: Pos, size: Size, i: int, j: int)
      requires InFootprint(i, j, pos, size)
      requires i >= occupiedCells.Length0 || j >= occupiedCells.Length1 || occupiedCells[i, j] == Occupied
      ensures !Fits(pos, size)
    {
    }

    /**
     * `fill`: set every in-array cell of the footprint to `state`; indices past
     * the array are skipped and no other cell changes.
     */
    method Fill(pos: Pos, size: Size, state: CellInUse)
      modifies occupiedCells
      ensures forall i, j :: 0 <= i < occupiedCells.Length0 && 0 <= j < occupiedCells.Length1 ==>
        occupiedCells[i, j] == if InFootprint(i, j, pos, size) then state else old(occupiedCells[i, j])
      ensures state == Occupied && size.w >= 1 && size.h >= 1 &&
              pos.x + size.w <= occupiedCells.Length0 && pos.y + size.h <= occupiedCells.Length1 ==>
        !Fits(pos, size)
      ensures state == Free && pos.x + size.w <= occupiedCells.Length0 && pos.y + size.h <= occupiedCells.Length1 ==>
        Fits(pos, size)
    {
      for i := pos.x to pos.x + size.w
        invariant forall i', j :: 0 <= i' < occupiedCells.Length0 && 0 <= j < occupiedCells.Length1 ==>
          occupiedCells[i', j] == if InFootprint(i', j, pos, Size(i - pos.x, size.h)) then state else old(occupiedCells[i', j])
      {
        if i >= occupiedCells.Length0 {
          continue;
        }
        for j := pos.y to pos.y + size.h
          invariant forall i', j' :: 0 <= i' < occupiedCells.Length0 && 0 <= j' < occupiedCells.Length1 ==>
            occupiedCells[i', j'] ==
              if InFootprint(i', j', pos, Size(i - pos.x, size.h)) || (i' == i && pos.y <= j' < j) then state
              else old(occupiedCells[i', j'])
        {
          if j >= occupiedCells.Length1 {
            continue;
          }
          occupiedCells[i, j] := state;
        }
      }
      if state == Occupied && size.w >= 1 && size.h >= 1 &&
         pos.x + size.w <= occupiedCells.Length0 && pos.y + size.h <= occupiedCells.Length1
      {
        BlockedFootprint(pos, size, pos.x, pos.y);
      }
    }

    /** `can_fit`: whether the footprint lies in the array on `Free` cells only. */
    method CanFit(pos: Pos, size: Size) returns (b: bool)
      ensures b == Fits(pos, size)
    {
      for i := pos.x to pos.x + size.w
        invariant i == pos.x || i <= occupiedCells.Length0
        invariant i == pos.x || size.h == 0 || pos.y + size.h <= occupiedCells.Length1
        invariant forall i', j :: pos.x <= i' < i && pos.y <= j < pos.y + size.h ==> occupiedCells[i', j] == Free
      {
        if i >= occupiedCells.Length0 {
          return false;
        }
        for j := pos.y to pos.y + size.h
          invariant j == pos.y || j <= occupiedCells.Length1
          invariant forall i', j' :: ((pos.x <= i' < i && pos.y <= j' < pos.y + size.h) || (i' == i && pos.y <= j' < j)) ==>
            occupiedCells[i', j'] == Free
        {
          if j >= occupiedCells.Length1 {
            return false;
          }
          if occupiedCells[i, j] == Occupied {
            BlockedFootprint(pos, size, i, j);
            return false;
          }
        }
      }
      return true;
    }
  }
}
