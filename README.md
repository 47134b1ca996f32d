# Grid data layer of the logic-circuit puzzle game, in Dafny

This project models the grid data layer of a Bevy-based puzzle game in which the player
places logic components (wires, gates, splitters, observers, providers) on a grid.
The model covers:

- **The component grid** (`src/sim/model.rs`).
  - It is a sequence of columns of cells, each `Empty`, `Reference(origin)` or `Real(entity, component)`.
  - A placed component fills a rectangle. Its origin cell is `Real`; every other footprint cell points back to the origin.
  - The model covers `can_fit`, placement and removal, and how `SimulationData` accepts or rejects a placement.
  - A port handle (`ComponentPortData`) is an optional index into a byte arena. An unbound handle reads 0 and ignores writes.
- **The port grid** (`src/sim/port_grid.rs`).
  - It is an edge-indexed overlay with one more column and one more row than the component grid.
  - Each of its cells stores a top edge and a left edge, and each edge has two port slots, one per side of the edge.
  - Insertion maps a (cell, side) pair to one slot. `get_port` reads the slot seen from the neighbouring cell; `get_mut_port_inside` reads the cell's own slot.
  - `modify_bulk` declares or withdraws a component's ports.
- **Side and offset helpers** (`src/sim/helpers.rs`): direction offsets, clockwise rotation, checked offset addition and the perimeter walk `get_adjacent`.
- **The component kind tables** (`src/components/placement.rs`): footprint, declared ports, names, sprites and default construction.
- **The two occupancy grids** (`src/components/occupation_grid.rs`, `src/components/grid.rs`).
- **The observer and provider components** (`src/sim/components/observer.rs`, `src/sim/components/provider.rs`): port binding and one simulation tick.

Organisation:

- There is one module per source file:
  - `Helpers`, `Signals` (port handles and event types of model.rs), `PortGrids`, `Placement`, `Model`;
  - `OccupationGrids`, `Grids`, `Observers`, `Providers`, `Run`;
  - plus `Wrappers` for `Option`/`Result`.
- Grid coordinates are `nat`. `combine_offset` models the `usize`/`isize` ranges explicitly.
- In-place code stays in place:
  - `PortGrid`, `ComponentGrid`, `SimulationData`, `OccupationGrid`, `Grid`, `Observer` and `Provider` are classes with `modifies` clauses.
  - Each method is proved against a specification function on the old state: `Placed`, `Cleared`, `BulkWritten`, `WriteSlot`, `Filled`.
  - Lemmas about those functions carry the properties.

## Model

| member | source | states |
|---|---|---|
| Helpers.AsOffset | src/sim/helpers.rs:16-23 | every side maps to a unit vector; the vector is vertical exactly for Up and Down |
| Helpers.Rotate | src/sim/helpers.rs:34-42 | rotation turns the side's offset (dx, dy) into (dy, -dx), i.e. 90 degrees clockwise |
| Helpers.RotateFourTimes | src/sim/helpers.rs:35-42 | four rotations give back the original side |
| Helpers.OppositeNegatesOffset | src/sim/helpers.rs:16-42 | two rotations give a different side whose offset is the negation of the original, and it is an involution |
| Helpers.StepUndone | src/sim/helpers.rs:16-42 | the offsets of a side and of the side two quarter turns from it cancel: stepping across an edge and back returns to the start |
| Helpers.CombineOffset | src/sim/helpers.rs:45-57 | the result is `Some(pos + offset)` iff both coordinates of the sum are `usize`, else `None` |
| Helpers.UnbiasAll | src/sim/helpers.rs:86 | the final filter_map never produces more positions than the walk |
| Helpers.GetAdjacent | src/sim/helpers.rs:62-90 | the loops produce exactly the filtered perimeter walk; at most 2(w+h) positions, exactly 2(w+h) when both coordinates of `pos` are at least 1; for a non-empty footprint a position is returned iff it lies outside the footprint and shares an edge with it (no corners); the grid's upper bound is never consulted |
| Helpers.UnbiasAllKeepsAll | src/sim/helpers.rs:86 | with both coordinates of `pos` at least 1 nothing is filtered out |
| Helpers.UnbiasAllMembers | src/sim/helpers.rs:86 | a position is in the filtered walk iff some walk step shifts to it |
| Helpers.PerimeterAt | src/sim/helpers.rs:63-84 | the walk has 2(w+h) steps: up the left column, along the top row, down the right column, back along the bottom row |
| Helpers.WalkStepIsEdgeAdjacent | src/sim/helpers.rs:62-86 | every step of the walk that survives the filter is edge-adjacent to the footprint |
| Helpers.EdgeAdjacentIsWalkStep | src/sim/helpers.rs:62-86 | every edge-adjacent position is reached by some surviving walk step |
| Helpers.AdjacentIsEdgeAdjacent | src/sim/helpers.rs:62-89 | membership in the filtered walk is the same as edge adjacency, for footprints of size at least 1x1 |
| Signals.PortData.Written | src/sim/model.rs:294-302 | a write changes the bound cell to the value and no other cell; for an unbound handle nothing changes |
| Signals.PortData.Set | src/sim/model.rs:295-302 | the arena after `set` is the written arena |
| Signals.PortData.SetLink | src/sim/model.rs:304-307 | `set_link` replaces the link with the given one |
| Signals.ReadAfterWrite | src/sim/model.rs:287-302 | after a write through a bound handle, a read returns the written value |
| Signals.UnboundIgnoresWrite | src/sim/model.rs:287-302 | a write through an unbound handle changes nothing and a read still gives 0 |
| Signals.SharedNode | src/sim/model.rs:283-302 | two handles on the same cell see each other's writes; handles on different cells are independent |
| PortGrids.Port.MarkChecked | src/sim/port_grid.rs:272-275 | the checked flag becomes the given value |
| PortGrids.Unchecked | src/sim/port_grid.rs:50-58 | a present port stays present and becomes unchecked; an absent one stays absent |
| PortGrids.TopEdge.ResetBuild | src/sim/port_grid.rs:50-58 | both slots keep their presence and every present port is unchecked |
| PortGrids.LeftEdge.ResetBuild | src/sim/port_grid.rs:69-77 | both slots keep their presence and every present port is unchecked |
| PortGrids.WithField | src/sim/port_grid.rs:16-40 | updating one slot of a cell sets that slot and keeps the other three |
| PortGrids.WriteSlot | src/sim/port_grid.rs:108-149 | writing a slot keeps the grid's shape and changes exactly that slot |
| PortGrids.GetIsSlotLookup | src/sim/port_grid.rs:234-243 | `get` at (x, y) is the lookup of the slots in column x, row y+1 of the port grid: it succeeds exactly when that slot exists and otherwise reports `PositionOutOfBounds` |
| PortGrids.GetSideExistance | src/sim/port_grid.rs:194-196 | succeeds iff `get_port` does, and is true iff the port is present |
| PortGrids.SideFlag | src/sim/port_grid.rs:183-190 | the flag of one side is true iff `get_port` on that side gives a present port |
| PortGrids.SideFlagsCoverEverySide | src/sim/port_grid.rs:183-190 | the side map has an entry for every side, equal to that side's flag |
| PortGrids.GetSides | src/sim/port_grid.rs:183-190 | every side is a key, and its value is true iff `get_port(pos, side)` is `Ok(Some(_))` |
| PortGrids.GetPortReadsOutsideSlot | src/sim/port_grid.rs:200-230 | `get_port` reads the neighbour-facing slot of the side (Up: own top edge from above, Down: lower top edge from below, Left: own left edge, Right: the right neighbour's left edge) and reports out of bounds when there is none |
| PortGrids.GetPortInsideReadsInsideSlot | src/sim/port_grid.rs:245-258 | `get_mut_port_inside` reads the cell's own slot of that edge |
| PortGrids.InsertSlotIsInsideSlot | src/sim/port_grid.rs:93-105 | the slot `insert` writes is the slot `get_mut_port_inside` reads |
| PortGrids.InsertSlotInjective | src/sim/port_grid.rs:93-149 | different (position, side) pairs are inserted into different slots |
| PortGrids.NeighbourSeesInside | src/sim/port_grid.rs:200-258 | the slot a neighbour sees through the opposite side is the cell's own slot on this side |
| PortGrids.NeighbourGetPort | src/sim/port_grid.rs:200-258 | `get_port` from the neighbour through the opposite side equals `get_mut_port_inside` here |
| PortGrids.InsertThenInside | src/sim/port_grid.rs:93-105 | round trip: after inserting `p` at (pos, side), `get_mut_port_inside(pos, side)` yields `p` |
| PortGrids.InsertThenNeighbour | src/sim/port_grid.rs:93-105 | after inserting `p` at (pos, side), the neighbour's `get_port` through the opposite side yields `p` |
| PortGrids.InsertUpRightVisible | src/sim/port_grid.rs:93-105 | a port inserted on Up at [x,y] is what `get_port([x,y+1], Down)` returns; one inserted on Right is what `get_port([x+1,y], Left)` returns |
| PortGrids.DownAtBottomOutOfBounds | src/sim/port_grid.rs:200-258 | Down at row 0 is rejected as out of bounds by `get_port` and `get_mut_port_inside`, because `checked_sub` fails |
| PortGrids.BulkWritten | src/sim/port_grid.rs:164-181 | declaring a port list keeps the grid's shape |
| PortGrids.BulkWrittenReads | src/sim/port_grid.rs:164-181 | after `modify_bulk`, a slot targeted by some declared port holds the new value and every other slot is unchanged |
| PortGrids.BulkDeclaredReadBack | src/sim/port_grid.rs:164-181 | after `modify_bulk`, every declared port reads back the new value from inside its cell |
| PortGrids.PortGrid.constructor | src/sim/port_grid.rs:85-87 | `new_with_size(h, w)` has w+1 columns of h+1 cells with all slots empty |
| PortGrids.PortGrid.InsertTop | src/sim/port_grid.rs:108-127 | out of bounds leaves the grid and fails; a Left or Right origin fails with `IncorrectOrigin`; Up or Down writes exactly that slot of the top edge |
| PortGrids.PortGrid.InsertLeft | src/sim/port_grid.rs:130-149 | out of bounds leaves the grid and fails; an Up or Down origin fails with `IncorrectOrigin`; Left or Right writes exactly that slot of the left edge |
| PortGrids.PortGrid.Insert | src/sim/port_grid.rs:93-105 | succeeds iff the target slot exists, and then changes exactly that one slot; otherwise it fails out of bounds and changes nothing |
| PortGrids.PortGrid.ModifyBulk | src/sim/port_grid.rs:164-181 | the grid after the loop is the bulk-written grid |
| PortGrids.PortGrid.SetPort | src/sim/port_grid.rs:200-213 | writing through `get_mut_port` succeeds iff `get_port` does, and changes exactly the neighbour-facing slot |
| PortGrids.PortGrid.SetPortInside | src/sim/port_grid.rs:245-258 | writing through `get_mut_port_inside` succeeds iff the read does, and changes exactly the cell's own slot |
| Observers.Observer.constructor | src/sim/components/observer.rs:14-20 | a default observer has an empty id and an unbound input |
| Observers.Observer.SetPort | src/sim/components/observer.rs:53-61 | succeeds iff the descriptor is ([0,0], Left), and then binds the input to the given cell; otherwise nothing changes |
| Observers.Observer.Build | src/sim/components/observer.rs:38 | changes nothing |
| Observers.Observer.Tick | src/sim/components/observer.rs:23-35 | appends exactly one row with this tick and id; the value is absent iff the input reads 0 and is the input otherwise; an unbound input records absent; no events |
| Providers.Provider.constructor | src/sim/components/provider.rs:14-20 | a default provider has an empty id and an unbound output |
| Providers.Provider.SetPort | src/sim/components/provider.rs:50-58 | succeeds iff the descriptor is ([0,0], Right), and then binds the output to the given cell; otherwise nothing changes |
| Providers.Provider.Build | src/sim/components/provider.rs:35 | changes nothing |
| Providers.Provider.Tick | src/sim/components/provider.rs:23-32 | when the id's sequence has an element at this tick, writes it through the output (a bound output then reads it); past the end the arena is unchanged; no events |
| Placement.BuildDefault | src/components/placement.rs:33-59 | the built component's kind is the requested one; an observer or provider is fresh with empty id and unbound ports |
| Placement.GridSize | src/components/placement.rs:98-109 | every footprint is at least 1x1, at most 2x2, and never wider than tall |
| Placement.GridSizeByKind | src/components/placement.rs:98-109 | only the AND gate is two wide; only the AND gate, splitter and counter are two tall |
| Placement.Ports | src/components/placement.rs:111-122 | an observer declares ([0,0], Left), a provider ([0,0], Right), other kinds their own table |
| Placement.PortsOnBoundary | src/components/placement.rs:98-122 | observer and provider ports lie in their footprint and face out of it |
| Placement.Name | src/components/placement.rs:124-136 | every kind has a non-empty name |
| Placement.NameInjective | src/components/placement.rs:124-136 | two kinds have the same name iff they are the same kind |
| Placement.SpriteName | src/components/placement.rs:71-83 | every kind has a non-empty sprite name |
| Placement.SpriteNameShared | src/components/placement.rs:71-83 | sprite names are distinct per kind except that the counter reuses the splitter's `signal_copy` |
| Model.Placed | src/sim/model.rs:167-181 | placement keeps the grid's dimensions |
| Model.Cleared | src/sim/model.rs:183-190 | removal keeps the grid's dimensions |
| Model.PlacedContents | src/sim/model.rs:167-181 | after placement the origin cell is `Real(entity, component)`, every other footprint cell is `Reference(pos)` and every cell outside the footprint is unchanged |
| Model.ClearedContents | src/sim/model.rs:183-190 | after removal every footprint cell is `Empty` and every other cell is unchanged |
| Model.FitsInBounds | src/sim/model.rs:142-164 | a footprint that fits lies within the grid |
| Model.BlockedCellPreventsFit | src/sim/model.rs:142-164 | a missing column, or a missing, `Reference` or `Real` cell in the footprint, makes `can_fit` false |
| Model.PlacedBlocksOverlap | src/sim/model.rs:142-181 | after placement no footprint covering the new origin fits |
| Model.ClearPlacedRoundTrip | src/sim/model.rs:167-190 | removing a component placed on a fitting footprint gives back the original grid |
| Model.ClearedFits | src/sim/model.rs:142-190 | after removal the same in-bounds footprint fits again |
| Model.EmptyWellFormed | src/sim/model.rs:203-213 | an all-empty grid satisfies the grid invariant |
| Model.FitsCellEmpty | src/sim/model.rs:142-164 | if a footprint fits, each of its cells exists and is `Empty` |
| Model.PlacedOwnsFootprint | src/sim/model.rs:167-181 | after placing on a fitting footprint, every `Real` cell still owns its footprint |
| Model.PlacedReferenceResolves | src/sim/model.rs:167-181 | after placing on a fitting footprint, every `Reference` still points at a `Real` cell covering it |
| Model.PlacedWellFormed | src/sim/model.rs:167-181 | placement on a fitting footprint preserves the grid invariant |
| Model.ClearedWellFormed | src/sim/model.rs:183-190 | removing the component at its origin preserves the grid invariant |
| Model.ComponentGrid.constructor | src/sim/levels.rs:77 | a level's grid has `width` columns of `height` empty cells |
| Model.ComponentGrid.CanFit | src/sim/model.rs:142-164 | true iff every footprint column exists and every footprint cell exists and is `Empty`; changes nothing |
| Model.ComponentGrid.PlaceComponent | src/sim/model.rs:167-181 | the nested loop with its `first` flag leaves exactly the placed grid (see `Model.PlacedContents`) |
| Model.ComponentGrid.RemoveComponent | src/sim/model.rs:183-190 | the nested loop leaves exactly the cleared grid (see `Model.ClearedContents`) |
| Model.SimulationData.constructor | src/sim/levels.rs:76-79 | a level starts with an empty, well-formed component grid and an empty port grid one larger in each direction (`Model.LevelShaped`) |
| Model.LevelShapeKept | src/sim/model.rs:38-68 | rewriting cells of either grid in place keeps the port grid one column wider and one row taller than the component grid |
| Model.OwnPortsInsertable | src/sim/model.rs:55-57 | on a level of that shape, an observer or provider whose footprint is in bounds has its port inside the port grid, so `modify_bulk` cannot panic when placing or removing it |
| Model.SimulationData.PlaceNewComponent | src/sim/model.rs:38-68 | fails with `CantFit` iff `can_fit` is false, and then writes neither grid; otherwise places some component of the kind and declares its ports as unchecked ports; preserves the grid invariant and the shape of the level |
| Model.SimulationData.RemoveComponent | src/sim/model.rs:96-105 | always succeeds, clears the footprint and withdraws the kind's ports; preserves the grid invariant when removing the component actually there, and the shape of the level |
| OccupationGrids.Filled | src/components/occupation_grid.rs:9-26 | filling keeps the rows' shape |
| OccupationGrids.FilledContents | src/components/occupation_grid.rs:9-26 | after `fill` every existing rectangle cell holds `state` and every cell outside the rectangle is unchanged |
| OccupationGrids.FilledOccupiedBlocks | src/components/occupation_grid.rs:9-50 | after filling an in-bounds rectangle with `Occupied`, the intended check fails there |
| OccupationGrids.FilledFreeFits | src/components/occupation_grid.rs:9-50 | after filling an in-bounds rectangle with `Free`, the intended check succeeds there |
| OccupationGrids.AsWrittenAcceptsUnitFootprint | src/components/occupation_grid.rs:31-38 | as written, a 1x1 footprint is accepted at any position of any grid |
| OccupationGrids.AsWrittenAcceptsOccupiedCell | src/components/occupation_grid.rs:28-50 | on the grid [[Occupied]] the 1x1 footprint at [0,0] is accepted as written but rejected as intended |
| OccupationGrids.OccupationGrid.constructor | src/components/occupation_grid.rs:52-54 | `s[0]` rows of `s[1]` free cells |
| OccupationGrids.OccupationGrid.Fill | src/components/occupation_grid.rs:9-26 | the nested loop, skipping missing rows and cells, leaves exactly the filled rows (see `OccupationGrids.FilledContents`) |
| OccupationGrids.OccupationGrid.CanFit | src/components/occupation_grid.rs:28-50 | as written: true iff rows [x, x+w-1) exist and their cells [y, y+h-1) exist and are `Free` |
| OccupationGrids.OccupationGrid.CanFitIntended | src/components/occupation_grid.rs:28-50 | corrected: true iff the whole footprint exists and is `Free` |
| Grids.Grid.constructor | src/components/grid.rs:8 | the array has the declared 7x7 dimensions and starts all `Free` |
| Grids.Grid.BlockedFootprint | src/components/grid.rs:32-52 | an out-of-range footprint index or an `Occupied` footprint cell makes `can_fit` false |
| Grids.Grid.Fill | src/components/grid.rs:13-30 | in-array footprint cells become `state`, out-of-range indices are skipped, other cells are unchanged; afterwards an in-bounds non-empty `Occupied` fill does not fit and a `Free` fill does |
| Grids.Grid.CanFit | src/components/grid.rs:32-52 | true iff the footprint lies in the array and no footprint cell is `Occupied` |

## Left out

- Engine glue is not modelled, because it consists of engine calls:
  - sprites, texture atlases and entity spawning;
  - `on_place` and `update_component` (with its `unsafe` swap);
  - the refresh of adjacent components after a placement;
  - `load_component`.
- `clear_grid` rebinds a loop-local reference and so changes nothing; it is left out as an engine system.
- The `CONST_PORTS` tables of the wire and the five gate kinds are not defined in the modelled sources, so `Placement.Ports` takes those tables as a parameter. The wire's `tick` returns no events (src/sim/components/wire.rs:11-13), its `build` and `on_place` are `todo!()`, and so are the gates' `tick` and `build`; the model gives these kinds no behaviour.
- The connectivity walk that binds ports and the tick scheduler are not part of this model.
- `Run` declares only the `SimState`/`RunType` types, as the source does.
- The atomics of `Arc<AtomicU8>` are not modelled. A handle is an index into a byte arena, so two handles alias exactly when their indices are equal.
- Persistence, level files, UI, sprite picking and the floating-point fields of events (position, volume) are left out.
- `Observers.Observer.Tick`: the output rows are returned as a log. `add_output` and the scoring store are not part of this model.
- `Providers.Provider.Tick`: requires the provider's id to be a key of the level's inputs, because the source unwraps that lookup.
- `PortGrids.PortGrid.Insert`: requires y at least 1 for a Down insert, because the source's `position[1] - 1` underflows there.
- `PortGrids.PortGrid.ModifyBulk`: requires every declared port's slot to exist, because the source panics otherwise (`expect`).
- `Model.SimulationData.PlaceNewComponent`: requires every declared port to be inside the port grid when the footprint fits, because `modify_bulk` would panic otherwise (`Model.OwnPortsInsertable` shows this holds for observers and providers on a level built by `with_size`). It does not say which component object is built; it only says it exists and has the requested kind.
- `Model.SimulationData.RemoveComponent`: requires the footprint to be in bounds and every declared port's slot to exist, because indexing outside the grid and `modify_bulk`'s `expect` panic otherwise.
- `Model.ComponentGrid.PlaceComponent`: requires the footprint to be in bounds, because indexing outside the grid panics. The same holds for `RemoveComponent`.
- `OccupationGrids.OccupationGrid.CanFit`: the `dbg!` output of the position and size (src/components/occupation_grid.rs:29-30) is not modelled, being debug I/O.
- `OccupationGrids.OccupationGrid.CanFit`: requires `x + w >= 1`, and `y + h >= 1` whenever the inner loop is reached, because the `usize` subtractions would underflow.
- Coordinates are unbounded. The `usize` overflow of `pos + 1`, the `u32` overflow of `position + size` in `Grids.Grid`, and the copy of the component into the grid (the model stores a reference) are not modelled.
- Events carry only their type or path. The model's parameters `ownPos` are unused, as in the source.

## Findings

| source | as written | input that shows it | evidently intended | confidence | as-written member | corrected member |
|---|---|---|---|---|---|---|
| src/components/occupation_grid.rs:31-38 | `can_fit` ranges over `x..x+w-1` and `y..y+h-1`, one row and one column short of the footprint | grid `[[Occupied]]`, position `[0,0]`, size `[1,1]`: returns true | check every cell of `x..x+w` by `y..y+h` | high, by proof (not executed) | OccupationGrids.AsWrittenAcceptsOccupiedCell | OccupationGrids.OccupationGrid.CanFitIntended |
