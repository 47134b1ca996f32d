/**
 * The port overlay of the component grid (src/sim/port_grid.rs).
 *
 * For a component grid of `width` columns and `height` rows the overlay has
 * `width + 1` columns of `height + 1` cells. Each cell stores the edge above it
 * and the edge to its left; each edge has one slot per side, so two components
 * facing each other across the edge declare their ports independently.
 * Component-grid position (x, y) addresses column x, row y + 1 of the overlay.
 */
module PortGrids {
  import opened Wrappers
  import opened Helpers

  /** A declared port; `checked` is the mark the connectivity walk sets on a visited port. */
  datatype Port = Port(checked: bool) {
    /** `mark_checked`, on the owned value. */
    function MarkChecked(checked': bool): (r: Port)
      ensures r.checked == checked'
    {
      this.(checked := checked')
    }
  }

  /** A slot with its mark cleared, or still empty. */
  function Unchecked(slot: Option<Port>): (r: Option<Port>)
    ensures r.Some? == slot.Some?
    ensures r.Some? ==> !r.value.checked
  {
    match slot
    case None => None
    case Some(p) => Some(p.MarkChecked(false))
  }

  /** The edge above a cell: the port declared by the cell above (`originUp`) and by the cell below (`originDown`). */
  datatype TopEdge = TopEdge(originUp: Option<Port>, originDown: Option<Port>) {
    /** `reset_build`: every present port unmarked, every empty slot left empty. */
    function ResetBuild(): (r: TopEdge)
      ensures r.originUp.Some? == originUp.Some? && r.originDown.Some? == originDown.Some?
      ensures r.originUp.Some? ==> !r.originUp.value.checked
      ensures r.originDown.Some? ==> !r.originDown.value.checked
    {
      TopEdge(Unchecked(originUp), Unchecked(originDown))
    }
  }

  /** The edge left of a cell: the port declared by the cell on its left and by the cell on its right. */
  datatype LeftEdge = LeftEdge(originLeft: Option<Port>, originRight: Option<Port>) {
    /** `reset_build`: every present port unmarked, every empty slot left empty. */
    function ResetBuild(): (r: LeftEdge)
      ensures r.originLeft.Some? == originLeft.Some? && r.originRight.Some? == originRight.Some?
      ensures r.originLeft.Some? ==> !r.originLeft.value.checked
      ensures r.originRight.Some? ==> !r.originRight.value.checked
    {
      LeftEdge(Unchecked(originLeft), Unchecked(originRight))
    }
  }

  datatype PortGridData = PortGridData(left: LeftEdge, top: TopEdge)

  /** `PortGridData::new`: all four slots empty. */
  const NewData: PortGridData := PortGridData(LeftEdge(None, None), TopEdge(None, None))

  datatype PortGridError = PositionOutOfBounds | IncorrectOrigin

  /** The overlay's storage, indexed column first. */
  type Columns = seq<seq<PortGridData>>

  // ---------------------------------------------------------------------------
  // Slots: the reference addressing the lemmas below are stated against.

  /** Which of a cell's four slots. */
  datatype Origin = OriginUp | OriginDown | OriginLeft | OriginRight

  datatype Slot = Slot(column: nat, row: nat, origin: Origin)

  function Field(d: PortGridData, o: Origin): Option<Port> {
    match o
    case OriginUp => d.top.originUp
    case OriginDown => d.top.originDown
    case OriginLeft => d.left.originLeft
    case OriginRight => d.left.originRight
  }

  function WithField(d: PortGridData, o: Origin, v: Option<Port>): (r: PortGridData)
    ensures Field(r, o) == v
    ensures forall o' :: o' != o ==> Field(r, o') == Field(d, o')
  {
    match o
    case OriginUp => d.(top := d.top.(originUp := v))
    case OriginDown => d.(top := d.top.(originDown := v))
    case OriginLeft => d.(left := d.left.(originLeft := v))
    case OriginRight => d.(left := d.left.(originRight := v))
  }

  predicate HasSlot(g: Columns, s: Slot) {
    s.column < |g| && s.row < |g[s.column]|
  }

  function ReadSlot(g: Columns, s: Slot): Option<Port>
    requires HasSlot(g, s)
  {
    Field(g[s.column][s.row], s.origin)
  }

  predicate SameShape(g: Columns, h: Columns) {
    |g| == |h| && forall i :: 0 <= i < |g| ==> |g[i]| == |h[i]|
  }

  /** The overlay with one slot overwritten: every other slot keeps its value. */
  function WriteSlot(g: Columns, s: Slot, v: Option<Port>): (r: Columns)
    requires HasSlot(g, s)
    ensures SameShape(r, g)
    ensures forall t :: HasSlot(g, t) ==> ReadSlot(r, t) == if t == s then v else ReadSlot(g, t)
  {
    g[s.column := g[s.column][s.row := WithField(g[s.column][s.row], s.origin, v)]]
  }

  /** A slot seen as a lookup result, out of bounds when it is missing. */
  function Lookup(g: Columns, s: Option<Slot>): Result<Option<Port>, PortGridError> {
    match s
    case None => Err(PositionOutOfBounds)
    case Some(t) => if HasSlot(g, t) then Ok(ReadSlot(g, t)) else Err(PositionOutOfBounds)
  }

  /** The slot a neighbour's port facing `pos` occupies (what `get_port` reads). */
  function OutsideSlot(pos: Pos, side: Side): Option<Slot> {
    match side
    case Up => Some(Slot(pos.x, pos.y + 1, OriginUp))
    case Down => if pos.y == 0 then None else Some(Slot(pos.x, pos.y, OriginDown))
    case Left => Some(Slot(pos.x, pos.y + 1, OriginLeft))
    case Right => Some(Slot(pos.x + 1, pos.y + 1, OriginRight))
  }

  /** The slot `pos`'s own port on `side` occupies (what `get_mut_port_inside` reads). */
  function InsideSlot(pos: Pos, side: Side): Option<Slot> {
    match side
    case Up => Some(Slot(pos.x, pos.y + 1, OriginDown))
    case Down => if pos.y == 0 then None else Some(Slot(pos.x, pos.y, OriginUp))
    case Left => Some(Slot(pos.x, pos.y + 1, OriginRight))
    case Right => Some(Slot(pos.x + 1, pos.y + 1, OriginLeft))
  }

  /** `insert` at (x, 0) on Down computes `0 - 1` on a `usize`, which is excluded. */
  predicate InsertDefined(pos: Pos, side: Side) {
    side == Down ==> pos.y >= 1
  }

  /** The slot `insert` writes, following its call into `insert_top` / `insert_left`. */
  function InsertSlot(pos: Pos, side: Side): Slot
    requires InsertDefined(pos, side)
  {
    match side
    case Up => Slot(pos.x, pos.y + 1, OriginDown)
    case Down => Slot(pos.x, pos.y - 1 + 1, OriginUp)
    case Left => Slot(pos.x, pos.y + 1, OriginRight)
    case Right => Slot(pos.x + 1, pos.y + 1, OriginLeft)
  }

  predicate Insertable(g: Columns, pos: Pos, side: Side) {
    InsertDefined(pos, side) && HasSlot(g, InsertSlot(pos, side))
  }

  // ---------------------------------------------------------------------------
  // Lookups

  /** `get` (and the cell `get_mut` hands out): column x, row y + 1. */
  function Get(g: Columns, pos: Pos): Result<PortGridData, PortGridError> {
    if pos.x >= |g| then Err(PositionOutOfBounds)
    else if pos.y + 1 >= |g[pos.x]| then Err(PositionOutOfBounds)
    else Ok(g[pos.x][pos.y + 1])
  }

  function FieldOf(c: Result<PortGridData, PortGridError>, o: Origin): Result<Option<Port>, PortGridError> {
    match c
    case Err(e) => Err(e)
    case Ok(d) => Ok(Field(d, o))
  }

  /** `get` addresses the slots of column x, row y + 1: any field of its cell is that slot's lookup. */
  lemma GetIsSlotLookup(g: Columns, pos: Pos, o: Origin)
    ensures FieldOf(Get(g, pos), o) == Lookup(g, Some(Slot(pos.x, pos.y + 1, o)))
    ensures Get(g, pos).Ok? <==> HasSlot(g, Slot(pos.x, pos.y + 1, o))
  {
  }

  /** `get_port` (also the slot `get_mut_port` hands out): the neighbour's port facing `pos`. */
  function GetPort(g: Columns, pos: Pos, side: Side): Result<Option<Port>, PortGridError> {
    match side
    case Up => FieldOf(Get(g, pos), OriginUp)
    case Down =>
      if pos.y == 0 then Err(PositionOutOfBounds)
      else FieldOf(Get(g, Pos(pos.x, pos.y - 1)), OriginDown)
    case Left => FieldOf(Get(g, pos), OriginLeft)
    case Right => FieldOf(Get(g, Pos(pos.x + 1, pos.y)), OriginRight)
  }

  /** `get_mut_port_inside`'s lookup: the port `pos` itself declares on `side`. */
  function GetPortInside(g: Columns, pos: Pos, side: Side): Result<Option<Port>, PortGridError> {
    match side
    case Up => FieldOf(Get(g, pos), OriginDown)
    case Down =>
      if pos.y == 0 then Err(PositionOutOfBounds)
      else FieldOf(Get(g, Pos(pos.x, pos.y - 1)), OriginUp)
    case Left => FieldOf(Get(g, pos), OriginRight)
    case Right => FieldOf(Get(g, Pos(pos.x + 1, pos.y)), OriginLeft)
  }

  /** `get_side_existance`: whether a neighbour declares a port facing `pos` on `side`. */
  function GetSideExistance(g: Columns, pos: Pos, side: Side): (r: Result<bool, PortGridError>)
    ensures r.Ok? <==> GetPort(g, pos, side).Ok?
    ensures r.Ok? ==> (r.value <==> GetPort(g, pos, side).value.Some?)
  {
    match GetPort(g, pos, side)
    case Err(e) => Err(e)
    case Ok(p) => Ok(p.Some?)
  }

  /** One entry of `get_sides`: `get_side_existance`, with a lookup error read as false. */
  function SideFlag(g: Columns, pos: Pos, side: Side): (b: bool)
    ensures b <==> GetPort(g, pos, side).Ok? && GetPort(g, pos, side).value.Some?
  {
    GetSideExistance(g, pos, side).GetOr(false)
  }

  function SideFlags(g: Columns, pos: Pos): map<Side, bool> {
    map[Up := SideFlag(g, pos, Up), Down := SideFlag(g, pos, Down),
        Left := SideFlag(g, pos, Left), Right := SideFlag(g, pos, Right)]
  }

  lemma SideFlagsCoverEverySide(g: Columns, pos: Pos)
    ensures forall s: Side :: s in SideFlags(g, pos) && SideFlags(g, pos)[s] == SideFlag(g, pos, s)
  {
    forall s: Side ensures s in SideFlags(g, pos) && SideFlags(g, pos)[s] == SideFlag(g, pos, s) {
      match s
      case Up => case Down => case Left => case Right =>
    }
  }

  /** `get_sides`: per side, whether a neighbour's port faces `pos` there. */
  function GetSides(g: Columns, pos: Pos): (r: map<Side, bool>)
    ensures forall s: Side :: s in r && (r[s] <==> GetPort(g, pos, s).Ok? && GetPort(g, pos, s).value.Some?)
  {
    SideFlagsCoverEverySide(g, pos);
    SideFlags(g, pos)
  }

  // ---------------------------------------------------------------------------
  // Lemmas about the addressing

  lemma GetPortReadsOutsideSlot(g: Columns, pos: Pos, side: Side)
    ensures GetPort(g, pos, side) == Lookup(g, OutsideSlot(pos, side))
  {
  }

  lemma GetPortInsideReadsInsideSlot(g: Columns, pos: Pos, side: Side)
    ensures GetPortInside(g, pos, side) == Lookup(g, InsideSlot(pos, side))
  {
  }

  /** `insert` writes exactly the slot `get_mut_port_inside` reads; only Down at row 0 differs. */
  lemma InsertSlotIsInsideSlot(pos: Pos, side: Side)
    requires InsertDefined(pos, side)
    ensures InsideSlot(pos, side) == Some(InsertSlot(pos, side))
  {
  }

  /** Different (position, side) pairs never share a slot: each edge has one slot per origin. */
  lemma InsertSlotInjective(p1: Pos, s1: Side, p2: Pos, s2: Side)
    requires InsertDefined(p1, s1) && InsertDefined(p2, s2)
    requires InsertSlot(p1, s1) == InsertSlot(p2, s2)
    ensures p1 == p2 && s1 == s2
  {
  }

  /**
   * Neighbour visibility: the port `pos` declares on `side` is what the cell next to it
   * on that side finds when it looks back across the shared edge.
   */
  lemma NeighbourSeesInside(pos: Pos, side: Side, n: Pos)
    requires Step(pos, side) == Some(n)
    ensures OutsideSlot(n, Opposite(side)) == InsideSlot(pos, side)
  {
  }

  lemma NeighbourGetPort(g: Columns, pos: Pos, side: Side, n: Pos)
    requires Step(pos, side) == Some(n)
    ensures GetPort(g, n, Opposite(side)) == GetPortInside(g, pos, side)
  {
    NeighbourSeesInside(pos, side, n);
    GetPortReadsOutsideSlot(g, n, Opposite(side));
    GetPortInsideReadsInsideSlot(g, pos, side);
  }

  /** Round trip: after an insert, `get_mut_port_inside` at the same position and side yields that port. */
  lemma InsertThenInside(g: Columns, pos: Pos, side: Side, p: Option<Port>)
    requires Insertable(g, pos, side)
    ensures GetPortInside(WriteSlot(g, InsertSlot(pos, side), p), pos, side) == Ok(p)
  {
    InsertSlotIsInsideSlot(pos, side);
    GetPortInsideReadsInsideSlot(WriteSlot(g, InsertSlot(pos, side), p), pos, side);
  }

  /** After an insert, the neighbour on that side sees the port across the edge. */
  lemma InsertThenNeighbour(g: Columns, pos: Pos, side: Side, p: Option<Port>, n: Pos)
    requires Insertable(g, pos, side) && Step(pos, side) == Some(n)
    ensures GetPort(WriteSlot(g, InsertSlot(pos, side), p), n, Opposite(side)) == Ok(p)
  {
    InsertThenInside(g, pos, side, p);
    NeighbourGetPort(WriteSlot(g, InsertSlot(pos, side), p), pos, side, n);
  }

  /** In particular: Up at (x, y) is Down at (x, y + 1), Right at (x, y) is Left at (x + 1, y). */
  lemma InsertUpRightVisible(g: Columns, pos: Pos, p: Option<Port>)
    ensures Insertable(g, pos, Up) ==>
      GetPort(WriteSlot(g, InsertSlot(pos, Up), p), Pos(pos.x, pos.y + 1), Down) == Ok(p)
    ensures Insertable(g, pos, Right) ==>
      GetPort(WriteSlot(g, InsertSlot(pos, Right), p), Pos(pos.x + 1, pos.y), Left) == Ok(p)
  {
    if Insertable(g, pos, Up) {
      InsertThenNeighbour(g, pos, Up, p, Pos(pos.x, pos.y + 1));
    }
    if Insertable(g, pos, Right) {
      InsertThenNeighbour(g, pos, Right, p, Pos(pos.x + 1, pos.y));
    }
  }

  /** Looking down from row 0 is out of bounds for every lookup. */
  lemma DownAtBottomOutOfBounds(g: Columns, x: nat)
    ensures GetPort(g, Pos(x, 0), Down) == Err(PositionOutOfBounds)
    ensures GetPortInside(g, Pos(x, 0), Down) == Err(PositionOutOfBounds)
  {
  }

  // ---------------------------------------------------------------------------
  // modify_bulk

  function Shifted(d: PortDescriptor, offset: Pos): Pos {
    Pos(d.offset.x + offset.x, d.offset.y + offset.y)
  }

  predicate BulkInsertable(g: Columns, list: seq<PortDescriptor>, offset: Pos) {
    forall k :: 0 <= k < |list| ==> Insertable(g, Shifted(list[k], offset), list[k].side)
  }

  /** The overlay after inserting `target` for each descriptor in turn. */
  function BulkWritten(g: Columns, target: Option<Port>, list: seq<PortDescriptor>, offset: Pos): (r: Columns)
    requires BulkInsertable(g, list, offset)
    ensures SameShape(r, g)
    decreases |list|
  {
    if list == [] then g
    else
      var init := list[..|list| - 1];
      var last := list[|list| - 1];
      var before := BulkWritten(g, target, init, offset);
      WriteSlot(before, InsertSlot(Shifted(last, offset), last.side), target)
  }

  /** Some descriptor of `list` writes slot `s`. */
  predicate Targets(list: seq<PortDescriptor>, offset: Pos, s: Slot) {
    exists k :: 0 <= k < |list| && InsertDefined(Shifted(list[k], offset), list[k].side)
      && InsertSlot(Shifted(list[k], offset), list[k].side) == s
  }

  /** After `modify_bulk`, every declared slot holds `target` and every other slot is unchanged. */
  lemma {:induction false} BulkWrittenReads(g: Columns, target: Option<Port>, list: seq<PortDescriptor>, offset: Pos, s: Slot)
    requires BulkInsertable(g, list, offset) && HasSlot(g, s)
    ensures HasSlot(BulkWritten(g, target, list, offset), s)
    ensures ReadSlot(BulkWritten(g, target, list, offset), s) == if Targets(list, offset, s) then target else ReadSlot(g, s)
  {
    if list != [] {
      var init := list[..|list| - 1];
      var last := list[|list| - 1];
      assert BulkInsertable(g, init, offset) by {
        forall k | 0 <= k < |init| ensures Insertable(g, Shifted(init[k], offset), init[k].side) {
          assert init[k] == list[k];
        }
      }
      BulkWrittenReads(g, target, init, offset, s);
      var t := InsertSlot(Shifted(last, offset), last.side);
      if Targets(list, offset, s) && t != s {
        var k :| 0 <= k < |list| && InsertDefined(Shifted(list[k], offset), list[k].side)
          && InsertSlot(Shifted(list[k], offset), list[k].side) == s;
        assert k < |init| && init[k] == list[k];
      }
      if Targets(init, offset, s) {
        var k :| 0 <= k < |init| && InsertDefined(Shifted(init[k], offset), init[k].side)
          && InsertSlot(Shifted(init[k], offset), init[k].side) == s;
        assert list[k] == init[k];
      }
    }
  }

  /** After `modify_bulk`, each declared port reads back as `target` from inside its own cell. */
  lemma BulkDeclaredReadBack(g: Columns, target: Option<Port>, list: seq<PortDescriptor>, offset: Pos)
    requires BulkInsertable(g, list, offset)
    ensures forall k :: 0 <= k < |list| ==>
      GetPortInside(BulkWritten(g, target, list, offset), Shifted(list[k], offset), list[k].side) == Ok(target)
  {
    forall k | 0 <= k < |list|
      ensures GetPortInside(BulkWritten(g, target, list, offset), Shifted(list[k], offset), list[k].side) == Ok(target)
    {
      var pos, side := Shifted(list[k], offset), list[k].side;
      var s := InsertSlot(pos, side);
      BulkWrittenReads(g, target, list, offset, s);
      InsertSlotIsInsideSlot(pos, side);
      GetPortInsideReadsInsideSlot(BulkWritten(g, target, list, offset), pos, side);
    }
  }

  // ---------------------------------------------------------------------------
  // The overlay as the simulation owns and updates it

  class PortGrid {
    var cells: Columns

    /** `new_with_size(height, width)`: `width + 1` columns of `height + 1` empty cells. */
    constructor NewWithSize(height: nat, width: nat)
      ensures |cells| == width + 1
      ensures forall i :: 0 <= i < |cells| ==> |cells[i]| == height + 1
      ensures forall s :: HasSlot(cells, s) ==> ReadSlot(cells, s) == None
    {
      cells := seq(width + 1, _ => seq(height + 1, _ => NewData));
    }

    /** `insert_top`: write the top edge of the cell `get_mut(pos)` hands out, on the side `origin`. */
    method InsertTop(pos: Pos, origin: Side, port: Option<Port>) returns (r: Result<(), PortGridError>)
      modifies this
      ensures Get(old(cells), pos).Err? ==> r == Err(PositionOutOfBounds) && cells == old(cells)
      ensures Get(old(cells), pos).Ok? && (origin == Left || origin == Right) ==>
        r == Err(IncorrectOrigin) && cells == old(cells)
      ensures Get(old(cells), pos).Ok? && origin == Up ==>
        r == Ok(()) && cells == WriteSlot(old(cells), Slot(pos.x, pos.y + 1, OriginUp), port)
      ensures Get(old(cells), pos).Ok? && origin == Down ==>
        r == Ok(()) && cells == WriteSlot(old(cells), Slot(pos.x, pos.y + 1, OriginDown), port)
    {
      var handle := Get(cells, pos);
      if handle.Err? {
        return Err(handle.error);
      }
      var item := handle.value;
      match origin {
        case Up =>
          item := item.(top := item.top.(originUp := port));
        case Down =>
          item := item.(top := item.top.(originDown := port));
        case _ =>
          return Err(IncorrectOrigin);
      }
      cells := cells[pos.x := cells[pos.x][pos.y + 1 := item]];
      return Ok(());
    }

    /** `insert_left`: write the left edge of the cell `get_mut(pos)` hands out, on the side `origin`. */
    method InsertLeft(pos: Pos, origin: Side, port: Option<Port>) returns (r: Result<(), PortGridError>)
      modifies this
      ensures Get(old(cells), pos).Err? ==> r == Err(PositionOutOfBounds) && cells == old(cells)
      ensures Get(old(cells), pos).Ok? && (origin == Up || origin == Down) ==>
        r == Err(IncorrectOrigin) && cells == old(cells)
      ensures Get(old(cells), pos).Ok? && origin == Left ==>
        r == Ok(()) && cells == WriteSlot(old(cells), Slot(pos.x, pos.y + 1, OriginLeft), port)
      ensures Get(old(cells), pos).Ok? && origin == Right ==>
        r == Ok(()) && cells == WriteSlot(old(cells), Slot(pos.x, pos.y + 1, OriginRight), port)
    {
      var handle := Get(cells, pos);
      if handle.Err? {
        return Err(handle.error);
      }
      var item := handle.value;
      match origin {
        case Left =>
          item := item.(left := item.left.(originLeft := port));
        case Right =>
          item := item.(left := item.left.(originRight := port));
        case _ =>
          return Err(IncorrectOrigin);
      }
      cells := cells[pos.x := cells[pos.x][pos.y + 1 := item]];
      return Ok(());
    }

    /** `insert`: record (or clear) the port `pos` declares on `side`; nothing else changes. */
    method Insert(pos: Pos, side: Side, port: Option<Port>) returns (r: Result<(), PortGridError>)
      requires InsertDefined(pos, side)
      modifies this
      ensures r.Ok? <==> HasSlot(old(cells), InsertSlot(pos, side))
      ensures r.Ok? ==> cells == WriteSlot(old(cells), InsertSlot(pos, side), port)
      ensures r.Err? ==> r.error == PositionOutOfBounds && cells == old(cells)
    {
      match side
      case Up =>
        r := InsertTop(pos, Down, port);
      case Down =>
        r := InsertTop(Pos(pos.x, pos.y - 1), Up, port);
      case Left =>
        r := InsertLeft(pos, Right, port);
      case Right =>
        r := InsertLeft(Pos(pos.x + 1, pos.y), Left, port);
    }

    /** `modify_bulk`: insert `target` for every descriptor shifted by `offset` (a failed insert panics). */
    method ModifyBulk(target: Option<Port>, list: seq<PortDescriptor>, offset: Pos)
      requires BulkInsertable(cells, list, offset)
      modifies this
      ensures cells == BulkWritten(old(cells), target, list, offset)
    {
      for k := 0 to |list|
        invariant BulkInsertable(old(cells), list[..k], offset)
        invariant cells == BulkWritten(old(cells), target, list[..k], offset)
      {
        assert list[..k + 1][..k] == list[..k];
        var r := Insert(Shifted(list[k], offset), list[k].side, target);
      }
      assert list[..|list|] == list;
    }

    /** A write through the handle `get_mut_port` returns: the neighbour's slot facing `pos`. */
    method SetPort(pos: Pos, side: Side, v: Option<Port>) returns (r: Result<(), PortGridError>)
      modifies this
      ensures r.Ok? <==> GetPort(old(cells), pos, side).Ok?
      ensures r.Ok? ==> cells == WriteSlot(old(cells), OutsideSlot(pos, side).value, v)
      ensures r.Err? ==> r.error == PositionOutOfBounds && cells == old(cells)
    {
      GetPortReadsOutsideSlot(cells, pos, side);
      var s := OutsideSlot(pos, side);
      if s.None? || !HasSlot(cells, s.value) {
        return Err(PositionOutOfBounds);
      }
      cells := WriteSlot(cells, s.value, v);
      return Ok(());
    }

    /** A write through the handle `get_mut_port_inside` returns: `pos`'s own slot on `side`. */
    method SetPortInside(pos: Pos, side: Side, v: Option<Port>) returns (r: Result<(), PortGridError>)
      modifies this
      ensures r.Ok? <==> GetPortInside(old(cells), pos, side).Ok?
      ensures r.Ok? ==> cells == WriteSlot(old(cells), InsideSlot(pos, side).value, v)
      ensures r.Err? ==> r.error == PositionOutOfBounds && cells == old(cells)
    {
      GetPortInsideReadsInsideSlot(cells, pos, side);
      var s := InsideSlot(pos, side);
      if s.None? || !HasSlot(cells, s.value) {
        return Err(PositionOutOfBounds);
      }
      cells := WriteSlot(cells, s.value, v);
      return Ok(());
    }
  }
}
