/** Directions, offsets and the perimeter walk shared by the simulation code (src/sim/helpers.rs). */
module Helpers {
  import opened Wrappers

  /** Exclusive upper bound of Rust's `usize` on the 64-bit targets the game is built for. */
  const USIZE_LIMIT: int := 0x1_0000_0000_0000_0000
  /** Exclusive upper bound of `isize`. */
  const ISIZE_LIMIT: int := 0x8000_0000_0000_0000

  predicate IsUsize(n: int) { 0 <= n < USIZE_LIMIT }
  predicate IsIsize(n: int) { -ISIZE_LIMIT <= n < ISIZE_LIMIT }

  /** A grid coordinate `[usize; 2]`: column `x`, row `y` (row 0 at the bottom). */
  datatype Pos = Pos(x: nat, y: nat)

  /** A footprint size `[usize; 2]`: `w` columns by `h` rows. */
  datatype Size = Size(w: nat, h: nat)

  /** A signed offset `[isize; 2]`. */
  datatype Offset = Offset(dx: int, dy: int)

  datatype Side = Up | Down | Left | Right

  /** A port declaration `([usize; 2], Side)`: a cell of the footprint and the side it faces. */
  datatype PortDescriptor = PortDescriptor(offset: Pos, side: Side)

  /** The unit step one cell towards `s`; positive y is up. */
  function AsOffset(s: Side): (r: Offset)
    ensures -1 <= r.dx <= 1 && -1 <= r.dy <= 1
    ensures (r.dx == 0) != (r.dy == 0)
    ensures s == Up || s == Down <==> r.dx == 0
  {
    match s
    case Up => Offset(0, 1)
    case Down => Offset(0, -1)
    case Left => Offset(-1, 0)
    case Right => Offset(1, 0)
  }

  /** Clockwise quarter turn: the offset (dx, dy) becomes (dy, -dx). */
  function Rotate(s: Side): (r: Side)
    ensures AsOffset(r) == Offset(AsOffset(s).dy, -AsOffset(s).dx)
  {
    match s
    case Up => Right
    case Down => Left
    case Left => Up
    case Right => Down
  }

  /** The side facing `s` across an edge: two clockwise quarter turns. */
  function Opposite(s: Side): Side {
    Rotate(Rotate(s))
  }

  /** The cell next to `pos` towards `s`, when it has no coordinate below zero. */
  function Step(pos: Pos, s: Side): Option<Pos> {
    var o := AsOffset(s);
    if pos.x + o.dx >= 0 && pos.y + o.dy >= 0 then Some(Pos(pos.x + o.dx, pos.y + o.dy)) else None
  }

  /** Stepping to a neighbour and then back across the same edge returns to the start. */
  lemma StepUndone(pos: Pos, s: Side)
    ensures Step(pos, s).Some? ==> Step(Step(pos, s).value, Opposite(s)) == Some(pos)
  {
    OppositeNegatesOffset(s);
  }

  lemma RotateFourTimes(s: Side)
    ensures Rotate(Rotate(Rotate(Rotate(s)))) == s
  {
  }

  lemma OppositeNegatesOffset(s: Side)
    ensures AsOffset(Opposite(s)) == Offset(-AsOffset(s).dx, -AsOffset(s).dy)
    ensures Opposite(s) != s && Opposite(Opposite(s)) == s
  {
  }

  /** Rust's `usize::checked_add_signed`. */
  function CheckedAddSigned(a: nat, d: int): Option<nat> {
    if IsUsize(a + d) then Some(a + d) else None
  }

  /** `combine_offset`: the shifted position when both coordinates stay representable. */
  method CombineOffset(pos: Pos, offset: Offset) returns (r: Option<Pos>)
    requires IsUsize(pos.x) && IsUsize(pos.y)
    requires IsIsize(offset.dx) && IsIsize(offset.dy)
    ensures r.Some? <==> IsUsize(pos.x + offset.dx) && IsUsize(pos.y + offset.dy)
    ensures r.Some? ==> r.value == Pos(pos.x + offset.dx, pos.y + offset.dy)
  {
    var newPos := [CheckedAddSigned(pos.x, offset.dx), CheckedAddSigned(pos.y, offset.dy)];
    var optionPos: seq<nat> := [0, 0];
    for i := 0 to 2
      invariant |optionPos| == 2
      invariant forall k :: 0 <= k < i ==> newPos[k].Some? && optionPos[k] == newPos[k].value
    {
      match newPos[i]
      case Some(v) =>
        optionPos := optionPos[i := v];
      case None =>
        return None;
    }
    return Some(Pos(optionPos[0], optionPos[1]));
  }

  // ---------------------------------------------------------------------------
  // get_adjacent: a walk round the outside of a footprint, relative to the cell
  // one down and one left of the origin, then shifted back and filtered.

  /** Up the left side: (0, 1) .. (0, h). */
  function LeftColumn(size: Size): seq<Pos> {
    seq(size.h, k requires 0 <= k < size.h => Pos(0, k + 1))
  }

  /** Along the top: (1, h+1) .. (w, h+1). */
  function TopRow(size: Size): seq<Pos> {
    seq(size.w, k requires 0 <= k < size.w => Pos(k + 1, size.h + 1))
  }

  /** Down the right side: (w+1, h) .. (w+1, 1). */
  function RightColumn(size: Size): seq<Pos> {
    seq(size.h, k requires 0 <= k < size.h => Pos(size.w + 1, size.h - k))
  }

  /** Back along the bottom: (w, 0) .. (1, 0). */
  function BottomRow(size: Size): seq<Pos> {
    seq(size.w, k requires 0 <= k < size.w => Pos(size.w - k, 0))
  }

  /** The relative positions pushed by the four loops, in order. */
  function Perimeter(size: Size): seq<Pos> {
    LeftColumn(size) + TopRow(size) + RightColumn(size) + BottomRow(size)
  }

  /** The closure of the `filter_map`: undo the (1, 1) bias, dropping a coordinate below zero. */
  function Unbias(pos: Pos, rel: Pos): Option<Pos> {
    if rel.x + pos.x >= 1 && rel.y + pos.y >= 1
    then Some(Pos(rel.x + pos.x - 1, rel.y + pos.y - 1))
    else None
  }

  function UnbiasAll(pos: Pos, rels: seq<Pos>): (r: seq<Pos>)
    ensures |r| <= |rels|
  {
    if rels == [] then []
    else
      match Unbias(pos, rels[0])
      case Some(q) => [q] + UnbiasAll(pos, rels[1..])
      case None => UnbiasAll(pos, rels[1..])
  }

  predicate InFootprint(x: int, y: int, pos: Pos, size: Size) {
    pos.x <= x < pos.x + size.w && pos.y <= y < pos.y + size.h
  }

  /** `q` lies outside the footprint and one step from it in one of the four directions. */
  predicate EdgeAdjacent(q: Pos, pos: Pos, size: Size) {
    && !InFootprint(q.x, q.y, pos, size)
    && exists s: Side :: InFootprint(q.x + AsOffset(s).dx, q.y + AsOffset(s).dy, pos, size)
  }

  method GetAdjacent(pos: Pos, size: Size) returns (r: seq<Pos>)
    ensures r == UnbiasAll(pos, Perimeter(size))
    ensures |r| <= 2 * (size.w + size.h)
    ensures pos.x >= 1 && pos.y >= 1 ==> |r| == 2 * (size.w + size.h)
    ensures size.w >= 1 && size.h >= 1 ==> forall q :: q in r <==> EdgeAdjacent(q, pos, size)
  {
    var x: nat, y: nat := 0, 0;
    var positions: seq<Pos> := [];
    for i := 0 to size.h
      invariant x == 0 && y == i
      invariant positions == LeftColumn(size)[..i]
    {
      y := y + 1;
      positions := positions + [Pos(x, y)];
    }
    y := y + 1;
    for i := 0 to size.w
      invariant x == i && y == size.h + 1
      invariant positions == LeftColumn(size) + TopRow(size)[..i]
    {
      x := x + 1;
      positions := positions + [Pos(x, y)];
    }
    x := x + 1;
    for i := 0 to size.h
      invariant x == size.w + 1 && y == size.h + 1 - i
      invariant positions == LeftColumn(size) + TopRow(size) + RightColumn(size)[..i]
    {
      y := y - 1;
      positions := positions + [Pos(x, y)];
    }
    y := y - 1;
    for i := 0 to size.w
      invariant x == size.w + 1 - i && y == 0
      invariant positions == LeftColumn(size) + TopRow(size) + RightColumn(size) + BottomRow(size)[..i]
    {
      x := x - 1;
      positions := positions + [Pos(x, y)];
    }
    assert positions == Perimeter(size);
    r := UnbiasAll(pos, positions);
    if pos.x >= 1 && pos.y >= 1 {
      UnbiasAllKeepsAll(pos, positions);
    }
    if size.w >= 1 && size.h >= 1 {
      AdjacentIsEdgeAdjacent(pos, size);
    }
  }

  lemma {:induction false} UnbiasAllKeepsAll(pos: Pos, rels: seq<Pos>)
    requires pos.x >= 1 && pos.y >= 1
    ensures |UnbiasAll(pos, rels)| == |rels|
  {
    if rels != [] {
      UnbiasAllKeepsAll(pos, rels[1..]);
    }
  }

  lemma {:induction false} UnbiasAllMembers(pos: Pos, rels: seq<Pos>, q: Pos)
    ensures q in UnbiasAll(pos, rels) <==> exists k :: 0 <= k < |rels| && Unbias(pos, rels[k]) == Some(q)
  {
    if rels != [] {
      UnbiasAllMembers(pos, rels[1..], q);
      if q in UnbiasAll(pos, rels[1..]) {
        var k :| 0 <= k < |rels[1..]| && Unbias(pos, rels[1..][k]) == Some(q);
        assert Unbias(pos, rels[k + 1]) == Some(q);
      }
      forall k | 1 <= k < |rels| && Unbias(pos, rels[k]) == Some(q)
        ensures q in UnbiasAll(pos, rels[1..])
      {
        assert rels[1..][k - 1] == rels[k];
      }
    }
  }

  /** The k-th relative position of the walk, piece by piece. */
  lemma PerimeterAt(size: Size, k: nat)
    requires k < |Perimeter(size)|
    ensures |Perimeter(size)| == 2 * (size.w + size.h)
    ensures k < size.h ==> Perimeter(size)[k] == Pos(0, k + 1)
    ensures size.h <= k < size.h + size.w ==> Perimeter(size)[k] == Pos(k - size.h + 1, size.h + 1)
    ensures size.h + size.w <= k < 2 * size.h + size.w ==> Perimeter(size)[k] == Pos(size.w + 1, 2 * size.h + size.w - k)
    ensures 2 * size.h + size.w <= k ==> Perimeter(size)[k] == Pos(2 * size.w + 2 * size.h - k, 0)
  {
    var l, t, rc := LeftColumn(size), TopRow(size), RightColumn(size);
    var per := Perimeter(size);
    if k < size.h {
      assert per[k] == l[k];
    } else if k < size.h + size.w {
      assert per[k] == t[k - size.h];
    } else if k < 2 * size.h + size.w {
      assert per[k] == rc[k - size.h - size.w];
    } else {
      assert per[k] == BottomRow(size)[k - 2 * size.h - size.w];
    }
  }

  lemma WalkStepIsEdgeAdjacent(pos: Pos, size: Size, k: nat, q: Pos)
    requires size.w >= 1 && size.h >= 1
    requires k < |Perimeter(size)| && Unbias(pos, Perimeter(size)[k]) == Some(q)
    ensures EdgeAdjacent(q, pos, size)
  {
    PerimeterAt(size, k);
    if k < size.h {
      assert InFootprint(q.x + AsOffset(Right).dx, q.y + AsOffset(Right).dy, pos, size);
    } else if k < size.h + size.w {
      assert InFootprint(q.x + AsOffset(Down).dx, q.y + AsOffset(Down).dy, pos, size);
    } else if k < 2 * size.h + size.w {
      assert InFootprint(q.x + AsOffset(Left).dx, q.y + AsOffset(Left).dy, pos, size);
    } else {
      assert InFootprint(q.x + AsOffset(Up).dx, q.y + AsOffset(Up).dy, pos, size);
    }
  }

  lemma EdgeAdjacentIsWalkStep(pos: Pos, size: Size, q: Pos) returns (k: nat)
    requires EdgeAdjacent(q, pos, size)
    ensures k < |Perimeter(size)| && Unbias(pos, Perimeter(size)[k]) == Some(q)
  {
    var s: Side :| InFootprint(q.x + AsOffset(s).dx, q.y + AsOffset(s).dy, pos, size);
    match s
    case Right =>
      k := q.y - pos.y;
    case Down =>
      k := size.h + q.x - pos.x;
    case Left =>
      k := size.h + size.w + (pos.y + size.h - 1 - q.y);
    case Up =>
      k := 2 * size.h + size.w + (pos.x + size.w - 1 - q.x);
    PerimeterAt(size, k);
  }

  /** The walk visits the edge-adjacent cells exactly: no corners, nothing inside the footprint. */
  lemma AdjacentIsEdgeAdjacent(pos: Pos, size: Size)
    requires size.w >= 1 && size.h >= 1
    ensures forall q :: q in UnbiasAll(pos, Perimeter(size)) <==> EdgeAdjacent(q, pos, size)
  {
    var per := Perimeter(size);
    forall q
      ensures q in UnbiasAll(pos, per) <==> EdgeAdjacent(q, pos, size)
    {
      UnbiasAllMembers(pos, per, q);
      if q in UnbiasAll(pos, per) {
        var k :| 0 <= k < |per| && Unbias(pos, per[k]) == Some(q);
        WalkStepIsEdgeAdjacent(pos, size, k, q);
      }
      if EdgeAdjacent(q, pos, size) {
        var k := EdgeAdjacentIsWalkStep(pos, size, q);
      }
    }
  }
}
