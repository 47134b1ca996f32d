/**
 * Port handles and the events a tick reports (src/sim/model.rs).
 *
 * A signal cell, an `Arc<AtomicU8>` shared by every port joined to one electrical
 * node, is modelled as an index into a byte arena; a port handle holds that index
 * or nothing.
 */
module Signals {
  import opened Wrappers

  newtype u8 = x: int | 0 <= x < 256

  /** `ComponentPortData`: a port's link to a signal cell, if it is bound. */
  datatype PortData = PortData(link: Option<nat>) {

    /** The linked cell exists in the arena (an `Arc` is never dangling). */
    predicate BoundIn(cells: seq<u8>) {
      link.Some? ==> link.value < |cells|
    }

    /** `get`: the shared byte, or 0 when the port is not bound. */
    function Read(cells: seq<u8>): u8
      requires BoundIn(cells)
    {
      match link
      case None => 0
      case Some(i) => cells[i]
    }

    /** The arena after `set(val)`: the linked cell holds `val`; an unbound port writes nothing. */
    function Written(cells: seq<u8>, val: u8): (r: seq<u8>)
      requires BoundIn(cells)
      ensures |r| == |cells|
      ensures forall i :: 0 <= i < |cells| && Some(i) != link ==> r[i] == cells[i]
      ensures link.Some? ==> r[link.value] == val
    {
      match link
      case None => cells
      case Some(i) => cells[i := val]
    }

    /** `set`: store into the shared cell, or ignore the write when unbound. */
    method Set(arena: array<u8>, val: u8)
      requires BoundIn(arena[..])
      modifies arena
      ensures arena[..] == Written(old(arena[..]), val)
    {
      match link {
        case None =>
        case Some(i) =>
          arena[i] := val;
      }
    }

    /** `set_link`: replace the handle. */
    function SetLink(l: Option<nat>): (r: PortData)
      ensures r.link == l
    {
      this.(link := l)
    }
  }

  /** The default handle: not bound to any signal cell. */
  const Unbound: PortData := PortData(None)

  /** A write through a bound port is what the next read of that port returns. */
  lemma ReadAfterWrite(p: PortData, cells: seq<u8>, val: u8)
    requires p.BoundIn(cells) && p.link.Some?
    ensures p.BoundIn(p.Written(cells, val)) && p.Read(p.Written(cells, val)) == val
  {
  }

  /** An unbound port ignores writes and reads 0. */
  lemma UnboundIgnoresWrite(p: PortData, cells: seq<u8>, val: u8)
    requires p.link.None?
    ensures p.Written(cells, val) == cells && p.Read(p.Written(cells, val)) == 0
  {
  }

  /**
   * Ports bound to the same cell share one value; ports bound to different cells
   * do not see each other's writes.
   */
  lemma SharedNode(p: PortData, q: PortData, cells: seq<u8>, val: u8)
    requires p.BoundIn(cells) && q.BoundIn(cells) && p.link.Some? && q.link.Some?
    ensures q.BoundIn(p.Written(cells, val))
    ensures p.link == q.link ==> q.Read(p.Written(cells, val)) == val
    ensures p.link != q.link ==> q.Read(p.Written(cells, val)) == q.Read(cells)
  {
  }

  /** `VisualEventType`. */
  datatype VisualEventType = ElectricFizz | Flash | Fire

  /** `VisualEvent`, without its floating-point screen placement. */
  datatype VisualEvent = VisualEvent(eventType: VisualEventType)

  /** `AudioEvent`, without its floating-point volume. */
  datatype AudioEvent = AudioEvent(path: string)
}
