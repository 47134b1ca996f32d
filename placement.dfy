/**
 * The component kind tables (src/components/placement.rs): every marker kind
 * knows its footprint, its declared ports, its display name and its sprite, and
 * can build a default component of its kind.
 */
module Placement {
  import opened Helpers
  import Observers
  import Providers
  import Signals

  /** The marker kinds, without any per-component state. */
  datatype DummyComponent =
    | WirePiece | GateNot | GateAnd | SignalCopy | SignalPassthrough | Counter | Observer | Provider

  /**
   * A placed component. The six gate kinds are stateless here (their behaviour
   * is not implemented); observers and providers are objects whose ports change.
   */
  datatype Component =
    | WirePiece
    | GateNot
    | GateAnd
    | SignalCopy
    | SignalPassthrough
    | Counter
    | Observer(observer: Observers.Observer)
    | Provider(provider: Providers.Provider)

  /** `Component::dummy`: the kind of a component. */
  function Dummy(c: Component): DummyComponent
  {
    match c
    case WirePiece => DummyComponent.WirePiece
    case GateNot => DummyComponent.GateNot
    case GateAnd => DummyComponent.GateAnd
    case SignalCopy => DummyComponent.SignalCopy
    case SignalPassthrough => DummyComponent.SignalPassthrough
    case Counter => DummyComponent.Counter
    case Observer(_) => DummyComponent.Observer
    case Provider(_) => DummyComponent.Provider
  }

  /**
   * `build_default`: a fresh default component of kind `d`, so that its kind is
   * `d` again; observers and providers start with an empty id and unbound ports.
   */
  method BuildDefault(d: DummyComponent) returns (c: Component)
    ensures Dummy(c) == d
    ensures c.Observer? ==>
      fresh(c.observer) && c.observer.Valid() && c.observer.id == "" && c.observer.ports == map[Observers.Input := Signals.Unbound]
    ensures c.Provider? ==>
      fresh(c.provider) && c.provider.Valid() && c.provider.id == "" && c.provider.ports == map[Providers.Output := Signals.Unbound]
  {
    if d.Observer? {
      var o := new Observers.Observer.Default();
      c := Component.Observer(o);
    } else if d.Provider? {
      var p := new Providers.Provider.Default();
      c := Component.Provider(p);
    } else {
      c := match d
        case WirePiece => Component.WirePiece
        case GateNot => Component.GateNot
        case GateAnd => Component.GateAnd
        case SignalCopy => Component.SignalCopy
        case SignalPassthrough => Component.SignalPassthrough
        case Counter => Component.Counter;
    }
  }

  /** `get_grid_size`: the footprint of a kind, `Size(columns, rows)`. */
  function GridSize(d: DummyComponent): (s: Size)
    ensures 1 <= s.w <= s.h <= 2
  {
    match d
    case WirePiece => Size(1, 1)
    case GateNot => Size(1, 1)
    case GateAnd => Size(2, 2)
    case SignalCopy => Size(1, 2)
    case SignalPassthrough => Size(1, 1)
    case Counter => Size(1, 2)
    case Observer => Size(1, 1)
    case Provider => Size(1, 1)
  }

  /** Only the AND gate is two columns wide; only it, the splitter and the counter are two rows tall. */
  lemma GridSizeByKind(d: DummyComponent)
    ensures GridSize(d).w == 2 <==> d.GateAnd?
    ensures GridSize(d).h == 2 <==> d.GateAnd? || d.SignalCopy? || d.Counter?
  {
  }

  /** The values of a `CONST_PORTS` table, in declaration order. */
  function Values<V>(table: seq<(V, PortDescriptor)>): seq<PortDescriptor> {
    seq(|table|, k requires 0 <= k < |table| => table[k].1)
  }

  /**
   * `ports`: the declared port descriptors of a kind. The tables of the six gate
   * kinds are not defined in the modelled sources, so they are the parameter
   * `gatePorts`; observers and providers use their own `CONST_PORTS`.
   */
  function Ports(d: DummyComponent, gatePorts: DummyComponent -> seq<PortDescriptor>): (r: seq<PortDescriptor>)
    ensures d.Observer? ==> r == [PortDescriptor(Pos(0, 0), Left)]
    ensures d.Provider? ==> r == [PortDescriptor(Pos(0, 0), Right)]
    ensures !d.Observer? && !d.Provider? ==> r == gatePorts(d)
  {
    match d
    case Observer => Values(Observers.CONST_PORTS)
    case Provider => Values(Providers.CONST_PORTS)
    case _ => gatePorts(d)
  }

  /** Observer and provider ports are on their footprint, facing out of it. */
  lemma PortsOnBoundary(d: DummyComponent, gatePorts: DummyComponent -> seq<PortDescriptor>, k: nat)
    requires d.Observer? || d.Provider?
    requires k < |Ports(d, gatePorts)|
    ensures var p := Ports(d, gatePorts)[k];
      InFootprint(p.offset.x, p.offset.y, Pos(0, 0), GridSize(d)) &&
      var o := AsOffset(p.side);
      !InFootprint(p.offset.x + o.dx, p.offset.y + o.dy, Pos(0, 0), GridSize(d))
  {
  }

  /** `name`: the display name of a kind. */
  function Name(d: DummyComponent): (r: string)
    ensures |r| > 0
  {
    match d
    case WirePiece => "Wire"
    case GateNot => "NOT gate"
    case GateAnd => "AND gate"
    case SignalCopy => "Signal splitter"
    case SignalPassthrough => "Signal passthrough"
    case Counter => "Counter"
    case Observer => "Observer"
    case Provider => "Provider"
  }

  /** Every kind has its own display name. */
  lemma NameInjective(a: DummyComponent, b: DummyComponent)
    ensures Name(a) == Name(b) <==> a == b
  {
  }

  /** `get_sprite_name`: the texture atlas key of a kind. */
  function SpriteName(d: DummyComponent): (r: string)
    ensures |r| > 0
  {
    match d
    case WirePiece => "wire_left_right"
    case GateNot => "gate_not"
    case GateAnd => "gate_and"
    case SignalCopy => "signal_copy"
    case SignalPassthrough => "signal_passthrough"
    case Counter => "signal_copy"
    case Observer => "observer"
    case Provider => "provider"
  }

  /** Sprites are distinct per kind, except that the counter reuses the splitter's. */
  lemma SpriteNameShared(a: DummyComponent, b: DummyComponent)
    ensures SpriteName(a) == SpriteName(b) <==>
      a == b || ((a.SignalCopy? || a.Counter?) && (b.SignalCopy? || b.Counter?))
  {
  }
}
