/** The observer probe (src/sim/components/observer.rs): reads its input each tick and reports it for scoring. */
module Observers {
  import opened Wrappers
  import opened Helpers
  import opened Signals

  datatype ObserverPorts = Input

  /** `Observer::CONST_PORTS`: one input, on the left of the single cell. */
  const CONST_PORTS: seq<(ObserverPorts, PortDescriptor)> := [(Input, PortDescriptor(Pos(0, 0), Left))]

  /** A row handed to the scoring log: the tick, the observer's id, and the value seen (absent for 0). */
  datatype OutputRow = OutputRow(tick: nat, id: string, observed: Option<u8>)

  class Observer {
    var id: string
    var ports: map<ObserverPorts, PortData>

    /** `ports` is an `EnumMap`, so it has an entry for every variant. */
    ghost predicate Valid()
      reads this
    {
      Input in ports
    }

    /** `Observer::default()`: empty id, input not bound. */
    constructor Default()
      ensures Valid() && id == "" && ports == map[Input := Unbound]
    {
      id := "";
      ports := map[Input := Unbound];
    }

    /** `set_port`: bind the port declared at (`offset`, `side`) to signal cell `setTo`. */
    method SetPort(offset: Pos, side: Side, setTo: nat) returns (r: Result<(), ()>)
      requires Valid()
      modifies this
      ensures Valid() && id == old(id)
      ensures r.Ok? <==> offset == Pos(0, 0) && side == Left
      ensures r.Ok? ==> ports == old(ports)[Input := PortData(Some(setTo))]
      ensures r.Err? ==> ports == old(ports)
    {
      for k := 0 to |CONST_PORTS|
        invariant ports == old(ports)
        invariant forall j :: 0 <= j < k ==> CONST_PORTS[j].1 != PortDescriptor(offset, side)
      {
        var (variant, declared) := CONST_PORTS[k];
        if offset == declared.offset && side == declared.side {
          ports := ports[variant := ports[variant].SetLink(Some(setTo))];
          return Ok(());
        }
      }
      assert CONST_PORTS[0].1 == PortDescriptor(Pos(0, 0), Left);
      return Err(());
    }

    /** `build`: an observer keeps no run state, so this changes nothing. */
    method Build()
      modifies this
      ensures unchanged(this)
    {
    }

    /**
     * `tick`: append one row for this tick to the scoring log. A reading of 0 is
     * recorded as absent; an unbound input always reads 0.
     */
    method Tick(ownPos: Pos, tick: nat, arena: array<u8>, log: seq<OutputRow>)
      returns (log': seq<OutputRow>, visual: seq<VisualEvent>, audio: seq<AudioEvent>)
      requires Valid() && ports[Input].BoundIn(arena[..])
      ensures |log'| == |log| + 1 && log'[..|log|] == log
      ensures log'[|log|].tick == tick && log'[|log|].id == id
      ensures log'[|log|].observed.None? <==> ports[Input].Read(arena[..]) == 0
      ensures log'[|log|].observed.Some? ==> log'[|log|].observed.value == ports[Input].Read(arena[..])
      ensures ports[Input].link.None? ==> log'[|log|].observed.None?
      ensures visual == [] && audio == []
    {
      var input := ports[Input].Read(arena[..]);
      if input == 0 {
        log' := log + [OutputRow(tick, id, None)];
      } else {
        log' := log + [OutputRow(tick, id, Some(input))];
      }
      visual, audio := [], [];
    }
  }
}
