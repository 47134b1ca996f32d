/** The provider source (src/sim/components/provider.rs): replays a level's input sequence, one byte per tick. */
module Providers {
  import opened Wrappers
  import opened Helpers
  import opened Signals

  datatype ProviderPorts = Output

  /** `Provider::CONST_PORTS`: one output, on the right of the single cell. */
  const CONST_PORTS: seq<(ProviderPorts, PortDescriptor)> := [(Output, PortDescriptor(Pos(0, 0), Right))]

  class Provider {
    var id: string
    var ports: map<ProviderPorts, PortData>

    /** `ports` is an `EnumMap`, so it has an entry for every variant. */
    ghost predicate Valid()
      reads this
    {
      Output in ports
    }

    /** `Provider::default()`: empty id, output not bound. */
    constructor Default()
      ensures Valid() && id == "" && ports == map[Output := Unbound]
    {
      id := "";
      ports := map[Output := Unbound];
    }

    /** `set_port`: bind the port declared at (`offset`, `side`) to signal cell `setTo`. */
    method SetPort(offset: Pos, side: Side, setTo: nat) returns (r: Result<(), ()>)
      requires Valid()
      modifies this
      ensures Valid() && id == old(id)
      ensures r.Ok? <==> offset == Pos(0, 0) && side == Right
      ensures r.Ok? ==> ports == old(ports)[Output := PortData(Some(setTo))]
      ensures r.Err? ==> ports == old(ports)
    {
      for k := 0 to |CONST_PORTS|
        invariant ports == old(ports)
        invariant forall j :: 0 <= j < k ==> CONST_PORTS[j].1 != PortDescriptor(offset, side)
      {
        var (variant, declared) := CONST_PORTS[k];
        if offset == declared.offset && side == declared.side {
          ports := ports[variant := ports[variant].SetLink(Some(setTo))];
          return Ok(());
        }
      }
      assert CONST_PORTS[0].1 == PortDescriptor(Pos(0, 0), Right);
      return Err(());
    }

    /** `build`: a provider keeps no run state, so this changes nothing. */
    method Build()
      modifies this
      ensures unchanged(this)
    {
    }

    /**
     * `tick`: write the `tick`-th byte of this provider's sequence to the output;
     * past the end of the sequence the output cell keeps its value. The level must
     * list a sequence under this provider's id (the source unwraps the lookup).
     */
    method Tick(ownPos: Pos, tick: nat, providedInputs: map<string, seq<u8>>, arena: array<u8>)
      returns (visual: seq<VisualEvent>, audio: seq<AudioEvent>)
      requires Valid() && id in providedInputs && ports[Output].BoundIn(arena[..])
      modifies arena
      ensures tick < |providedInputs[id]| ==>
        arena[..] == ports[Output].Written(old(arena[..]), providedInputs[id][tick])
      ensures tick >= |providedInputs[id]| ==> arena[..] == old(arena[..])
      ensures tick < |providedInputs[id]| && ports[Output].link.Some? ==>
        ports[Output].Read(arena[..]) == providedInputs[id][tick]
      ensures visual == [] && audio == []
    {
      var sequence := providedInputs[id];
      if tick < |sequence| {
        ports[Output].Set(arena, sequence[tick]);
        if ports[Output].link.Some? {
          ReadAfterWrite(ports[Output], old(arena[..]), sequence[tick]);
        }
      }
      visual, audio := [], [];
    }
  }
}
