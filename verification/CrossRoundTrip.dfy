/** From the simulator's registers to the gateway's decoder. */
module CrossRoundTrip {
  import opened Common
  import opened Fixpoint
  import opened Placement
  import opened SimModel
  import opened SimRegisters
  import opened SimServer
  import Codec
  import GatewayConfig

  /** In an input area of automatically placed `F32` sensors, sensor `i` starts at `2 * i`; the
      two words read there, high word first, are the simulator's bit pattern, and the gateway decodes
      them to the double with that pattern. */
  lemma {:induction false} SimulatorToGateway(
    lib: Meval, wire: Wire, f: Codec.Float32, sensors: seq<SimSensor>, vals: Valuation, i: nat)
    requires AllAutomatic(AreaItems(sensors, Input))
    requires forall k :: 0 <= k < |AreaItems(sensors, Input)| ==> AreaItems(sensors, Input)[k].width == 2
    requires i < |AreaItems(sensors, Input)|
    ensures var items := AreaItems(sensors, Input);
            var bits := wire.bits(Lookup(vals, items[i].slot.sensorId));
            var words := [InputWord(lib, wire, Layout(items), vals, 2 * i),
                          InputWord(lib, wire, Layout(items), vals, 2 * i + 1)];
            && Start(items, i) == 2 * i
            && words[0] as int * 65536 + words[1] as int == bits
            && Codec.DecodeWords(f, words, GatewayConfig.F32, GatewayConfig.Big) == f.widen(bits)
  {
    InputAreaRoundTrip(lib, wire, sensors, vals, i);
  }
}
