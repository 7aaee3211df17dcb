/** The simulator's write requests and the words it serves. */
module SimServer {
  import opened Common
  import opened Fixpoint
  import opened Numbers
  import opened Placement
  import opened SimModel
  import opened SimEngine
  import opened ControlLocality
  import opened SimRegisters

  datatype ExceptionCode = IllegalFunction | IllegalDataAddress | IllegalDataValue

  type Controls = map<string, real>

  const DUTY_MAX := 100

  /** Why a write to an address is refused, if it is. */
  function Refusal(cfg: SimConfig, holding: Slots<HoldingSlot>, addr: u16): Option<ExceptionCode> {
    if addr >= |holding| || holding[addr].None? then Some(IllegalDataAddress)
    else
      match holding[addr].value
      case Sensor(_) => Some(IllegalFunction)
      case Control(name, writable) =>
        if !writable then Some(IllegalFunction)
        else
          var c := FindControl(cfg.controls, name);
          if c.None? || !c.value.writable then Some(IllegalDataValue) else None
  }

  function Duty(word: u16): int {
    if word > DUTY_MAX then DUTY_MAX else word
  }

  /** The address of word `i` of a request, in 16-bit wrapping arithmetic. */
  function WordAddress(addr: u16, i: nat): (r: u16)
    ensures addr + i <= 65535 ==> r == addr + i
    ensures addr + i > 65535 && i <= 65535 ==> r == addr + i - 65536
  {
    (addr + i) % 0x1_0000
  }

  /** The controls after the first `n` words of a request have been applied. */
  function Applied(holding: Slots<HoldingSlot>, controls: Controls, addr: u16, words: seq<u16>, n: nat): Controls
    requires n <= |words|
  {
    if n == 0 then controls
    else
      var before := Applied(holding, controls, addr, words, n - 1);
      if Accepts(holding, WordAddress(addr, n - 1))
      then before[ControlAt(holding, WordAddress(addr, n - 1)) := Duty(words[n - 1]) as real]
      else before
  }

  predicate Accepts(holding: Slots<HoldingSlot>, addr: u16) {
    addr < |holding| && holding[addr].Some? && holding[addr].value.Control?
  }

  function ControlAt(holding: Slots<HoldingSlot>, addr: u16): string
    requires Accepts(holding, addr)
  {
    holding[addr].value.control
  }

  class SimSlave {
    const engine: SimEngine
    const map_: RegisterMap

    constructor (engine: SimEngine)
      requires engine.Valid()
      ensures this.engine == engine && Built()
    {
      this.engine := engine;
      this.map_ := new RegisterMap.Build(engine.sim);
    }

    ghost predicate Built()
      reads map_
    {
      && map_.holding == Layout(HoldingItems(engine.sim))
      && map_.inputs == Layout(AreaItems(IterSensors(engine.sim), Input))
      && map_.coils == Layout(AreaItems(IterSensors(engine.sim), Coils))
    }

    method WriteControl(addr: u16, word: u16) returns (r: Result<(), ExceptionCode>)
      modifies engine`controls
      ensures r == match Refusal(engine.sim, map_.holding, addr) case None => Ok(()) case Some(e) => Err(e)
      ensures engine.controls ==
              if r.Err? then old(engine.controls)
              else old(engine.controls)[ControlAt(map_.holding, addr) := (if word > 100 then 100 else word) as real]
    {
      if addr >= |map_.holding| || map_.holding[addr].None? {
        return Err(IllegalDataAddress);
      }
      match map_.holding[addr].value
      case Sensor(_) =>
        return Err(IllegalFunction);
      case Control(name, writable) =>
        if !writable {
          return Err(IllegalFunction);
        }
        var outcome := engine.SetControl(name, Duty(word) as real);
        return match outcome case Ok(_) => Ok(()) case Err(_) => Err(IllegalDataValue);
    }

    /** A multi-register write: word by word, stopping at the first refused address. */
    method WriteMultiple(addr: u16, words: seq<u16>) returns (r: Result<nat, ExceptionCode>, ghost n: nat)
      modifies engine`controls
      ensures n <= |words| && forall i :: 0 <= i < n ==> Refusal(engine.sim, map_.holding, WordAddress(addr, i)).None?
      ensures engine.controls == Applied(map_.holding, old(engine.controls), addr, words, n)
      ensures r.Ok? ==> n == |words| && r.value == |words|
      ensures r.Err? ==> n < |words| && Refusal(engine.sim, map_.holding, WordAddress(addr, n)) == Some(r.error)
    {
      n := 0;
      for i := 0 to |words|
        invariant n == i && forall j :: 0 <= j < i ==> Refusal(engine.sim, map_.holding, WordAddress(addr, j)).None?
        invariant engine.controls == Applied(map_.holding, old(engine.controls), addr, words, i)
      {
        var one := WriteControl(WordAddress(addr, i), words[i]);
        if one.Err? {
          return Err(one.error), n;
        }
        n := n + 1;
      }
      return Ok(|words|), n;
    }
  }

  // ----- What the writes mean -----

  /** Controls not written keep their values. */
  lemma {:induction false} OtherControlsUnchanged(
    holding: Slots<HoldingSlot>, controls: Controls, addr: u16, words: seq<u16>, n: nat, name: string)
    requires n <= |words| && forall i :: 0 <= i < n ==> Accepts(holding, WordAddress(addr, i))
    requires forall i :: 0 <= i < n ==> ControlAt(holding, WordAddress(addr, i)) != name
    ensures AgreeAt(controls, Applied(holding, controls, addr, words, n), name)
  {
    if n > 0 {
      OtherControlsUnchanged(holding, controls, addr, words, n - 1, name);
    }
  }

  /** A written control holds the last word written to it, limited to 100. */
  lemma {:induction false} WrittenControlHolds(
    holding: Slots<HoldingSlot>, controls: Controls, addr: u16, words: seq<u16>, n: nat, i: nat)
    requires i < n <= |words| && forall j :: 0 <= j < n ==> Accepts(holding, WordAddress(addr, j))
    requires forall j :: i < j < n ==>
                           ControlAt(holding, WordAddress(addr, j)) != ControlAt(holding, WordAddress(addr, i))
    ensures var name := ControlAt(holding, WordAddress(addr, i));
            var after := Applied(holding, controls, addr, words, n);
            name in after && after[name] == (if words[i] > 100 then 100 else words[i]) as real
    decreases n
  {
    if i < n - 1 {
      WrittenControlHolds(holding, controls, addr, words, n - 1, i);
    }
  }

  lemma {:induction false} HoldingItemsSplit(controls: seq<SimControl>, sensors: seq<SimSensor>, n: nat)
    requires n <= |sensors|
    ensures |controls| <= |HoldingItemsUpTo(controls, sensors, n)|
    ensures forall i :: 0 <= i < |controls| ==> HoldingItemsUpTo(controls, sensors, n)[i] == ControlItems(controls)[i]
    ensures forall i :: |controls| <= i < |HoldingItemsUpTo(controls, sensors, n)| ==>
                          HoldingItemsUpTo(controls, sensors, n)[i].slot.Sensor?
  {
    if n > 0 {
      HoldingItemsSplit(controls, sensors, n - 1);
    }
  }

  /** Each control occurs at one holding address only. */
  lemma {:induction false} ControlHasOneAddress(lib: Meval, cfg: SimConfig, a: u16, b: u16)
    requires ValidSim(lib, cfg)
    requires Accepts(Layout(HoldingItems(cfg)), a) && Accepts(Layout(HoldingItems(cfg)), b)
    requires ControlAt(Layout(HoldingItems(cfg)), a) == ControlAt(Layout(HoldingItems(cfg)), b)
    ensures a == b
  {
    var items := HoldingItems(cfg);
    HoldingItemsSplit(cfg.controls, IterSensors(cfg), |IterSensors(cfg)|);
    var i := OccupiedByItem(items, a);
    var j := OccupiedByItem(items, b);
    assert items[i].slot.Control? && items[j].slot.Control?;
    assert ControlNames(cfg.controls)[i] == ControlNames(cfg.controls)[j];
    assert i == j;
  }

  /** Over the map of a checked configuration: an address without an item is refused as such, an
      address of a writable control is accepted, every other one is refused as read-only. */
  lemma {:induction false} RefusalByItem(lib: Meval, cfg: SimConfig, a: u16)
    requires ValidSim(lib, cfg)
    ensures var items := HoldingItems(cfg);
            Refusal(cfg, Layout(items), a) ==
            match Owner(items, |items|, a)
            case None => Some(IllegalDataAddress)
            case Some(i) => if i < |cfg.controls| && cfg.controls[i].writable then None else Some(IllegalFunction)
  {
    var items := HoldingItems(cfg);
    LayoutHoldsLast(items);
    HoldingItemsSplit(cfg.controls, IterSensors(cfg), |IterSensors(cfg)|);
    var owner := Owner(items, |items|, a);
    if owner.Some? && owner.value < |cfg.controls| {
      FindDistinctControl(cfg.controls, owner.value);
    }
  }

  lemma {:induction false} FindDistinctControl(controls: seq<SimControl>, i: nat)
    requires Distinct(ControlNames(controls)) && i < |controls|
    ensures FindControl(controls, controls[i].name) == Some(controls[i])
  {
    var c := FindControl(controls, controls[i].name).value;
    var j :| 0 <= j < |controls| && controls[j] == c;
    assert ControlNames(controls)[i] == ControlNames(controls)[j];
  }

  lemma {:induction false} WordAddressesDiffer(addr: u16, i: nat, j: nat)
    requires i < j < 0x1_0000
    ensures WordAddress(addr, i) != WordAddress(addr, j)
  {
  }

  /** After an accepted multi-register write each written address reads back its word, limited
      to 100.  A request carries fewer than 65536 words. */
  lemma {:induction false} AcceptedWriteReadsBack(
    lib: Meval, wire: Wire, cfg: SimConfig, controls: Controls, vals: Valuation,
    addr: u16, words: seq<u16>, i: nat)
    requires ValidSim(lib, cfg) && i < |words| <= U16_MAX
    requires forall j :: 0 <= j < |words| ==> Refusal(cfg, Layout(HoldingItems(cfg)), WordAddress(addr, j)).None?
    ensures var holding := Layout(HoldingItems(cfg));
            var after := Applied(holding, controls, addr, words, |words|);
            HoldingWord(lib, wire, cfg, after, holding, vals, WordAddress(addr, i))
            == if words[i] > 100 then 100 else words[i]
  {
    var holding := Layout(HoldingItems(cfg));
    forall j | i < j < |words|
      ensures ControlAt(holding, WordAddress(addr, j)) != ControlAt(holding, WordAddress(addr, i))
    {
      WordAddressesDiffer(addr, i, j);
      if ControlAt(holding, WordAddress(addr, j)) == ControlAt(holding, WordAddress(addr, i)) {
        ControlHasOneAddress(lib, cfg, WordAddress(addr, i), WordAddress(addr, j));
      }
    }
    WrittenControlHolds(holding, controls, addr, words, |words|, i);
    RoundOfInt(Duty(words[i]));
  }

  /** A multi-register write, accepted or cut short after `n` words, can change the value of a
      sensor only if that sensor depends on one of the controls written. */
  lemma {:induction false} WriteChangesOnlyDependents(cfg: SimConfig, lib: Meval, controls: Controls, t: real,
                                   holding: Slots<HoldingSlot>, addr: u16, words: seq<u16>, n: nat, id: string)
    requires n <= |words| && forall i :: 0 <= i < n ==> Accepts(holding, WordAddress(addr, i))
    requires !DependsOn(cfg, lib, id, set i | 0 <= i < n :: ControlAt(holding, WordAddress(addr, i)))
    ensures AgreeAt(Meaning(cfg, Env(lib, controls, t)),
                    Meaning(cfg, Env(lib, Applied(holding, controls, addr, words, n), t)), id)
  {
    var changed := set i | 0 <= i < n :: ControlAt(holding, WordAddress(addr, i));
    var e, f := Env(lib, controls, t), Env(lib, Applied(holding, controls, addr, words, n), t);
    forall c | c !in changed ensures AgreeAt(e.controls, f.controls, c) {
      OtherControlsUnchanged(holding, controls, addr, words, n, c);
    }
    ControlWritesAreLocal(cfg, e, f, changed, id);
  }

  // ----- 32-bit values across two words -----

  /** The two words read for an `F32` sensor that owns addresses `at` and `at + 1`, put together
      with the high word first, are its bits exactly when `at` is even or its halves are equal. */
  lemma {:induction false} WordPairIsBitsIff(
    lib: Meval, wire: Wire, slots: Slots<InputSlot>, vals: Valuation, at: nat, slot: InputSlot)
    requires at + 1 < |slots| && slots[at] == slots[at + 1] == Some(slot) && slot.storage == F32
    ensures var bits := wire.bits(Lookup(vals, slot.sensorId));
            InputWord(lib, wire, slots, vals, at) * 65536 + InputWord(lib, wire, slots, vals, at + 1) == bits
            <==> at % 2 == 0 || bits / 65536 == bits % 65536
  {
    JoinHalves(wire.bits(Lookup(vals, slot.sensorId)));
  }

  lemma {:induction false} AllF32Starts(items: seq<Item<InputSlot>>, i: nat)
    requires AllAutomatic(items) && i < |items| && forall k :: 0 <= k < |items| ==> items[k].width == 2
    ensures Start(items, i) == 2 * i
  {
    if i > 0 {
      AllF32Starts(items, i - 1);
    }
  }

  /** In an input area of automatically placed `F32` sensors, sensor `i` starts at `2 * i`, and
      its two words put together are the bits of its value. */
  lemma {:induction false} InputAreaRoundTrip(lib: Meval, wire: Wire, sensors: seq<SimSensor>, vals: Valuation, i: nat)
    requires AllAutomatic(AreaItems(sensors, Input))
    requires forall k :: 0 <= k < |AreaItems(sensors, Input)| ==> AreaItems(sensors, Input)[k].width == 2
    requires i < |AreaItems(sensors, Input)|
    ensures var items := AreaItems(sensors, Input);
            && Start(items, i) == 2 * i
            && InputWord(lib, wire, Layout(items), vals, 2 * i) * 65536
               + InputWord(lib, wire, Layout(items), vals, 2 * i + 1)
               == wire.bits(Lookup(vals, items[i].slot.sensorId))
  {
    var items := AreaItems(sensors, Input);
    AllF32Starts(items, i);
    WidthIsStorage(sensors, i);
    AutomaticAreaPair(lib, wire, items, vals, i);
  }

  lemma {:induction false} AutomaticAreaPair(
    lib: Meval, wire: Wire, items: seq<Item<InputSlot>>, vals: Valuation, i: nat)
    requires AllAutomatic(items) && i < |items| && items[i].width == 2 && items[i].slot.storage == F32
    requires Start(items, i) == 2 * i
    ensures Join(InputWord(lib, wire, Layout(items), vals, 2 * i), InputWord(lib, wire, Layout(items), vals, 2 * i + 1))
            == wire.bits(Lookup(vals, items[i].slot.sensorId))
  {
    AutomaticIsDisjoint(items);
    DisjointIsIntact(items);
    IntactPairIsBits(lib, wire, items, Layout(items), vals, i);
  }

  lemma {:induction false} IntactPairIsBits(
    lib: Meval, wire: Wire, items: seq<Item<InputSlot>>, slots: Slots<InputSlot>, vals: Valuation, i: nat)
    requires Intact(items, slots) && i < |items| && items[i].width == 2 && items[i].slot.storage == F32
    requires Start(items, i) == 2 * i
    ensures Join(InputWord(lib, wire, slots, vals, 2 * i), InputWord(lib, wire, slots, vals, 2 * i + 1))
            == wire.bits(Lookup(vals, items[i].slot.sensorId))
  {
    assert Covers(items, i, 2 * i) && Covers(items, i, 2 * i + 1);
    JoinHalves(wire.bits(Lookup(vals, items[i].slot.sensorId)));
  }

  lemma {:induction false} WidthIsStorage(sensors: seq<SimSensor>, i: nat)
    requires i < |AreaItems(sensors, Input)|
    ensures AreaItems(sensors, Input)[i].width == StorageWidth(AreaItems(sensors, Input)[i].slot.storage)
  {
    var front := sensors[..|sensors| - 1];
    if i < |AreaItems(front, Input)| {
      WidthIsStorage(front, i);
    }
  }
}
