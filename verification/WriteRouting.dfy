/** Writes through the gateway: from an address of the gateway's table to the register of a device
    that is written. */
module WriteRouting {
  import opened Common
  import opened GatewayConfig
  import opened DependencyGraph
  import opened GatewayValidate
  import opened AddRegister
  import opened ModbusTable

  /** A write to a register (or coil, with value 0 or 1) of a device. */
  datatype DeviceWrite = DeviceWrite(device: string, area: RegisterFunction, address: u16, value: u16)

  // ----- The device side -----

  function FindRegister(regs: seq<RegisterConfig>, id: string): (r: Option<RegisterConfig>)
    ensures r.Some? ==> r.value in regs && r.value.sensorId == id
    ensures r.None? ==> forall x :: x in regs ==> x.sensorId != id
  {
    if regs == [] then None
    else if regs[0].sensorId == id then Some(regs[0])
    else FindRegister(regs[1..], id)
  }

  /** The register of a device to which a write for a sensor may go. */
  function WritableRegister(d: DeviceConfig, id: string, area: RegisterFunction): Option<RegisterConfig> {
    match FindRegister(d.registers, id)
    case None => None
    case Some(r) => if r.function_ != area || r.access != ReadWrite then None else Some(r)
  }

  /** The devices on the other side; `acknowledges` says which writes they confirm. */
  class Bus {
    const acknowledges: DeviceWrite -> bool
    var written: seq<DeviceWrite>

    constructor (acknowledges: DeviceWrite -> bool)
      ensures this.acknowledges == acknowledges && written == []
    {
      this.acknowledges, written := acknowledges, [];
    }

    method Write(w: DeviceWrite) returns (ok: bool)
      modifies this
      ensures ok == acknowledges(w)
      ensures written == if ok then old(written) + [w] else old(written)
    {
      ok := acknowledges(w);
      if ok {
        written := written + [w];
      }
    }
  }

  // ----- The gateway side -----

  /** Why a register write is refused without asking the device, if it is. */
  function WordRefusal(config: Config, addr: u16): Option<ExceptionCode> {
    var area := HoldingArea(config);
    if addr >= |area| || area[addr].None? then Some(IllegalDataAddress)
    else if area[addr].value.access != ReadWrite || RegisterCount(area[addr].value.valueType) != 1
    then Some(IllegalFunction)
    else None
  }

  function BitRefusal(config: Config, addr: u16): Option<ExceptionCode> {
    var area := CoilArea(config);
    if addr >= |area| || area[addr].None? then Some(IllegalDataAddress)
    else if area[addr].value.access != ReadWrite then Some(IllegalFunction)
    else None
  }

  /** The device register that a write to a holding address is resolved to. */
  function ResolveWord(config: Config, addr: u16): Option<Entry> {
    if WordRefusal(config, addr).Some? then None
    else
      var slot := HoldingArea(config)[addr].value;
      Forward(config, slot.device, slot.sensorId, Holding)
  }

  function ResolveBit(config: Config, addr: u16): Option<Entry> {
    if BitRefusal(config, addr).Some? then None
    else
      var slot := CoilArea(config)[addr].value;
      Forward(config, slot.device, slot.sensorId, Coil)
  }

  /** The broker hands the request to the loop of the named device, which looks the sensor up. */
  function Forward(config: Config, device: string, id: string, area: RegisterFunction): Option<Entry> {
    match FindDevice(config.devices, device)
    case None => None
    case Some(k) =>
      match WritableRegister(config.devices[k], id, area)
      case None => None
      case Some(r) => Some(Entry(device, r))
  }

  /** A word for a device register. */
  function WordWrite(e: Entry, word: u16): DeviceWrite {
    DeviceWrite(e.device, Holding, e.register.address, word)
  }

  /** What a multi-register write comes down to: one word at one address. */
  function Forwarded(words: seq<u16>): u16 {
    if words == [] then 0 else words[0]
  }

  predicate MultiWriteOk(config: Config, acknowledges: DeviceWrite -> bool, addr: u16, words: seq<u16>) {
    var target := ResolveWord(config, addr);
    target.Some? && acknowledges(WordWrite(target.value, Forwarded(words)))
  }

  /** The writes made for a multi-register write. */
  function MultiWritten(config: Config, acknowledges: DeviceWrite -> bool, addr: u16, words: seq<u16>)
    : seq<DeviceWrite>
  {
    if MultiWriteOk(config, acknowledges, addr, words)
    then [WordWrite(ResolveWord(config, addr).value, Forwarded(words))]
    else []
  }

  class Gateway {
    const config: Config
    const bus: Bus

    constructor (config: Config, bus: Bus)
      ensures this.config == config && this.bus == bus
    {
      this.config, this.bus := config, bus;
    }

    /** Sends a write to a device task and waits for its answer. */
    method Broker(device: string, id: string, area: RegisterFunction, value: u16) returns (ok: bool)
      modifies bus
      ensures var target := Forward(config, device, id, area);
              if target.None? then !ok && bus.written == old(bus.written)
              else
                var w := DeviceWrite(device, area, target.value.register.address, value);
                && ok == bus.acknowledges(w)
                && bus.written == if ok then old(bus.written) + [w] else old(bus.written)
    {
      var k := FindDevice(config.devices, device);
      if k.None? {
        return false;
      }
      var r := WritableRegister(config.devices[k.value], id, area);
      if r.None? {
        return false;
      }
      ok := bus.Write(DeviceWrite(device, area, r.value.address, value));
    }

    /** The word itself is written to the address of the resolved register on its device. */
    method WriteWord(addr: u16, word: u16) returns (r: Result<(), ExceptionCode>)
      modifies bus
      ensures var target := ResolveWord(config, addr);
              if target.None? then r.Err? && bus.written == old(bus.written)
              else
                var w := DeviceWrite(target.value.device, Holding, target.value.register.address, word);
                && (r.Ok? <==> bus.acknowledges(w))
                && bus.written == if r.Ok? then old(bus.written) + [w] else old(bus.written)
      ensures r.Err? ==> WordRefusal(config, addr) == Some(r.error)
                         || (WordRefusal(config, addr).None? && r.error == ServerDeviceFailure)
    {
      var table := new Table.Build(config);
      if addr >= |table.holding| || table.holding[addr].None? {
        return Err(IllegalDataAddress);
      }
      var slot := table.holding[addr].value;
      if slot.access != ReadWrite || RegisterCount(slot.valueType) != 1 {
        return Err(IllegalFunction);
      }
      var ok := Broker(slot.device, slot.sensorId, Holding, word);
      return if ok then Ok(()) else Err(ServerDeviceFailure);
    }

    method WriteBit(addr: u16, coil: bool) returns (r: Result<(), ExceptionCode>)
      modifies bus
      ensures var target := ResolveBit(config, addr);
              if target.None? then r.Err? && bus.written == old(bus.written)
              else
                var w := DeviceWrite(target.value.device, Coil, target.value.register.address, if coil then 1 else 0);
                && (r.Ok? <==> bus.acknowledges(w))
                && bus.written == if r.Ok? then old(bus.written) + [w] else old(bus.written)
      ensures r.Err? ==> BitRefusal(config, addr) == Some(r.error)
                         || (BitRefusal(config, addr).None? && r.error == ServerDeviceFailure)
    {
      var table := new Table.Build(config);
      if addr >= |table.coils| || table.coils[addr].None? {
        return Err(IllegalDataAddress);
      }
      var slot := table.coils[addr].value;
      if slot.access != ReadWrite {
        return Err(IllegalFunction);
      }
      var ok := Broker(slot.device, slot.sensorId, Coil, if coil then 1 else 0);
      return if ok then Ok(()) else Err(ServerDeviceFailure);
    }

    /** A multi-register write forwards the first word only (zero if there is none). */
    method WriteWords(addr: u16, words: seq<u16>) returns (r: Result<nat, ExceptionCode>)
      modifies bus
      ensures r.Ok? <==> MultiWriteOk(config, bus.acknowledges, addr, words)
      ensures r.Ok? ==> r.value == |words|
      ensures bus.written == old(bus.written) + MultiWritten(config, bus.acknowledges, addr, words)
      ensures r.Ok? ==>
                var target := ResolveWord(config, addr);
                && target.Some?
                && bus.written == old(bus.written) + [DeviceWrite(target.value.device, Holding,
                                                                  target.value.register.address,
                                                                  if words == [] then 0 else words[0])]
      ensures r.Err? ==> WordRefusal(config, addr) == Some(r.error)
                         || (WordRefusal(config, addr).None? && r.error == ServerDeviceFailure)
    {
      var one := WriteWord(addr, if words == [] then 0 else words[0]);
      return match one case Ok(_) => Ok(|words|) case Err(e) => Err(e);
    }
  }

  // ----- Where a write goes -----

  lemma {:induction false} IdsAreRegisterIds(devices: seq<DeviceConfig>)
    ensures IdsOf(Entries(devices)) == RegisterIds(devices)
  {
    if devices != [] {
      IdsAreRegisterIds(devices[..|devices| - 1]);
      assert IdsOf(DeviceEntries(devices[|devices| - 1])) == SensorIds(devices[|devices| - 1].registers);
    }
  }

  /** Where entry `i` of the flattened list comes from. */
  lemma {:induction false} EntryOrigin(devices: seq<DeviceConfig>, i: nat) returns (k: nat, j: nat)
    requires i < |Entries(devices)|
    ensures k < |devices| && j < |devices[k].registers|
    ensures Entries(devices)[i] == Entry(devices[k].name, devices[k].registers[j])
  {
    var n := |devices| - 1;
    if i < |Entries(devices[..n])| {
      k, j := EntryOrigin(devices[..n], i);
    } else {
      k, j := n, i - |Entries(devices[..n])|;
    }
  }

  lemma {:induction false} SameIdSameEntry(lib: Meval, config: Config, a: nat, b: nat)
    requires Valid(lib, config) && a < |Entries(config.devices)| && b < |Entries(config.devices)|
    requires Entries(config.devices)[a].register.sensorId == Entries(config.devices)[b].register.sensorId
    ensures a == b
  {
    IdsAreRegisterIds(config.devices);
    DistinctPrefix(RegisterIds(config.devices), RegisterIds(config.devices) + ComputedIds(config.computed));
    assert IdsOf(Entries(config.devices))[a] == IdsOf(Entries(config.devices))[b];
  }

  lemma {:induction false} EntryOfRegister(devices: seq<DeviceConfig>, k: nat, j: nat) returns (i: nat)
    requires k < |devices| && j < |devices[k].registers|
    ensures i < |Entries(devices)| && Entries(devices)[i] == Entry(devices[k].name, devices[k].registers[j])
  {
    var n := |devices| - 1;
    if k < n {
      i := EntryOfRegister(devices[..n], k, j);
    } else {
      i := |Entries(devices[..n])| + j;
    }
  }

  /** For a valid configuration, looking up the device by name and the register by sensor id finds
      the very register the slot was made from. */
  lemma {:induction false} ForwardFindsEntry(lib: Meval, config: Config, i: nat)
    requires Valid(lib, config) && i < |Entries(config.devices)|
    requires Entries(config.devices)[i].register.access == ReadWrite
    ensures var e := Entries(config.devices)[i];
            Forward(config, e.device, e.register.sensorId, e.register.function_) == Some(e)
  {
    var e := Entries(config.devices)[i];
    var k, j := EntryOrigin(config.devices, i);
    var found := FindDevice(config.devices, e.device).value;
    assert DeviceNames(config.devices)[found] == DeviceNames(config.devices)[k];
    assert found == k;
    assert config.devices[k].registers[j] in config.devices[k].registers;
    var r := FindRegister(config.devices[k].registers, e.register.sensorId).value;
    var j' :| 0 <= j' < |config.devices[k].registers| && config.devices[k].registers[j'] == r;
    var i' := EntryOfRegister(config.devices, k, j');
    SameIdSameEntry(lib, config, i, i');
  }

  /** A holding address resolves exactly when it is the single word of a read-write register, and
      then to that register; a read-only or longer register is refused as an illegal function. */
  lemma {:induction false} WordGoesToOwner(lib: Meval, config: Config, addr: u16, i: nat)
    requires Valid(lib, config) && i < |Entries(config.devices)|
    requires Entries(config.devices)[i].register.function_ == Holding
    requires BlockStart(Entries(config.devices), Holding, i) <= addr
             < BlockStart(Entries(config.devices), Holding, i)
               + RegisterCount(Entries(config.devices)[i].register.valueType)
    ensures var e := Entries(config.devices)[i];
            if e.register.access == ReadWrite && RegisterCount(e.register.valueType) == 1
            then ResolveWord(config, addr) == Some(e) && WordRefusal(config, addr) == None
            else ResolveWord(config, addr) == None && WordRefusal(config, addr) == Some(IllegalFunction)
  {
    var entries := Entries(config.devices);
    BlockIsContiguous(entries, Holding, i, addr - BlockStart(entries, Holding, i));
    if entries[i].register.access == ReadWrite {
      ForwardFindsEntry(lib, config, i);
    }
  }

  /** An address is refused as illegal exactly when it lies beyond all blocks. */
  lemma {:induction false} IllegalAddressIff(lib: Meval, config: Config, addr: u16)
    requires Valid(lib, config)
    ensures WordRefusal(config, addr) == Some(IllegalDataAddress) <==>
            addr >= BlockStart(Entries(config.devices), Holding, |Entries(config.devices)|)
  {
    var entries := Entries(config.devices);
    assert entries[..|entries|] == entries;
    if addr < |WordArea(entries, Holding)| {
      var i := AddressHasOwner(entries, Holding, addr);
      WordGoesToOwner(lib, config, addr, i);
    }
  }

  /** No read-only, multi-word or non-holding register is ever written by a register write, and the
      register written is the one whose table slot is at the address. */
  lemma {:induction false} ResolvedWordIsOwner(lib: Meval, config: Config, addr: u16) returns (i: nat)
    requires Valid(lib, config) && ResolveWord(config, addr).Some?
    ensures i < |Entries(config.devices)| && ResolveWord(config, addr) == Some(Entries(config.devices)[i])
    ensures var r := Entries(config.devices)[i].register;
            r.function_ == Holding && r.access == ReadWrite && RegisterCount(r.valueType) == 1
    ensures BlockStart(Entries(config.devices), Holding, i) == addr
  {
    i := AddressHasOwner(Entries(config.devices), Holding, addr);
    WordGoesToOwner(lib, config, addr, i);
  }

  /** Two registers of a valid configuration with the same device, area and address are one. */
  lemma {:induction false} SameTargetSameEntry(lib: Meval, config: Config, a: nat, b: nat)
    requires Valid(lib, config) && a < |Entries(config.devices)| && b < |Entries(config.devices)|
    requires var x, y := Entries(config.devices)[a], Entries(config.devices)[b];
             && x.device == y.device
             && x.register.function_ == y.register.function_
             && x.register.address == y.register.address
    ensures a == b
  {
    var k, j := EntryOrigin(config.devices, a);
    var k', j' := EntryOrigin(config.devices, b);
    assert DeviceNames(config.devices)[k] == DeviceNames(config.devices)[k'];
    assert k == k';
    var regs := config.devices[k].registers;
    assert config.devices[k] in config.devices;
    assert RegistersOk(regs);
    forall p, q | 0 <= p < q < |regs| && regs[p].function_ == regs[q].function_
      ensures regs[p].address != regs[q].address
    {
      assert !Clash(RangeOf(regs[q]), RangeOf(regs[p]));
    }
    assert j == j';
    SameIdSameEntry(lib, config, a, b);
  }

  /** Writes through different gateway addresses reach different device registers. */
  lemma {:induction false} DistinctWordsDistinctTargets(lib: Meval, config: Config, a: u16, b: u16, v: u16, w: u16)
    requires Valid(lib, config) && a != b && ResolveWord(config, a).Some? && ResolveWord(config, b).Some?
    ensures var x, y := WordWrite(ResolveWord(config, a).value, v), WordWrite(ResolveWord(config, b).value, w);
            (x.device, x.area, x.address) != (y.device, y.area, y.address)
  {
    var i := ResolvedWordIsOwner(lib, config, a);
    var j := ResolvedWordIsOwner(lib, config, b);
    var x, y := WordWrite(ResolveWord(config, a).value, v), WordWrite(ResolveWord(config, b).value, w);
    if (x.device, x.area, x.address) == (y.device, y.area, y.address) {
      SameTargetSameEntry(lib, config, i, j);
    }
  }

  // ----- Coils -----

  lemma {:induction false} BitHasOwner(entries: seq<Entry>, f: RegisterFunction, a: nat) returns (i: nat)
    requires a < |BitArea(entries, f)|
    ensures i < |entries| && entries[i].register.function_ == f && |BitArea(entries[..i], f)| == a
    ensures BitArea(entries, f)[a] ==
            Some(SlotBit(entries[i].register.sensorId, entries[i].device, entries[i].register.access))
  {
    var n := |entries| - 1;
    if a < |BitArea(entries[..n], f)| {
      i := BitHasOwner(entries[..n], f, a);
      assert entries[..n][..i] == entries[..i];
    } else {
      i := n;
    }
  }

  /** A coil address resolves exactly when the coil there is read-write, and then to that coil;
      a read-only coil is refused as an illegal function. */
  lemma {:induction false} CoilGoesToOwner(lib: Meval, config: Config, addr: u16) returns (i: nat)
    requires Valid(lib, config) && addr < |CoilArea(config)|
    ensures i < |Entries(config.devices)| && |BitArea(Entries(config.devices)[..i], Coil)| == addr
    ensures var e := Entries(config.devices)[i];
            && e.register.function_ == Coil
            && if e.register.access == ReadWrite
               then ResolveBit(config, addr) == Some(e) && BitRefusal(config, addr) == None
               else ResolveBit(config, addr) == None && BitRefusal(config, addr) == Some(IllegalFunction)
  {
    i := BitHasOwner(Entries(config.devices), Coil, addr);
    if Entries(config.devices)[i].register.access == ReadWrite {
      ForwardFindsEntry(lib, config, i);
    }
  }

  /** A coil address is refused as illegal exactly when it lies beyond all coils. */
  lemma {:induction false} IllegalCoilIff(lib: Meval, config: Config, addr: u16)
    requires Valid(lib, config)
    ensures BitRefusal(config, addr) == Some(IllegalDataAddress) <==> addr >= |CoilArea(config)|
  {
    if addr < |CoilArea(config)| {
      var i := CoilGoesToOwner(lib, config, addr);
    }
  }

  lemma {:induction false} DistinctCoilsDistinctTargets(lib: Meval, config: Config, a: u16, b: u16)
    requires Valid(lib, config) && a != b && ResolveBit(config, a).Some? && ResolveBit(config, b).Some?
    ensures var x, y := ResolveBit(config, a).value, ResolveBit(config, b).value;
            x.device != y.device || x.register.address != y.register.address
  {
    var i := CoilGoesToOwner(lib, config, a);
    var j := CoilGoesToOwner(lib, config, b);
    var x, y := ResolveBit(config, a).value, ResolveBit(config, b).value;
    if x.device == y.device && x.register.address == y.register.address {
      SameTargetSameEntry(lib, config, i, j);
    }
  }

  // ----- Every writable register has an address -----

  /** A read-write single-word holding register has an address in the table that resolves to it: to
      its device's name and its own address there. */
  lemma {:induction false} HoldingIsReached(lib: Meval, config: Config, k: nat, j: nat) returns (addr: nat)
    requires Valid(lib, config) && k < |config.devices| && j < |config.devices[k].registers|
    requires var r := config.devices[k].registers[j];
             r.function_ == Holding && r.access == ReadWrite && r.valueType in {U16, I16, Bool}
    ensures var d, r := config.devices[k], config.devices[k].registers[j];
            && addr < |HoldingArea(config)|
            && HoldingArea(config)[addr] == Some(SlotWord(r.sensorId, d.name, r.valueType, r.wordOrder, 0, ReadWrite))
            && (addr <= U16_MAX ==>
                  ResolveWord(config, addr).Some?
                  && ResolveWord(config, addr).value.device == d.name
                  && ResolveWord(config, addr).value.register == r)
  {
    var entries := Entries(config.devices);
    var i := EntryOfRegister(config.devices, k, j);
    addr := BlockStart(entries, Holding, i);
    BlockIsContiguous(entries, Holding, i, 0);
    if addr <= U16_MAX {
      WordGoesToOwner(lib, config, addr, i);
    }
  }

  lemma {:induction false} CoilIsReached(lib: Meval, config: Config, k: nat, j: nat) returns (addr: nat)
    requires Valid(lib, config) && k < |config.devices| && j < |config.devices[k].registers|
    requires var r := config.devices[k].registers[j]; r.function_ == Coil && r.access == ReadWrite
    ensures var d, r := config.devices[k], config.devices[k].registers[j];
            && addr < |CoilArea(config)| && CoilArea(config)[addr] == Some(SlotBit(r.sensorId, d.name, ReadWrite))
            && (addr <= U16_MAX ==>
                  ResolveBit(config, addr).Some?
                  && ResolveBit(config, addr).value.device == d.name
                  && ResolveBit(config, addr).value.register == r)
  {
    var entries := Entries(config.devices);
    var i := EntryOfRegister(config.devices, k, j);
    var p, e, q := entries[..i], entries[i], entries[i + 1..];
    assert entries == p + [e] + q;
    BitAreaAppend(p + [e], q, Coil);
    assert (p + [e])[..i] == p;
    addr := |BitArea(p, Coil)|;
    ForwardFindsEntry(lib, config, i);
  }

  // ----- Multi-register writes -----

  /** What a client asks for with word `i` of a multi-register write: that word for the register
      whose table slot is at its own address, if there is one. */
  function Requested(config: Config, addr: u16, words: seq<u16>, i: nat): Option<DeviceWrite>
    requires i < |words|
  {
    if addr + i > U16_MAX then None
    else
      match ResolveWord(config, addr + i)
      case None => None
      case Some(e) => Some(DeviceWrite(e.device, Holding, e.register.address, words[i]))
  }

  predicate SameRegister(x: DeviceWrite, y: DeviceWrite) {
    (x.device, x.area, x.address) == (y.device, y.area, y.address)
  }

  /** The writes made are what was asked for: every word is written to its register, and nothing
      else is. */
  ghost predicate Delivers(config: Config, addr: u16, words: seq<u16>, made: seq<DeviceWrite>) {
    && (forall i :: 0 <= i < |words| ==>
          Requested(config, addr, words, i).Some? && Requested(config, addr, words, i).value in made)
    && (forall w :: w in made ==> exists i :: 0 <= i < |words| && Requested(config, addr, words, i) == Some(w))
  }

  /** A multi-register write never reaches the register of any word after the first. */
  lemma {:induction false} LaterWordsNotWritten(
    lib: Meval, config: Config, acknowledges: DeviceWrite -> bool, addr: u16, words: seq<u16>, i: nat)
    requires Valid(lib, config) && 0 < i < |words| && Requested(config, addr, words, i).Some?
    ensures forall w :: w in MultiWritten(config, acknowledges, addr, words) ==>
                          !SameRegister(w, Requested(config, addr, words, i).value)
  {
    if MultiWriteOk(config, acknowledges, addr, words) {
      DistinctWordsDistinctTargets(lib, config, addr, addr + i, Forwarded(words), words[i]);
    }
  }

  /** An acknowledged multi-register write did what was asked exactly when it has one word; more
      words are lost, and without any a zero is written. */
  lemma {:induction false} MultiWriteIsCompleteIff(
    lib: Meval, config: Config, acknowledges: DeviceWrite -> bool, addr: u16, words: seq<u16>)
    requires Valid(lib, config) && MultiWriteOk(config, acknowledges, addr, words)
    ensures Delivers(config, addr, words, MultiWritten(config, acknowledges, addr, words)) <==> |words| == 1
  {
    var made := MultiWritten(config, acknowledges, addr, words);
    assert made[0] in made;
    if |words| == 1 {
      assert Requested(config, addr, words, 0) == Some(made[0]);
    } else if |words| > 1 && Requested(config, addr, words, 1).Some? {
      LaterWordsNotWritten(lib, config, acknowledges, addr, words, 1);
    }
  }
}
