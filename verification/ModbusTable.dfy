/** The gateway's own register table: four areas, one block of addresses per sensor, and the words
    served from it. */
module ModbusTable {
  import opened Common
  import opened GatewayConfig
  import opened Numbers
  import opened DependencyGraph
  import opened Codec

  datatype SlotWord = SlotWord(
    sensorId: string,
    device: string,
    valueType: ValueType,
    wordOrder: WordOrder,
    wordIndex: nat,
    access: Access)

  datatype SlotBit = SlotBit(sensorId: string, device: string, access: Access)

  type Words = seq<Option<SlotWord>>

  type Bits = seq<Option<SlotBit>>

  /** A register together with the name of its device. */
  datatype Entry = Entry(device: string, register: RegisterConfig)

  function DeviceEntries(d: DeviceConfig): seq<Entry> {
    seq(|d.registers|, i requires 0 <= i < |d.registers| => Entry(d.name, d.registers[i]))
  }

  /** All registers in configuration order. */
  function Entries(devices: seq<DeviceConfig>): seq<Entry> {
    if devices == [] then [] else Entries(devices[..|devices| - 1]) + DeviceEntries(devices[|devices| - 1])
  }

  /** The consecutive words of one value. */
  function Block(sensorId: string, device: string, t: ValueType, order: WordOrder, access: Access): Words {
    seq(RegisterCount(t), i requires 0 <= i < RegisterCount(t) => Some(SlotWord(sensorId, device, t, order, i, access)))
  }

  function EntryBlock(e: Entry): Words {
    Block(e.register.sensorId, e.device, e.register.valueType, e.register.wordOrder, e.register.access)
  }

  /** The blocks of the registers of one word area, in order. */
  function WordArea(entries: seq<Entry>, f: RegisterFunction): Words {
    if entries == [] then []
    else
      var e, before := entries[|entries| - 1], WordArea(entries[..|entries| - 1], f);
      if e.register.function_ == f then before + EntryBlock(e) else before
  }

  function BitArea(entries: seq<Entry>, f: RegisterFunction): Bits {
    if entries == [] then []
    else
      var e, before := entries[|entries| - 1], BitArea(entries[..|entries| - 1], f);
      if e.register.function_ == f then before + [Some(SlotBit(e.register.sensorId, e.device, e.register.access))]
      else before
  }

  function ComputedBlock(c: ComputedConfig): Words {
    Block(c.sensorId, "", F32, Big, Read)
  }

  /** Computed sensors are read-only binary32 inputs. */
  function ComputedArea(computed: seq<ComputedConfig>): Words {
    if computed == [] then []
    else ComputedArea(computed[..|computed| - 1]) + ComputedBlock(computed[|computed| - 1])
  }

  function InputArea(config: Config): Words {
    WordArea(Entries(config.devices), Input) + ComputedArea(config.computed)
  }

  function HoldingArea(config: Config): Words {
    WordArea(Entries(config.devices), Holding)
  }

  function CoilArea(config: Config): Bits {
    BitArea(Entries(config.devices), Coil)
  }

  method AppendWords(area: Words, sensorId: string, device: string, t: ValueType, order: WordOrder, access: Access)
    returns (r: Words)
    ensures r == area + Block(sensorId, device, t, order, access)
  {
    r := area;
    for i := 0 to RegisterCount(t)
      invariant r == area + Block(sensorId, device, t, order, access)[..i]
    {
      r := r + [Some(SlotWord(sensorId, device, t, order, i, access))];
    }
  }

  class Table {
    var coils: Bits
    var discreteInputs: Bits
    var holding: Words
    var inputs: Words

    ghost predicate Holds(entries: seq<Entry>, computed: seq<ComputedConfig>)
      reads this
    {
      && coils == BitArea(entries, Coil)
      && discreteInputs == BitArea(entries, DiscreteInput)
      && holding == WordArea(entries, Holding)
      && inputs == WordArea(entries, Input) + ComputedArea(computed)
    }

    constructor Build(config: Config)
      ensures Holds(Entries(config.devices), config.computed)
    {
      coils, discreteInputs, holding, inputs := [], [], [], [];
      new;
      ghost var sofar: seq<Entry> := [];
      for d := 0 to |config.devices|
        invariant sofar == Entries(config.devices[..d]) && Holds(sofar, [])
      {
        AppendDevice(config.devices[d], sofar);
        assert config.devices[..d + 1][..d] == config.devices[..d];
        sofar := sofar + DeviceEntries(config.devices[d]);
      }
      assert config.devices[..|config.devices|] == config.devices;
      AppendComputed(config.computed, sofar);
    }

    method AppendComputed(computed: seq<ComputedConfig>, ghost entries: seq<Entry>)
      requires Holds(entries, [])
      modifies this
      ensures Holds(entries, computed)
    {
      ghost var registers := inputs;
      for k := 0 to |computed|
        invariant inputs == registers + ComputedArea(computed[..k])
        invariant coils == old(coils) && discreteInputs == old(discreteInputs) && holding == old(holding)
      {
        var c := computed[k];
        assert computed[..k + 1][..k] == computed[..k];
        inputs := AppendWords(inputs, c.sensorId, "", F32, Big, Read);
      }
      assert computed[..|computed|] == computed;
    }

    method AppendDevice(d: DeviceConfig, ghost before: seq<Entry>)
      requires Holds(before, [])
      modifies this
      ensures Holds(before + DeviceEntries(d), [])
    {
      assert before + DeviceEntries(d)[..0] == before;
      for i := 0 to |d.registers|
        invariant Holds(before + DeviceEntries(d)[..i], [])
      {
        ghost var sofar := before + DeviceEntries(d)[..i];
        assert before + DeviceEntries(d)[..i + 1] == sofar + [DeviceEntries(d)[i]];
        AppendRegister(d.name, d.registers[i], sofar);
      }
      assert DeviceEntries(d)[..|d.registers|] == DeviceEntries(d);
    }

    method AppendRegister(device: string, r: RegisterConfig, ghost before: seq<Entry>)
      requires Holds(before, [])
      modifies this
      ensures Holds(before + [Entry(device, r)], [])
    {
      assert (before + [Entry(device, r)])[..|before|] == before;
      match r.function_
      case Coil => coils := coils + [Some(SlotBit(r.sensorId, device, r.access))];
      case DiscreteInput => discreteInputs := discreteInputs + [Some(SlotBit(r.sensorId, device, r.access))];
      case Holding => holding := AppendWords(holding, r.sensorId, device, r.valueType, r.wordOrder, r.access);
      case Input => inputs := AppendWords(inputs, r.sensorId, device, r.valueType, r.wordOrder, r.access);
    }
  }

  // ----- The layout -----

  /** The address at which the block of entry `i` starts in area `f`. */
  function BlockStart(entries: seq<Entry>, f: RegisterFunction, i: nat): nat
    requires i <= |entries|
  {
    |WordArea(entries[..i], f)|
  }

  lemma {:induction false} WordAreaAppend(p: seq<Entry>, q: seq<Entry>, f: RegisterFunction)
    ensures WordArea(p + q, f) == WordArea(p, f) + WordArea(q, f)
  {
    if q == [] {
      assert p + q == p;
    } else {
      var front := q[..|q| - 1];
      assert (p + q)[..|p + q| - 1] == p + front;
      WordAreaAppend(p, front, f);
    }
  }

  lemma {:induction false} BitAreaAppend(p: seq<Entry>, q: seq<Entry>, f: RegisterFunction)
    ensures BitArea(p + q, f) == BitArea(p, f) + BitArea(q, f)
  {
    if q == [] {
      assert p + q == p;
    } else {
      var front := q[..|q| - 1];
      assert (p + q)[..|p + q| - 1] == p + front;
      BitAreaAppend(p, front, f);
    }
  }

  lemma {:induction false} AreaOfOne(e: Entry, f: RegisterFunction)
    ensures WordArea([e], f) == if e.register.function_ == f then EntryBlock(e) else []
    ensures BitArea([e], f) ==
            if e.register.function_ == f then [Some(SlotBit(e.register.sensorId, e.device, e.register.access))] else []
  {
    assert [e][..0] == [];
  }

  /** Each register of a word area owns as many consecutive addresses as its type takes, numbered
      from zero, where the blocks before it end. */
  lemma {:induction false} BlockIsContiguous(entries: seq<Entry>, f: RegisterFunction, i: nat, k: nat)
    requires i < |entries| && entries[i].register.function_ == f && k < RegisterCount(entries[i].register.valueType)
    ensures var r, at := entries[i].register, BlockStart(entries, f, i) + k;
            && at < |WordArea(entries, f)|
            && WordArea(entries, f)[at]
               == Some(SlotWord(r.sensorId, entries[i].device, r.valueType, r.wordOrder, k, r.access))
    ensures BlockStart(entries, f, i + 1) == BlockStart(entries, f, i) + RegisterCount(entries[i].register.valueType)
  {
    var p, e, q := entries[..i], entries[i], entries[i + 1..];
    assert entries[..i + 1] == p + [e] && entries == p + [e] + q;
    WordAreaAppend(p, [e], f);
    WordAreaAppend(p + [e], q, f);
    AreaOfOne(e, f);
  }

  /** Conversely every address of a word area belongs to the block of one register. */
  lemma {:induction false} AddressHasOwner(entries: seq<Entry>, f: RegisterFunction, a: nat) returns (i: nat)
    requires a < |WordArea(entries, f)|
    ensures i < |entries| && entries[i].register.function_ == f
    ensures BlockStart(entries, f, i) <= a < BlockStart(entries, f, i) + RegisterCount(entries[i].register.valueType)
  {
    var n := |entries| - 1;
    if a < |WordArea(entries[..n], f)| {
      i := AddressHasOwner(entries[..n], f, a);
      assert entries[..n][..i] == entries[..i];
    } else {
      i := n;
    }
  }

  /** The address in the input area at which the block of computed sensor `k` starts. */
  function ComputedStart(config: Config, k: nat): nat {
    |WordArea(Entries(config.devices), Input)| + 2 * k
  }

  lemma {:induction false} ComputedAreaAt(computed: seq<ComputedConfig>, k: nat)
    requires k < |computed|
    ensures |ComputedArea(computed)| == 2 * |computed|
    ensures ComputedArea(computed)[2 * k..2 * k + 2] == ComputedBlock(computed[k])
  {
    var n := |computed| - 1;
    if k < n {
      ComputedAreaAt(computed[..n], k);
      assert ComputedArea(computed)[2 * k..2 * k + 2] == ComputedArea(computed[..n])[2 * k..2 * k + 2];
    } else if n > 0 {
      ComputedAreaAt(computed[..n], n - 1);
    }
  }

  /** In the served input area each computed sensor owns the two addresses after those of the
      registers and of the computed sensors before it. */
  lemma {:induction false} ComputedBlockIsContiguous(config: Config, k: nat)
    requires k < |config.computed|
    ensures ComputedStart(config, k) + 2 <= |InputArea(config)|
    ensures InputArea(config)[ComputedStart(config, k)..ComputedStart(config, k) + 2] ==
            [Some(SlotWord(config.computed[k].sensorId, "", F32, Big, 0, Read)),
             Some(SlotWord(config.computed[k].sensorId, "", F32, Big, 1, Read))]
  {
    var registers, at := WordArea(Entries(config.devices), Input), 2 * k;
    ComputedAreaAt(config.computed, k);
    assert (registers + ComputedArea(config.computed))[|registers| + at..|registers| + at + 2] ==
           ComputedArea(config.computed)[at..at + 2];
  }

  /** Whose address an address of the input area is. */
  datatype InputOwner = OfRegister(i: nat) | OfComputed(k: nat)

  /** Every address of the served input area belongs to the block of one register or of one
      computed sensor. */
  lemma {:induction false} InputAddressHasOwner(config: Config, a: nat) returns (owner: InputOwner)
    requires a < |InputArea(config)|
    ensures match owner
            case OfRegister(i) =>
              var entries := Entries(config.devices);
              && i < |entries| && entries[i].register.function_ == Input
              && BlockStart(entries, Input, i) <= a
                 < BlockStart(entries, Input, i) + RegisterCount(entries[i].register.valueType)
            case OfComputed(k) =>
              k < |config.computed| && ComputedStart(config, k) <= a < ComputedStart(config, k) + 2
  {
    var registers := WordArea(Entries(config.devices), Input);
    if a < |registers| {
      var i := AddressHasOwner(Entries(config.devices), Input, a);
      owner := OfRegister(i);
    } else {
      if config.computed != [] {
        ComputedAreaAt(config.computed, 0);
      }
      owner := OfComputed((a - |registers|) / 2);
    }
  }

  /** Inserting one register anywhere inserts one block in its own area and leaves the other areas
      as they were. */
  lemma {:induction false} InsertionInsertsOneBlock(p: seq<Entry>, x: Entry, q: seq<Entry>, f: RegisterFunction)
    ensures WordArea(p + q, f) == WordArea(p, f) + WordArea(q, f)
    ensures WordArea(p + [x] + q, f) ==
            if x.register.function_ == f then WordArea(p, f) + EntryBlock(x) + WordArea(q, f) else WordArea(p + q, f)
    ensures BitArea(p + [x] + q, f) ==
            if x.register.function_ == f
            then BitArea(p, f) + [Some(SlotBit(x.register.sensorId, x.device, x.register.access))] + BitArea(q, f)
            else BitArea(p + q, f)
  {
    WordAreaAppend(p, q, f);
    WordAreaAppend(p, [x], f);
    WordAreaAppend(p + [x], q, f);
    BitAreaAppend(p, q, f);
    BitAreaAppend(p, [x], f);
    BitAreaAppend(p + [x], q, f);
    AreaOfOne(x, f);
  }

  ghost predicate KeepsAddresses<T>(before: seq<T>, after: seq<T>) {
    forall a :: 0 <= a < |before| ==> a < |after| && after[a] == before[a]
  }

  /** Inserting a block that starts with something new keeps what was there exactly when nothing
      followed. */
  lemma {:induction false} InsertKeepsIff<T>(a: seq<T>, block: seq<T>, tail: seq<T>, before: seq<T>, after: seq<T>)
    requires block != [] && block[0] !in tail
    requires before == a + tail && after == a + block + tail
    ensures KeepsAddresses(before, after) <==> tail == []
  {
    if tail != [] {
      assert before[|a|] == tail[0];
      assert after[|a|] == block[0];
    }
  }

  /** A word area as it is served: among the inputs the computed sensors follow the registers. */
  function ServedWords(entries: seq<Entry>, computed: seq<ComputedConfig>, f: RegisterFunction): Words {
    WordArea(entries, f) + if f == Input then ComputedArea(computed) else []
  }

  function IdsOf(entries: seq<Entry>): seq<string> {
    seq(|entries|, i requires 0 <= i < |entries| => entries[i].register.sensorId)
  }

  lemma {:induction false} WordAreaIds(entries: seq<Entry>, f: RegisterFunction, slot: SlotWord)
    requires Some(slot) in WordArea(entries, f)
    ensures slot.sensorId in IdsOf(entries)
  {
    var n := |entries| - 1;
    assert IdsOf(entries) == IdsOf(entries[..n]) + [entries[n].register.sensorId];
    if Some(slot) in WordArea(entries[..n], f) {
      WordAreaIds(entries[..n], f, slot);
    }
  }

  lemma {:induction false} BitAreaIds(entries: seq<Entry>, f: RegisterFunction, slot: SlotBit)
    requires Some(slot) in BitArea(entries, f)
    ensures slot.sensorId in IdsOf(entries)
  {
    var n := |entries| - 1;
    assert IdsOf(entries) == IdsOf(entries[..n]) + [entries[n].register.sensorId];
    if Some(slot) in BitArea(entries[..n], f) {
      BitAreaIds(entries[..n], f, slot);
    }
  }

  lemma {:induction false} ComputedAreaIds(computed: seq<ComputedConfig>, slot: SlotWord)
    requires Some(slot) in ComputedArea(computed)
    ensures slot.sensorId in ComputedIds(computed)
  {
    var n := |computed| - 1;
    assert ComputedIds(computed) == ComputedIds(computed[..n]) + [computed[n].sensorId];
    if Some(slot) in ComputedArea(computed[..n]) {
      ComputedAreaIds(computed[..n], slot);
    }
  }

  /** Some register of the list is in area `f`. */
  ghost predicate Uses(entries: seq<Entry>, f: RegisterFunction) {
    exists i :: 0 <= i < |entries| && entries[i].register.function_ == f
  }

  lemma {:induction false} AreaEmptyIff(entries: seq<Entry>, f: RegisterFunction)
    ensures WordArea(entries, f) == [] <==> !Uses(entries, f)
    ensures BitArea(entries, f) == [] <==> !Uses(entries, f)
  {
    if entries != [] {
      var n := |entries| - 1;
      AreaEmptyIff(entries[..n], f);
      assert entries[n].register.function_ == f ==> EntryBlock(entries[n]) != [];
      assert Uses(entries, f) <==> Uses(entries[..n], f) || entries[n].register.function_ == f by {
        if Uses(entries[..n], f) {
          var i :| 0 <= i < n && entries[..n][i].register.function_ == f;
          assert entries[i].register.function_ == f;
        } else if Uses(entries, f) {
          var i :| 0 <= i < |entries| && entries[i].register.function_ == f;
          assert i < n ==> entries[..n][i].register.function_ == f;
        }
      }
    }
  }

  lemma {:induction false} BlockIsNew(x: Entry, q: seq<Entry>, computed: seq<ComputedConfig>, f: RegisterFunction)
    requires x.register.sensorId !in IdsOf(q) && x.register.sensorId !in ComputedIds(computed)
    ensures EntryBlock(x) != [] && EntryBlock(x)[0] !in ServedWords(q, computed, f)
  {
    var first := EntryBlock(x)[0];
    assert first.value.sensorId == x.register.sensorId;
    if first in WordArea(q, f) {
      WordAreaIds(q, f, first.value);
    }
    if first in ComputedArea(computed) {
      ComputedAreaIds(computed, first.value);
    }
  }

  lemma {:induction false} ServedEmptyIff(q: seq<Entry>, computed: seq<ComputedConfig>, f: RegisterFunction)
    ensures ServedWords(q, computed, f) == [] <==> !(Uses(q, f) || (f == Input && computed != []))
  {
    AreaEmptyIff(q, f);
    ComputedAreaEmpty(computed);
  }

  lemma {:induction false} Associative<T>(a: seq<T>, b: seq<T>, c: seq<T>)
    ensures a + b + c == a + (b + c)
  {
  }

  lemma {:induction false} ServedInsertion(
    p: seq<Entry>, x: Entry, q: seq<Entry>, computed: seq<ComputedConfig>, f: RegisterFunction)
    ensures ServedWords(p + q, computed, f) == WordArea(p, f) + ServedWords(q, computed, f)
    ensures x.register.function_ == f ==>
              ServedWords(p + [x] + q, computed, f) == WordArea(p, f) + EntryBlock(x) + ServedWords(q, computed, f)
    ensures x.register.function_ != f ==>
              ServedWords(p + [x] + q, computed, f) == ServedWords(p + q, computed, f)
  {
    var last := if f == Input then ComputedArea(computed) else [];
    InsertionInsertsOneBlock(p, x, q, f);
    Associative(WordArea(p, f), WordArea(q, f), last);
    Associative(WordArea(p, f) + EntryBlock(x), WordArea(q, f), last);
  }

  /** Inserting a new register before others keeps the addresses of a served word area exactly when
      it is in another area or nothing of that area follows, computed sensors included. */
  lemma {:induction false} InsertRegisterKeepsIff(
    p: seq<Entry>, x: Entry, q: seq<Entry>, computed: seq<ComputedConfig>, f: RegisterFunction)
    requires x.register.sensorId !in IdsOf(q) && x.register.sensorId !in ComputedIds(computed)
    ensures KeepsAddresses(ServedWords(p + q, computed, f), ServedWords(p + [x] + q, computed, f))
            <==> x.register.function_ != f || !(Uses(q, f) || (f == Input && computed != []))
  {
    ServedInsertion(p, x, q, computed, f);
    if x.register.function_ == f {
      ServedEmptyIff(q, computed, f);
      BlockIsNew(x, q, computed, f);
      InsertKeepsIff(WordArea(p, f), EntryBlock(x), ServedWords(q, computed, f),
                     ServedWords(p + q, computed, f), ServedWords(p + [x] + q, computed, f));
    }
  }

  /** The same for a bit area. */
  lemma {:induction false} InsertRegisterKeepsBitsIff(p: seq<Entry>, x: Entry, q: seq<Entry>, f: RegisterFunction)
    requires x.register.sensorId !in IdsOf(q)
    ensures KeepsAddresses(BitArea(p + q, f), BitArea(p + [x] + q, f)) <==> x.register.function_ != f || !Uses(q, f)
  {
    InsertionInsertsOneBlock(p, x, q, f);
    BitAreaAppend(p, q, f);
    if x.register.function_ == f {
      var slot := SlotBit(x.register.sensorId, x.device, x.register.access);
      AreaEmptyIff(q, f);
      if Some(slot) in BitArea(q, f) {
        BitAreaIds(q, f, slot);
      }
      InsertKeepsIff(BitArea(p, f), [Some(slot)], BitArea(q, f), BitArea(p + q, f), BitArea(p + [x] + q, f));
    }
  }

  lemma {:induction false} ComputedAreaEmpty(computed: seq<ComputedConfig>)
    ensures ComputedArea(computed) == [] <==> computed == []
  {
  }

  lemma {:induction false} ComputedAreaSnoc(computed: seq<ComputedConfig>, c: ComputedConfig)
    ensures ComputedArea(computed + [c]) == ComputedArea(computed) + ComputedBlock(c)
  {
    assert (computed + [c])[..|computed|] == computed;
  }

  /** Appending a computed sensor keeps every address. */
  lemma {:induction false} AppendComputedKeepsAddresses(config: Config, c: ComputedConfig)
    ensures KeepsAddresses(InputArea(config), InputArea(config.(computed := config.computed + [c])))
    ensures HoldingArea(config) == HoldingArea(config.(computed := config.computed + [c]))
  {
    var after := config.(computed := config.computed + [c]);
    ComputedAreaSnoc(config.computed, c);
    assert after.devices == config.devices;
    assert InputArea(after) == InputArea(config) + ComputedBlock(c);
  }

  // ----- Reading -----

  datatype ExceptionCode = IllegalFunction | IllegalDataAddress | ServerDeviceFailure

  /** The latest values, by sensor id. */
  type Values = string -> Option<F64>

  const PLACEHOLDER: F64 := Finite(0xFFFF as real)

  function ValueOr(values: Values, id: string, default: F64): F64 {
    match values(id)
    case Some(v) => v
    case None => default
  }

  function WordOf(f: Float32, values: Values, slot: Option<SlotWord>): u16 {
    match slot
    case None => 0xFFFF
    case Some(s) =>
      var words := EncodeValue(f, ValueOr(values, s.sensorId, PLACEHOLDER), s.valueType, s.wordOrder);
      if s.wordIndex < |words| then words[s.wordIndex] else 0xFFFF
  }

  function WordsOf(f: Float32, values: Values, area: Words): seq<u16> {
    seq(|area|, i requires 0 <= i < |area| => WordOf(f, values, area[i]))
  }

  method ReadWords(f: Float32, values: Values, area: Words, addr: u16, cnt: u16)
    returns (r: Result<seq<u16>, ExceptionCode>)
    ensures r == if addr + cnt > |area| then Err(IllegalDataAddress) else Ok(WordsOf(f, values, area[addr..addr + cnt]))
  {
    if addr + cnt > |area| {
      return Err(IllegalDataAddress);
    }
    var out: seq<u16> := [];
    for i := 0 to cnt
      invariant out == WordsOf(f, values, area[addr..addr + i])
    {
      out := out + [WordOf(f, values, area[addr + i])];
    }
    return Ok(out);
  }

  /** Bits outside the area, or without a value, read as off. */
  method ReadBits(values: Values, area: Bits, addr: u16, cnt: u16) returns (out: seq<bool>)
    ensures |out| == cnt
    ensures forall i :: 0 <= i < cnt ==>
                          (out[i] <==> && addr + i < |area| && area[addr + i].Some?
                                       && var v := values(area[addr + i].value.sensorId);
                                          v.Some? && v.value != Finite(0.0) && v.value != NegZero)
  {
    out := [];
    for i := 0 to cnt
      invariant |out| == i
      invariant forall j :: 0 <= j < i ==>
                              (out[j] <==> addr + j < |area| && area[addr + j].Some?
                                           && NonZero(ValueOr(values, area[addr + j].value.sensorId, Finite(0.0))))
    {
      if addr + i < |area| && area[addr + i].Some? {
        out := out + [NonZero(ValueOr(values, area[addr + i].value.sensorId, Finite(0.0)))];
      } else {
        out := out + [false];
      }
    }
  }

  lemma {:induction false} BlockReadsEncoded(f: Float32, values: Values, id: string, device: string,
                                             t: ValueType, order: WordOrder, access: Access)
    ensures WordsOf(f, values, Block(id, device, t, order, access)) ==
            EncodeValue(f, ValueOr(values, id, PLACEHOLDER), t, order)
  {
    DecodeEncode(f, ValueOr(values, id, PLACEHOLDER), t, order);
  }

  lemma {:induction false} SpanIsBlock(entries: seq<Entry>, g: RegisterFunction, i: nat)
    requires i < |entries| && entries[i].register.function_ == g
    ensures var start, n := BlockStart(entries, g, i), RegisterCount(entries[i].register.valueType);
            && start + n <= |WordArea(entries, g)|
            && WordArea(entries, g)[start..start + n] == EntryBlock(entries[i])
  {
    var start, n := BlockStart(entries, g, i), RegisterCount(entries[i].register.valueType);
    BlockIsContiguous(entries, g, i, n - 1);
    forall k | 0 <= k < n ensures WordArea(entries, g)[start + k] == EntryBlock(entries[i])[k] {
      BlockIsContiguous(entries, g, i, k);
    }
  }

  /** Reading the whole span of a register from the table and decoding it with its own type and
      word order gives its stored value, or 65535 without one, rounded and limited to the type's
      range. */
  lemma {:induction false} SpanDecodesToHeld(
    f: Float32, values: Values, entries: seq<Entry>, g: RegisterFunction, i: nat)
    requires i < |entries| && entries[i].register.function_ == g
    ensures var r, start := entries[i].register, BlockStart(entries, g, i);
            && start + RegisterCount(r.valueType) <= |WordArea(entries, g)|
            && var words := WordsOf(f, values, WordArea(entries, g)[start..start + RegisterCount(r.valueType)]);
               var v := values(r.sensorId);
               && |words| == RegisterCount(r.valueType)
               && DecodeWords(f, words, r.valueType, r.wordOrder)
                  == Held(f, if v.Some? then v.value else Finite(65535.0), r.valueType)
  {
    var r := entries[i].register;
    SpanIsBlock(entries, g, i);
    BlockReadsEncoded(f, values, r.sensorId, entries[i].device, r.valueType, r.wordOrder, r.access);
    DecodeEncode(f, ValueOr(values, r.sensorId, PLACEHOLDER), r.valueType, r.wordOrder);
  }

  /** The same for the span of a computed sensor, which is served as a binary32 value. */
  lemma {:induction false} ComputedSpanDecodesToHeld(f: Float32, values: Values, config: Config, k: nat)
    requires k < |config.computed|
    ensures var start, v := ComputedStart(config, k), values(config.computed[k].sensorId);
            && start + 2 <= |InputArea(config)|
            && DecodeWords(f, WordsOf(f, values, InputArea(config)[start..start + 2]), F32, Big)
               == Held(f, if v.Some? then v.value else Finite(65535.0), F32)
  {
    var id := config.computed[k].sensorId;
    ComputedBlockIsContiguous(config, k);
    assert InputArea(config)[ComputedStart(config, k)..ComputedStart(config, k) + 2] == Block(id, "", F32, Big, Read);
    BlockReadsEncoded(f, values, id, "", F32, Big, Read);
    DecodeEncode(f, ValueOr(values, id, PLACEHOLDER), F32, Big);
  }

  ghost predicate AllOnes(words: seq<u16>) {
    forall i :: 0 <= i < |words| ==> words[i] == 0xFFFF
  }

  /** A sensor without data reads as all-ones words exactly for unsigned 16-bit registers. */
  lemma {:induction false} PlaceholderIsAllOnesIff(f: Float32, t: ValueType, order: WordOrder)
    requires !IsNaNBits(f.narrow(PLACEHOLDER))
    ensures AllOnes(EncodeValue(f, PLACEHOLDER, t, order)) <==> t == U16
  {
    PlaceholderCasts();
    match t
    case U16 =>
      assert EncodeValue(f, PLACEHOLDER, t, order) == [0xFFFF];
    case I16 =>
      assert EncodeValue(f, PLACEHOLDER, t, order)[0] == 0x7FFF;
    case U32 | I32 =>
      assert EncodeValue(f, PLACEHOLDER, t, order) == Split32(0xFFFF, order);
      SplitAllOnes(0xFFFF, order);
    case F32 =>
      SplitAllOnes(f.narrow(PLACEHOLDER), order);
    case Bool =>
      assert EncodeValue(f, PLACEHOLDER, t, order)[0] == 1;
  }

  /** So the span of a register without a value is all ones exactly if the register is U16. */
  lemma {:induction false} MissingSpanIsAllOnesIff(
    f: Float32, values: Values, entries: seq<Entry>, g: RegisterFunction, i: nat)
    requires i < |entries| && entries[i].register.function_ == g && !IsNaNBits(f.narrow(Finite(65535.0)))
    requires values(entries[i].register.sensorId).None?
    ensures var r, start := entries[i].register, BlockStart(entries, g, i);
            && start + RegisterCount(r.valueType) <= |WordArea(entries, g)|
            && (AllOnes(WordsOf(f, values, WordArea(entries, g)[start..start + RegisterCount(r.valueType)]))
                <==> r.valueType == U16)
  {
    var r := entries[i].register;
    SpanIsBlock(entries, g, i);
    BlockReadsEncoded(f, values, r.sensorId, entries[i].device, r.valueType, r.wordOrder, r.access);
    PlaceholderIsAllOnesIff(f, r.valueType, r.wordOrder);
  }

  lemma {:induction false} SplitAllOnes(v: u32, order: WordOrder)
    ensures AllOnes(Split32(v, order)) ==> v == 0xFFFF_FFFF && IsNaNBits(v)
  {
    if AllOnes(Split32(v, order)) {
      assert Split32(v, order)[0] == 0xFFFF && Split32(v, order)[1] == 0xFFFF;
      JoinHalves(v);
      assert v == Join(0xFFFF, 0xFFFF);
    }
  }

  lemma {:induction false} PlaceholderCasts()
    ensures Cast(PLACEHOLDER, 0, 0xFFFF) == 0xFFFF
    ensures Cast(PLACEHOLDER, -0x8000, 0x7FFF) == 0x7FFF
    ensures Cast(PLACEHOLDER, 0, 0xFFFF_FFFF) == 0xFFFF
    ensures Cast(PLACEHOLDER, -0x8000_0000, 0x7FFF_FFFF) == 0xFFFF
  {
  }
}
