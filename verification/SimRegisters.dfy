/** The simulator's register map: configuration checks, construction and reads. */
module SimRegisters {
  import opened Common
  import opened Fixpoint
  import opened Numbers
  import opened Placement
  import opened SimModel
  import opened SimEngine

  datatype InputSlot = InputSlot(sensorId: string, storage: Storage, encode: Option<string>)

  datatype HoldingSlot = Control(control: string, writable: bool) | Sensor(slot: InputSlot)

  function StorageWidth(storage: Storage): Width {
    match storage case F32 => 2 case U16 => 1
  }

  function SlotOf(s: SimSensor): InputSlot {
    InputSlot(s.sensorId, s.storage, s.encode)
  }

  // ----- Configuration checks -----

  function ControlNames(controls: seq<SimControl>): seq<string> {
    seq(|controls|, i requires 0 <= i < |controls| => controls[i].name)
  }

  function Ids(sensors: seq<SimSensor>): seq<string> {
    seq(|sensors|, i requires 0 <= i < |sensors| => sensors[i].sensorId)
  }

  /** Ranges declared by controls with an explicit address. */
  function ControlSpans(controls: seq<SimControl>): seq<Span> {
    if controls == [] then []
    else
      var c, before := controls[|controls| - 1], ControlSpans(controls[..|controls| - 1]);
      match c.address case None => before case Some(a) => before + [(a, a)]
  }

  /** The ranges declared in an area by the controls and the first `n` sensors. */
  function DeclaredSpans(controls: seq<SimControl>, sensors: seq<SimSensor>, area: Area, n: nat): seq<Span>
    requires n <= |sensors|
  {
    if n == 0 then
      if area == Holding then ControlSpans(controls) else []
    else
      var s, before := sensors[n - 1], DeclaredSpans(controls, sensors, area, n - 1);
      if s.area == area && s.address.Some?
      then before + [SaturatedSpan(s.address.value, StorageWidth(s.storage))]
      else before
  }

  predicate SensorOk(lib: Meval, cfg: SimConfig, s: SimSensor) {
    && s.name != ""
    && lib.parses(s.formula)
    && (s.encode.Some? ==> lib.parses(s.encode.value))
    && forall v :: v in s.inputs ==>
                     s.inputs[v] in ControlNames(cfg.controls) || s.inputs[v] in Ids(IterSensors(cfg))
  }

  ghost predicate ValidSim(lib: Meval, cfg: SimConfig) {
    && Distinct(ControlNames(cfg.controls))
    && Distinct(Ids(IterSensors(cfg)))
    && (forall area :: NoOverlap(DeclaredSpans(cfg.controls, IterSensors(cfg), area, |IterSensors(cfg)|)))
    && forall s :: s in IterSensors(cfg) ==> SensorOk(lib, cfg, s)
  }

  predicate OverlapsAny(span: Span, spans: seq<Span>) {
    exists i :: 0 <= i < |spans| && SpanOverlap(span, spans[i])
  }

  lemma {:induction false} NoOverlapAppend(spans: seq<Span>, span: Span)
    requires NoOverlap(spans)
    ensures NoOverlap(spans + [span]) <==> !OverlapsAny(span, spans)
  {
    var all := spans + [span];
    if OverlapsAny(span, spans) {
      var i :| 0 <= i < |spans| && SpanOverlap(span, spans[i]);
      assert SpanOverlap(all[|spans|], all[i]);
    }
  }

  lemma {:induction false} NoOverlapPrefix(spans: seq<Span>, whole: seq<Span>)
    requires NoOverlap(whole) && spans <= whole
    ensures NoOverlap(spans)
  {
  }

  /** Adds a range to those of an area, or refuses if it overlaps one of them. */
  method Claim(spans: seq<Span>, span: Span) returns (r: Option<seq<Span>>)
    requires NoOverlap(spans)
    ensures r == if NoOverlap(spans + [span]) then Some(spans + [span]) else None
  {
    NoOverlapAppend(spans, span);
    return if OverlapsAny(span, spans) then None else Some(spans + [span]);
  }

  lemma {:induction false} ControlSpansPrefix(controls: seq<SimControl>, n: nat)
    requires n <= |controls|
    ensures ControlSpans(controls[..n]) <= ControlSpans(controls)
  {
    if n < |controls| {
      assert controls[..|controls| - 1][..n] == controls[..n];
      ControlSpansPrefix(controls[..|controls| - 1], n);
    } else {
      assert controls[..n] == controls;
    }
  }

  lemma {:induction false} DeclaredSpansPrefix(
    controls: seq<SimControl>, sensors: seq<SimSensor>, area: Area, k: nat, n: nat)
    requires k <= n <= |sensors|
    ensures DeclaredSpans(controls, sensors, area, k) <= DeclaredSpans(controls, sensors, area, n)
    decreases n
  {
    if k < n {
      DeclaredSpansPrefix(controls, sensors, area, k, n - 1);
    }
  }

  /** The checks made when a simulator configuration is loaded. */
  method Validate(lib: Meval, cfg: SimConfig) returns (r: Result<(), string>)
    ensures r.Ok? <==> ValidSim(lib, cfg)
  {
    var holdingSpans: seq<Span>;
    r, holdingSpans := ValidateControls(cfg);
    if r.Err? {
      DeclaredSpansPrefix(cfg.controls, IterSensors(cfg), Holding, 0, |IterSensors(cfg)|);
      if NoOverlap(DeclaredSpans(cfg.controls, IterSensors(cfg), Holding, |IterSensors(cfg)|)) {
        NoOverlapPrefix(ControlSpans(cfg.controls),
                        DeclaredSpans(cfg.controls, IterSensors(cfg), Holding, |IterSensors(cfg)|));
      }
      return;
    }
    r := ValidateIds(cfg);
    if r.Err? {
      return;
    }
    r := ValidateSpans(cfg.controls, IterSensors(cfg), holdingSpans);
    if r.Err? {
      return;
    }
    var sensors := IterSensors(cfg);
    for i := 0 to |sensors|
      invariant forall s :: s in sensors[..i] ==> SensorOk(lib, cfg, s)
    {
      if !SensorOk(lib, cfg, sensors[i]) {
        return Err("invalid sensor");
      }
    }
    assert sensors[..|sensors|] == sensors;
    assert forall area :: NoOverlap(DeclaredSpans(cfg.controls, sensors, area, |sensors|));
    return Ok(());
  }

  /** Claims the address of control `i`, if it has one. */
  method ClaimControl(controls: seq<SimControl>, i: nat, spans: seq<Span>) returns (r: Option<seq<Span>>)
    requires i < |controls| && spans == ControlSpans(controls[..i]) && NoOverlap(spans)
    ensures r.Some? ==> r.value == ControlSpans(controls[..i + 1]) && NoOverlap(r.value)
    ensures r.None? ==> !NoOverlap(ControlSpans(controls))
  {
    assert controls[..i + 1][..i] == controls[..i];
    var address := controls[i].address;
    if address.None? {
      return Some(spans);
    }
    r := Claim(spans, (address.value, address.value));
    if r.None? {
      ControlSpansPrefix(controls, i + 1);
    }
  }

  method ValidateControls(cfg: SimConfig) returns (r: Result<(), string>, spans: seq<Span>)
    ensures r.Ok? <==> Distinct(ControlNames(cfg.controls)) && NoOverlap(ControlSpans(cfg.controls))
    ensures r.Ok? ==> spans == ControlSpans(cfg.controls)
  {
    var controls := cfg.controls;
    ghost var whole := ControlNames(controls);
    var names: set<string> := {};
    spans := [];
    for i := 0 to |controls|
      invariant names == Elements(whole[..i]) && Distinct(whole[..i])
      invariant spans == ControlSpans(controls[..i]) && NoOverlap(spans)
    {
      var c := controls[i];
      DistinctStep(whole, i);
      if c.name in names {
        return Err("duplicate sim control"), spans;
      }
      names := names + {c.name};
      var claimed := ClaimControl(controls, i, spans);
      if claimed.None? {
        return Err("holding address overlaps another holding item"), spans;
      }
      spans := claimed.value;
    }
    assert controls[..|controls|] == controls && whole[..|controls|] == whole;
    return Ok(()), spans;
  }

  method ValidateIds(cfg: SimConfig) returns (r: Result<(), string>)
    ensures r.Ok? <==> Distinct(Ids(IterSensors(cfg)))
  {
    var sensors := IterSensors(cfg);
    ghost var whole := Ids(sensors);
    var ids: set<string> := {};
    for i := 0 to |sensors|
      invariant ids == Elements(whole[..i]) && Distinct(whole[..i])
    {
      DistinctStep(whole, i);
      if sensors[i].sensorId in ids {
        return Err("duplicate sim sensor_id");
      }
      ids := ids + {sensors[i].sensorId};
    }
    assert whole[..|sensors|] == whole;
    return Ok(());
  }

  method ValidateSpans(controls: seq<SimControl>, sensors: seq<SimSensor>, controlSpans: seq<Span>)
    returns (r: Result<(), string>)
    requires controlSpans == ControlSpans(controls) && NoOverlap(controlSpans)
    ensures r.Ok? <==> forall area :: NoOverlap(DeclaredSpans(controls, sensors, area, |sensors|))
  {
    var holdingSpans, inputSpans, coilsSpans: seq<Span> := controlSpans, [], [];
    for i := 0 to |sensors|
      invariant holdingSpans == DeclaredSpans(controls, sensors, Holding, i) && NoOverlap(holdingSpans)
      invariant inputSpans == DeclaredSpans(controls, sensors, Input, i) && NoOverlap(inputSpans)
      invariant coilsSpans == DeclaredSpans(controls, sensors, Coils, i) && NoOverlap(coilsSpans)
    {
      var s := sensors[i];
      if s.address.Some? {
        var span := SaturatedSpan(s.address.value, StorageWidth(s.storage));
        DeclaredSpansPrefix(controls, sensors, s.area, i + 1, |sensors|);
        var claimed;
        match s.area {
          case Holding => claimed := Claim(holdingSpans, span);
          case Input => claimed := Claim(inputSpans, span);
          case Coils => claimed := Claim(coilsSpans, span);
        }
        if claimed.None? {
          assert !NoOverlap(DeclaredSpans(controls, sensors, s.area, i + 1));
          return Err("address overlaps another item");
        }
        match s.area {
          case Holding => holdingSpans := claimed.value;
          case Input => inputSpans := claimed.value;
          case Coils => coilsSpans := claimed.value;
        }
      }
    }
    return Ok(());
  }

  // ----- Reading -----

  /** The parts of the word encoding that belong to libraries: the IEEE 754 binary32 bits of a
      value, and the word an encoding expression yields; `None` stands for NaN. */
  datatype Wire = Wire(bits: Option<real> -> u32, raw: (string, Option<real>) -> u16)

  /** The word of a sensor at an address: for `F32` the high half at even and the low half at odd
      addresses, for `U16` the encoded, rounded and clamped value. */
  function SensorWord(lib: Meval, wire: Wire, slot: InputSlot, v: Option<real>, addr: nat): u16 {
    match slot.storage
    case F32 => if addr % 2 == 0 then High(wire.bits(v)) else Low(wire.bits(v))
    case U16 =>
      if slot.encode.Some? && lib.parses(slot.encode.value) && lib.binds(slot.encode.value, {"v"})
      then wire.raw(slot.encode.value, v)
      else
        match v
        case None => 0
        case Some(x) => Clamp(Round(x), 0, U16_MAX)
  }

  function Lookup(vals: Valuation, id: string): Option<real> {
    if id in vals then Some(vals[id]) else None
  }

  function InputWord(lib: Meval, wire: Wire, slots: Slots<InputSlot>, vals: Valuation, addr: nat): u16 {
    if addr < |slots| && slots[addr].Some?
    then SensorWord(lib, wire, slots[addr].value, Lookup(vals, slots[addr].value.sensorId), addr)
    else 0
  }

  function HoldingWord(lib: Meval, wire: Wire, cfg: SimConfig, controls: map<string, real>,
                       slots: Slots<HoldingSlot>, vals: Valuation, addr: nat): u16
  {
    if addr < |slots| && slots[addr].Some? then
      match slots[addr].value
      case Control(name, _) =>
        var v := if FindControl(cfg.controls, name).Some? then ControlValue(cfg, controls, name) else 0.0;
        Clamp(Round(v), 0, U16_MAX)
      case Sensor(slot) => SensorWord(lib, wire, slot, Lookup(vals, slot.sensorId), addr)
    else 0
  }

  /** Collecting a readout into a table gives the values of the sensors read. */
  lemma {:induction false} ReadoutEntries(sensors: seq<SimSensor>, vals: Valuation)
    ensures forall k :: 0 <= k < |Readout(sensors, vals)| ==>
                          var (id, v) := Readout(sensors, vals)[k]; id in Ids(sensors) && id in vals && v == vals[id]
    ensures forall id :: id in Ids(sensors) && id in vals ==> (id, vals[id]) in Readout(sensors, vals)
  {
    if sensors != [] {
      var front, s := sensors[..|sensors| - 1], sensors[|sensors| - 1];
      assert Ids(sensors) == Ids(front) + [s.sensorId];
      ReadoutEntries(front, vals);
    }
  }

  /** The entries are read at ascending places of the list of sensors. */
  ghost predicate ReadAt(sensors: seq<SimSensor>, all: seq<(string, real)>, places: seq<nat>) {
    && |places| == |all|
    && (forall j, k :: 0 <= j < k < |places| ==> places[j] < places[k])
    && forall k :: 0 <= k < |places| ==> places[k] < |sensors| && sensors[places[k]].sensorId == all[k].0
  }

  lemma {:induction false} ReadAtSnoc(
    sensors: seq<SimSensor>, all: seq<(string, real)>, places: seq<nat>, s: SimSensor, v: real)
    requires ReadAt(sensors, all, places)
    ensures ReadAt(sensors + [s], all, places)
    ensures ReadAt(sensors + [s], all + [(s.sensorId, v)], places + [|sensors|])
  {
  }

  /** The readout follows the order of the sensors. */
  lemma {:induction false} ReadoutInOrder(sensors: seq<SimSensor>, vals: Valuation) returns (places: seq<nat>)
    ensures ReadAt(sensors, Readout(sensors, vals), places)
  {
    places := [];
    if sensors != [] {
      var front, s := sensors[..|sensors| - 1], sensors[|sensors| - 1];
      places := ReadoutInOrder(front, vals);
      assert sensors == front + [s];
      ReadAtSnoc(front, Readout(front, vals), places, s, if s.sensorId in vals then vals[s.sensorId] else 0.0);
      places := if s.sensorId in vals then places + [|front|] else places;
    }
  }

  lemma {:induction false} MeaningKeysAreIds(cfg: SimConfig, env: Env)
    ensures forall id :: id in Meaning(cfg, env) ==> id in Ids(IterSensors(cfg))
  {
    RoundsMonotone(cfg, env);
    LfpIsFixpoint(Rounds(cfg, env), SensorIds(cfg));
    forall id | id in Meaning(cfg, env) ensures id in Ids(IterSensors(cfg)) {
      assert id in SensorIds(cfg);
      var s :| s in IterSensors(cfg) && s.sensorId == id;
      var k :| 0 <= k < |IterSensors(cfg)| && IterSensors(cfg)[k] == s;
      assert Ids(IterSensors(cfg))[k] == id;
    }
  }

  /** Collects a readout into a table. */
  method Tabulate(all: seq<(string, real)>, ghost sensors: seq<SimSensor>, ghost m: Valuation)
    returns (values: Valuation)
    requires all == Readout(sensors, m) && forall id :: id in m ==> id in Ids(sensors)
    ensures values == m
  {
    ReadoutEntries(sensors, m);
    values := map[];
    for k := 0 to |all|
      invariant Below(values, m)
      invariant forall j :: 0 <= j < k ==> all[j].0 in values
    {
      assert all[k].0 in m && all[k].1 == m[all[k].0];
      values := values[all[k].0 := all[k].1];
    }
    forall id | id in m ensures id in values {
      var j :| 0 <= j < |all| && all[j] == (id, m[id]);
    }
    assert values.Keys == m.Keys;
  }

  /** Evaluates all sensors and tabulates the results. */
  method CurrentValues(engine: SimEngine, t: real) returns (values: Valuation)
    requires engine.Valid()
    ensures values == Meaning(engine.sim, engine.At(t))
  {
    var all := engine.EvalAll(t);
    MeaningKeysAreIds(engine.sim, engine.At(t));
    values := Tabulate(all, IterSensors(engine.sim), Meaning(engine.sim, engine.At(t)));
  }

  // ----- Construction -----

  function ControlItems(controls: seq<SimControl>): seq<Item<HoldingSlot>> {
    seq(|controls|, i requires 0 <= i < |controls| =>
          Item(controls[i].address, 1, Control(controls[i].name, controls[i].writable)))
  }

  /** The sensors of one area; a coil takes one address whatever its storage. */
  function AreaItems(sensors: seq<SimSensor>, area: Area): seq<Item<InputSlot>> {
    if sensors == [] then []
    else
      var s, before := sensors[|sensors| - 1], AreaItems(sensors[..|sensors| - 1], area);
      if s.area == area
      then before + [Item(s.address, if area == Coils then 1 else StorageWidth(s.storage), SlotOf(s))]
      else before
  }

  function HoldingItems(cfg: SimConfig): seq<Item<HoldingSlot>> {
    HoldingItemsUpTo(cfg.controls, IterSensors(cfg), |IterSensors(cfg)|)
  }

  /** The holding items: the controls and then the holding sensors among the first `n`. */
  function HoldingItemsUpTo(controls: seq<SimControl>, sensors: seq<SimSensor>, n: nat): seq<Item<HoldingSlot>>
    requires n <= |sensors|
  {
    if n == 0 then ControlItems(controls)
    else
      var s, before := sensors[n - 1], HoldingItemsUpTo(controls, sensors, n - 1);
      if s.area == Holding then before + [Item(s.address, StorageWidth(s.storage), Sensor(SlotOf(s)))]
      else before
  }

  lemma {:induction false} AreaItemsSnoc(sensors: seq<SimSensor>, area: Area, n: nat)
    requires n < |sensors|
    ensures AreaItems(sensors[..n + 1], area) ==
            if sensors[n].area == area
            then AreaItems(sensors[..n], area) +
                 [Item(sensors[n].address, if area == Coils then 1 else StorageWidth(sensors[n].storage),
                       SlotOf(sensors[n]))]
            else AreaItems(sensors[..n], area)
  {
    assert sensors[..n + 1][..n] == sensors[..n];
  }

  /** Grows an area to at least `n` addresses. */
  method Grow<T>(area: Slots<T>, n: nat) returns (r: Slots<T>)
    ensures r == Pad(area, n)
  {
    r := area;
    while |r| < n
      invariant |area| <= |r| <= |Pad(area, n)| && r == Pad(area, n)[..|r|]
    {
      r := r + [None];
    }
  }

  lemma {:induction false} LayoutSnoc<T>(items: seq<Item<T>>, item: Item<T>)
    ensures var at := if item.address.Some? then item.address.value else Cursor(items, |items|);
            && Layout(items + [item]) == Put(Layout(items), at, item.width, item.slot)
            && Cursor(items + [item], |items| + 1) == at + item.width
  {
    var all := items + [item];
    assert all[..|items|] == items;
    CursorOfPrefix(all, |items|);
  }

  class RegisterMap {
    var holding: Slots<HoldingSlot>
    var inputs: Slots<InputSlot>
    var coils: Slots<InputSlot>

    constructor Build(cfg: SimConfig)
      ensures holding == Layout(HoldingItems(cfg))
      ensures inputs == Layout(AreaItems(IterSensors(cfg), Input))
      ensures coils == Layout(AreaItems(IterSensors(cfg), Coils))
    {
      new;
      holding := BuildHolding(cfg.controls, IterSensors(cfg));
      inputs := BuildArea(IterSensors(cfg), Input);
      coils := BuildArea(IterSensors(cfg), Coils);
    }

    /** The controls in the holding area, and the cursor after the last one. */
    static method BuildControls(controls: seq<SimControl>) returns (slots: Slots<HoldingSlot>, next: nat)
      ensures slots == Layout(ControlItems(controls))
      ensures next == Cursor(ControlItems(controls), |controls|)
    {
      next := 0;
      slots := [];
      ghost var all := ControlItems(controls);
      for i := 0 to |controls|
        invariant slots == Layout(all[..i]) && next == Cursor(all[..i], i)
      {
        assert all[..i + 1] == all[..i] + [all[i]];
        LayoutSnoc(all[..i], all[i]);
        var addr := if controls[i].address.Some? then controls[i].address.value else next;
        slots := PutWords(slots, addr, 1, Control(controls[i].name, controls[i].writable));
        next := addr + 1;
      }
      assert all[..|controls|] == all;
    }

    /** The holding area: the controls, then the holding sensors, continuing at the cursor. */
    static method BuildHolding(controls: seq<SimControl>, sensors: seq<SimSensor>) returns (slots: Slots<HoldingSlot>)
      ensures slots == Layout(HoldingItemsUpTo(controls, sensors, |sensors|))
    {
      var next;
      slots, next := BuildControls(controls);
      ghost var items := ControlItems(controls);
      for i := 0 to |sensors|
        invariant items == HoldingItemsUpTo(controls, sensors, i)
        invariant slots == Layout(items) && next == Cursor(items, |items|)
      {
        var s := sensors[i];
        if s.area == Holding {
          var width := StorageWidth(s.storage);
          LayoutSnoc(items, Item(s.address, width, Sensor(SlotOf(s))));
          var addr := if s.address.Some? then s.address.value else next;
          slots := PutWords(slots, addr, width, Sensor(SlotOf(s)));
          items := items + [Item(s.address, width, Sensor(SlotOf(s)))];
          next := addr + width;
        }
      }
    }

    /** The input area or the coil area. */
    static method BuildArea(sensors: seq<SimSensor>, area: Area) returns (slots: Slots<InputSlot>)
      ensures slots == Layout(AreaItems(sensors, area))
    {
      slots := [];
      var next := 0;
      ghost var items: seq<Item<InputSlot>> := [];
      for i := 0 to |sensors|
        invariant items == AreaItems(sensors[..i], area)
        invariant slots == Layout(items) && next == Cursor(items, |items|)
      {
        var s := sensors[i];
        AreaItemsSnoc(sensors, area, i);
        if s.area == area {
          var width := if area == Coils then 1 else StorageWidth(s.storage);
          LayoutSnoc(items, Item(s.address, width, SlotOf(s)));
          var addr := if s.address.Some? then s.address.value else next;
          slots := PutWords(slots, addr, width, SlotOf(s));
          items := items + [Item(s.address, width, SlotOf(s))];
          next := addr + width;
        }
      }
      assert sensors[..|sensors|] == sensors;
    }

    method ReadHolding(engine: SimEngine, wire: Wire, t: real, addr: nat) returns (word: u16)
      requires engine.Valid()
      ensures word == HoldingWord(engine.lib, wire, engine.sim, engine.controls, holding,
                                  Meaning(engine.sim, engine.At(t)), addr)
    {
      if addr >= |holding| || holding[addr].None? {
        return 0;
      }
      match holding[addr].value
      case Control(name, _) =>
        var c := FindControl(engine.sim.controls, name);
        var v := if c.Some? then ControlValue(engine.sim, engine.controls, name) else 0.0;
        word := Clamp(Round(v), 0, U16_MAX);
      case Sensor(slot) =>
        var values := CurrentValues(engine, t);
        word := SensorWord(engine.lib, wire, slot, Lookup(values, slot.sensorId), addr);
    }

    method ReadInput(engine: SimEngine, wire: Wire, t: real, addr: nat) returns (word: u16)
      requires engine.Valid()
      ensures word == InputWord(engine.lib, wire, inputs, Meaning(engine.sim, engine.At(t)), addr)
    {
      if addr >= |inputs| || inputs[addr].None? {
        return 0;
      }
      var values := CurrentValues(engine, t);
      word := SensorWord(engine.lib, wire, inputs[addr].value, Lookup(values, inputs[addr].value.sensorId), addr);
    }

    /** A coil is on when the magnitude of its sensor's value exceeds one half. */
    method ReadCoil(engine: SimEngine, t: real, addr: nat) returns (on: bool)
      requires engine.Valid()
      ensures var m := Meaning(engine.sim, engine.At(t));
              on <==> && addr < |coils| && coils[addr].Some? && coils[addr].value.sensorId in m
                      && (m[coils[addr].value.sensorId] > 0.5 || m[coils[addr].value.sensorId] < -0.5)
    {
      if addr >= |coils| || coils[addr].None? {
        return false;
      }
      var values := CurrentValues(engine, t);
      var v := match Lookup(values, coils[addr].value.sensorId) case Some(x) => x case None => 0.0;
      on := (if v < 0.0 then -v else v) > 0.5;
    }
  }

  /** Puts a slot at `width` addresses, growing the area as needed. */
  method PutWords<T>(area: Slots<T>, addr: nat, width: Width, slot: T) returns (r: Slots<T>)
    ensures r == Put(area, addr, width, slot)
  {
    r := Grow(area, addr + width);
    r := r[addr := Some(slot)];
    if width == 2 {
      r := r[addr + 1 := Some(slot)];
    }
  }
}
