/** When the simulator's register map keeps every item at its own addresses. */
module SimMapProperties {
  import opened Common
  import opened Fixpoint
  import opened Numbers
  import opened Placement
  import opened SimModel
  import opened SimRegisters
  import opened SimServer

  lemma {:induction false} AreaSpansFit(controls: seq<SimControl>, sensors: seq<SimSensor>, area: Area, n: nat)
    requires area != Holding && n <= |sensors|
    ensures SpansFit(AreaItems(sensors[..n], area), DeclaredSpans(controls, sensors, area, n))
  {
    if n > 0 {
      var s := sensors[n - 1];
      var before, spans := AreaItems(sensors[..n - 1], area), DeclaredSpans(controls, sensors, area, n - 1);
      AreaSpansFit(controls, sensors, area, n - 1);
      AreaItemsSnoc(sensors, area, n - 1);
      if s.area == area {
        var item := Item(s.address, if area == Coils then 1 else StorageWidth(s.storage), SlotOf(s));
        if s.address.Some? {
          SpansFitExplicit(before, spans, item, SaturatedSpan(s.address.value, StorageWidth(s.storage)));
        } else {
          SpansFitAutomatic(before, spans, item);
        }
      }
    }
  }

  lemma {:induction false} ControlSpansFit(controls: seq<SimControl>)
    ensures SpansFit(ControlItems(controls), ControlSpans(controls))
  {
    if controls != [] {
      var front, c := controls[..|controls| - 1], controls[|controls| - 1];
      var item := Item(c.address, 1, Control(c.name, c.writable));
      ControlSpansFit(front);
      assert ControlItems(controls) == ControlItems(front) + [item];
      if c.address.Some? {
        SpansFitExplicit(ControlItems(front), ControlSpans(front), item, (c.address.value, c.address.value));
      } else {
        SpansFitAutomatic(ControlItems(front), ControlSpans(front), item);
      }
    }
  }

  lemma {:induction false} HoldingSpansFit(controls: seq<SimControl>, sensors: seq<SimSensor>, n: nat)
    requires n <= |sensors|
    ensures SpansFit(HoldingItemsUpTo(controls, sensors, n), DeclaredSpans(controls, sensors, Holding, n))
  {
    if n == 0 {
      ControlSpansFit(controls);
    } else {
      var s := sensors[n - 1];
      var before := HoldingItemsUpTo(controls, sensors, n - 1);
      var spans := DeclaredSpans(controls, sensors, Holding, n - 1);
      HoldingSpansFit(controls, sensors, n - 1);
      if s.area == Holding {
        var item := Item(s.address, StorageWidth(s.storage), Sensor(SlotOf(s)));
        if s.address.Some? {
          SpansFitExplicit(before, spans, item, SaturatedSpan(s.address.value, StorageWidth(s.storage)));
        } else {
          SpansFitAutomatic(before, spans, item);
        }
      }
    }
  }

  // ----- When nothing is overwritten -----

  lemma {:induction false} AreaSlotIds(sensors: seq<SimSensor>, area: Area)
    requires Distinct(Ids(sensors))
    ensures forall i :: 0 <= i < |AreaItems(sensors, area)| ==>
                          AreaItems(sensors, area)[i].slot.sensorId in Ids(sensors)
    ensures SlotsDiffer(AreaItems(sensors, area))
  {
    if sensors != [] {
      var front, s := sensors[..|sensors| - 1], sensors[|sensors| - 1];
      assert Ids(sensors) == Ids(front) + [s.sensorId];
      DistinctPrefix(Ids(front), Ids(sensors));
      DistinctAppend(Ids(front), s.sensorId);
      AreaSlotIds(front, area);
    }
  }

  /** The check rules out that explicitly placed items of the input or coil area overwrite each
      other below the top.  So such an area of a checked configuration is built without overwriting
      exactly when no two items reach the top and no automatically placed item shares an address;
      with explicit addresses only the top remains. */
  lemma {:induction false} AreaIntactIff(lib: Meval, cfg: SimConfig, area: Area)
    requires ValidSim(lib, cfg) && area != Holding
    ensures var items := AreaItems(IterSensors(cfg), area);
            && (Intact(items, Layout(items)) <==> AtMostOneAtTop(items) && AutomaticApart(items))
            && (AllExplicit(items) ==> (Intact(items, Layout(items)) <==> AtMostOneAtTop(items)))
  {
    var sensors := IterSensors(cfg);
    assert sensors[..|sensors|] == sensors;
    AreaSlotIds(sensors, area);
    AreaSpansFit(cfg.controls, sensors, area, |sensors|);
    CoveredIsIntactIff(AreaItems(sensors, area), DeclaredSpans(cfg.controls, sensors, area, |sensors|));
  }

  ghost predicate SensorSlotsAmong(items: seq<Item<HoldingSlot>>, ids: seq<string>) {
    forall i :: 0 <= i < |items| && items[i].slot.Sensor? ==> items[i].slot.slot.sensorId in ids
  }

  lemma {:induction false} SlotsDifferAppend<T>(items: seq<Item<T>>, item: Item<T>)
    requires SlotsDiffer(items) && forall i :: 0 <= i < |items| ==> items[i].slot != item.slot
    ensures SlotsDiffer(items + [item])
  {
  }

  lemma {:induction false} ControlSlotsDiffer(controls: seq<SimControl>)
    requires Distinct(ControlNames(controls))
    ensures SlotsDiffer(ControlItems(controls))
  {
    forall i, j | 0 <= i < j < |controls| ensures controls[i].name != controls[j].name {
      assert ControlNames(controls)[i] != ControlNames(controls)[j];
    }
  }

  lemma {:induction false} HoldingSlotsDiffer(controls: seq<SimControl>, sensors: seq<SimSensor>, n: nat)
    requires Distinct(ControlNames(controls)) && Distinct(Ids(sensors)) && n <= |sensors|
    ensures SensorSlotsAmong(HoldingItemsUpTo(controls, sensors, n), Ids(sensors)[..n])
    ensures SlotsDiffer(HoldingItemsUpTo(controls, sensors, n))
  {
    if n == 0 {
      ControlSlotsDiffer(controls);
    } else {
      var ids, before, s := Ids(sensors), HoldingItemsUpTo(controls, sensors, n - 1), sensors[n - 1];
      HoldingSlotsDiffer(controls, sensors, n - 1);
      assert ids[..n] == ids[..n - 1] + [s.sensorId];
      assert s.sensorId !in ids[..n - 1] by {
        assert forall k :: 0 <= k < n - 1 ==> ids[k] != ids[n - 1];
      }
      if s.area == Holding {
        SlotsDifferAppend(before, Item(s.address, StorageWidth(s.storage), Sensor(SlotOf(s))));
      }
    }
  }

  /** The same for the holding area, which controls and sensors share. */
  lemma {:induction false} HoldingIntactIff(lib: Meval, cfg: SimConfig)
    requires ValidSim(lib, cfg)
    ensures var items := HoldingItems(cfg);
            && (Intact(items, Layout(items)) <==> AtMostOneAtTop(items) && AutomaticApart(items))
            && (AllExplicit(items) ==> (Intact(items, Layout(items)) <==> AtMostOneAtTop(items)))
  {
    var sensors := IterSensors(cfg);
    HoldingSlotsDiffer(cfg.controls, sensors, |sensors|);
    HoldingSpansFit(cfg.controls, sensors, |sensors|);
    CoveredIsIntactIff(HoldingItems(cfg), DeclaredSpans(cfg.controls, sensors, Holding, |sensors|));
  }

  /** Items placed all automatically, or all explicitly with at most one at the top. */
  ghost predicate Uniform<T>(items: seq<Item<T>>) {
    AllAutomatic(items) || (AllExplicit(items) && AtMostOneAtTop(items))
  }

  /** Building the map of a checked configuration overwrites nothing in an area whose items are
      placed uniformly: every item is found at each of its own addresses. */
  lemma {:induction false} UniformAreaIsIntact(lib: Meval, cfg: SimConfig, area: Area)
    requires ValidSim(lib, cfg) && area != Holding && Uniform(AreaItems(IterSensors(cfg), area))
    ensures Intact(AreaItems(IterSensors(cfg), area), Layout(AreaItems(IterSensors(cfg), area)))
  {
    var items := AreaItems(IterSensors(cfg), area);
    AreaIntactIff(lib, cfg, area);
    if AllAutomatic(items) {
      AutomaticIsDisjoint(items);
    }
  }

  lemma {:induction false} UniformHoldingIsIntact(lib: Meval, cfg: SimConfig)
    requires ValidSim(lib, cfg) && Uniform(HoldingItems(cfg))
    ensures Intact(HoldingItems(cfg), Layout(HoldingItems(cfg)))
  {
    var items := HoldingItems(cfg);
    HoldingIntactIff(lib, cfg);
    if AllAutomatic(items) {
      AutomaticIsDisjoint(items);
    }
  }

  // ----- Examples -----

  function ExampleSensor(id: string, storage: Storage, address: Option<u16>): SimSensor {
    SimSensor(id, id, "1", map[], address, Input, storage, None)
  }

  function ExampleConfig(a: SimSensor, b: SimSensor): SimConfig {
    SimConfig([], [a, b], None, None)
  }

  function SpansOf(s: SimSensor, area: Area): seq<Span> {
    if s.area == area && s.address.Some? then [SaturatedSpan(s.address.value, StorageWidth(s.storage))] else []
  }

  lemma {:induction false} ExampleLists(a: SimSensor, b: SimSensor)
    ensures IterSensors(ExampleConfig(a, b)) == [a, b] && Ids([a, b]) == [a.sensorId, b.sensorId]
    ensures forall area :: DeclaredSpans([], [a, b], area, 2) ==
                           SpansOf(a, area) + SpansOf(b, area)
    ensures a.area == b.area == Input ==>
              AreaItems([a, b], Input) == [Item(a.address, StorageWidth(a.storage), SlotOf(a)),
                                           Item(b.address, StorageWidth(b.storage), SlotOf(b))]
  {
    assert IterSensors(ExampleConfig(a, b)) == [a, b];
    assert [a, b][..1] == [a] && [a][..0] == [];
    forall area
      ensures DeclaredSpans([], [a, b], area, 1) == SpansOf(a, area)
    {
      assert DeclaredSpans([], [a, b], area, 0) == [];
    }
    assert AreaItems([a], Input) ==
           if a.area == Input then [Item(a.address, StorageWidth(a.storage), SlotOf(a))] else [];
  }

  lemma {:induction false} ExampleIsValid(lib: Meval, a: SimSensor, b: SimSensor)
    requires lib.parses("1")
    requires a == ExampleSensor("a", a.storage, a.address) && b == ExampleSensor("b", b.storage, b.address)
    requires a.address.Some? && b.address.Some? ==>
               !SpanOverlap(SaturatedSpan(b.address.value, StorageWidth(b.storage)),
                            SaturatedSpan(a.address.value, StorageWidth(a.storage)))
    ensures ValidSim(lib, ExampleConfig(a, b))
  {
    ExampleLists(a, b);
    var cfg := ExampleConfig(a, b);
    assert Ids(IterSensors(cfg)) == ["a", "b"];
    assert "a"[0] != "b"[0];
    assert forall s :: s in IterSensors(cfg) ==> SensorOk(lib, cfg, s);
  }

  /** Mixing: a first sensor without an address takes address 0, and a later one placed
      explicitly at 0 overwrites it, in a configuration that passes all checks. */
  lemma {:induction false} MixedMapOverwrites(lib: Meval)
    requires lib.parses("1")
    ensures var cfg := ExampleConfig(ExampleSensor("a", U16, None), ExampleSensor("b", U16, Some(0)));
            var items := AreaItems(IterSensors(cfg), Input);
            ValidSim(lib, cfg) && !Intact(items, Layout(items))
  {
    var a, b := ExampleSensor("a", U16, None), ExampleSensor("b", U16, Some(0));
    ExampleLists(a, b);
    ExampleIsValid(lib, a, b);
    var items := AreaItems([a, b], Input);
    assert Start(items, 0) == 0 && Start(items, 1) == 0;
    AreaIntactIff(lib, ExampleConfig(a, b), Input);
  }

  /** The top: two sensors may both be placed at address 65535, because the range declared
      there is empty; the second overwrites the first. */
  lemma {:induction false} TopAddressOverwrites(lib: Meval)
    requires lib.parses("1")
    ensures var cfg := ExampleConfig(ExampleSensor("a", U16, Some(U16_MAX)), ExampleSensor("b", U16, Some(U16_MAX)));
            var items := AreaItems(IterSensors(cfg), Input);
            ValidSim(lib, cfg) && !Intact(items, Layout(items))
  {
    var a, b := ExampleSensor("a", U16, Some(U16_MAX)), ExampleSensor("b", U16, Some(U16_MAX));
    ExampleLists(a, b);
    ExampleIsValid(lib, a, b);
    var items := AreaItems([a, b], Input);
    assert Start(items, 0) == U16_MAX && Start(items, 1) == U16_MAX;
    AreaIntactIff(lib, ExampleConfig(a, b), Input);
  }

  /** Word order: after a one-word sensor, an automatically placed `F32` sensor starts at address 1,
      and its two words put together are its bits only if their halves are equal. */
  lemma {:induction false} OddAddressSwapsHalves(lib: Meval, wire: Wire, vals: Valuation)
    requires lib.parses("1")
    ensures var cfg := ExampleConfig(ExampleSensor("a", U16, None), ExampleSensor("b", F32, None));
            var slots, bits := Layout(AreaItems(IterSensors(cfg), Input)), wire.bits(Lookup(vals, "b"));
            && ValidSim(lib, cfg)
            && slots[1..] == [Some(SlotOf(ExampleSensor("b", F32, None))), Some(SlotOf(ExampleSensor("b", F32, None)))]
            && (InputWord(lib, wire, slots, vals, 1) * 65536 + InputWord(lib, wire, slots, vals, 2) == bits
                <==> bits / 65536 == bits % 65536)
  {
    var a, b := ExampleSensor("a", U16, None), ExampleSensor("b", F32, None);
    ExampleLists(a, b);
    ExampleIsValid(lib, a, b);
    var items := AreaItems([a, b], Input);
    assert items[..1] == [items[0]] && items[..1][..0] == [];
    assert Start(items, 0) == 0 && Start(items, 1) == 1;
    assert Layout(items[..1]) == [Some(SlotOf(a))];
    assert Layout(items) == [Some(SlotOf(a)), Some(SlotOf(b)), Some(SlotOf(b))];
    WordPairIsBitsIff(lib, wire, Layout(items), vals, 1, SlotOf(b));
  }
}
