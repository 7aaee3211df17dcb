/** What the simulator's registers read, in plain arithmetic and in terms of the configuration. */
module SimReadLaws {
  import opened Common
  import opened Fixpoint
  import opened Placement
  import opened SimModel
  import opened SimRegisters
  import Codec
  import CodecLaws

  /** `word` is the integer from 0 to 65535 nearest to `x`. */
  ghost predicate IsRounded(x: real, word: u16) {
    CodecLaws.RoundsTo(Codec.Finite(x), 0, 65535, word)
  }

  ghost predicate HasEncoder(lib: Meval, encode: Option<string>) {
    encode.Some? && lib.parses(encode.value) && lib.binds(encode.value, {"v"})
  }

  /** The word at `addr` of a sensor with value `v`, if it has one: a half of its bits or its value,
      encoded or rounded. */
  ghost predicate Reads(lib: Meval, wire: Wire, s: SimSensor, v: Option<real>, addr: nat, word: u16) {
    && (s.storage == F32 && addr % 2 == 0 ==> word == wire.bits(v) / 65536)
    && (s.storage == F32 && addr % 2 == 1 ==> word == wire.bits(v) % 65536)
    && (s.storage == U16 && HasEncoder(lib, s.encode) ==> word == wire.raw(s.encode.value, v))
    && (s.storage == U16 && !HasEncoder(lib, s.encode) ==>
          (v.None? ==> word == 0) && (v.Some? ==> IsRounded(v.value, word)))
  }

  lemma {:induction false} SensorWordReads(lib: Meval, wire: Wire, s: SimSensor, v: Option<real>, addr: nat)
    ensures Reads(lib, wire, s, v, addr, SensorWord(lib, wire, SlotOf(s), v, addr))
  {
    if v.Some? {
      CodecLaws.CastRounds(Codec.Finite(v.value), 0, 65535);
    }
  }

  /** The item placed for a sensor of an area. */
  lemma {:induction false} ItemOfSensor(sensors: seq<SimSensor>, area: Area, s: SimSensor) returns (i: nat)
    requires s in sensors && s.area == area
    ensures i < |AreaItems(sensors, area)|
    ensures AreaItems(sensors, area)[i]
            == Item(s.address, if area == Coils || s.storage == U16 then 1 else 2, SlotOf(s))
  {
    var n := |sensors| - 1;
    if s == sensors[n] {
      i := |AreaItems(sensors[..n], area)|;
    } else {
      i := ItemOfSensor(sensors[..n], area, s);
    }
  }

  /** An input sensor placed at `a` is read there, and one of two words at `a + 1` as well, whenever
      building the area overwrites nothing. */
  lemma {:induction false} InputIsServed(
    lib: Meval, wire: Wire, cfg: SimConfig, vals: Valuation, s: SimSensor, a: u16, addr: nat)
    requires Intact(AreaItems(IterSensors(cfg), Input), Layout(AreaItems(IterSensors(cfg), Input)))
    requires s in IterSensors(cfg) && s.area == Input && s.address == Some(a)
    requires addr == a || (addr == a + 1 && s.storage == F32)
    ensures var v := if s.sensorId in vals then Some(vals[s.sensorId]) else None;
            Reads(lib, wire, s, v, addr, InputWord(lib, wire, Layout(AreaItems(IterSensors(cfg), Input)), vals, addr))
  {
    var items := AreaItems(IterSensors(cfg), Input);
    var i := ItemOfSensor(IterSensors(cfg), Input, s);
    assert Start(items, i) == a && Covers(items, i, addr);
    SensorWordReads(lib, wire, s, Lookup(vals, s.sensorId), addr);
  }

  /** A coil placed at `a` is found there under the same condition. */
  lemma {:induction false} CoilIsServed(cfg: SimConfig, s: SimSensor, a: u16)
    requires Intact(AreaItems(IterSensors(cfg), Coils), Layout(AreaItems(IterSensors(cfg), Coils)))
    requires s in IterSensors(cfg) && s.area == Coils && s.address == Some(a)
    ensures var coils := Layout(AreaItems(IterSensors(cfg), Coils));
            a < |coils| && coils[a].Some? && coils[a].value.sensorId == s.sensorId
  {
    var items := AreaItems(IterSensors(cfg), Coils);
    var i := ItemOfSensor(IterSensors(cfg), Coils, s);
    assert Start(items, i) == a && Covers(items, i, a);
  }

  lemma {:induction false} ItemOfControl(controls: seq<SimControl>, sensors: seq<SimSensor>, n: nat, k: nat)
    requires n <= |sensors| && k < |controls|
    ensures k < |HoldingItemsUpTo(controls, sensors, n)|
    ensures HoldingItemsUpTo(controls, sensors, n)[k]
            == Item(controls[k].address, 1, Control(controls[k].name, controls[k].writable))
  {
    if n > 0 {
      ItemOfControl(controls, sensors, n - 1, k);
    }
  }

  lemma {:induction false} ItemOfHoldingSensor(
    controls: seq<SimControl>, sensors: seq<SimSensor>, n: nat, s: SimSensor) returns (i: nat)
    requires n <= |sensors| && s in sensors[..n] && s.area == Holding
    ensures i < |HoldingItemsUpTo(controls, sensors, n)|
    ensures HoldingItemsUpTo(controls, sensors, n)[i]
            == Item(s.address, if s.storage == U16 then 1 else 2, Sensor(SlotOf(s)))
  {
    if s == sensors[n - 1] {
      i := |HoldingItemsUpTo(controls, sensors, n - 1)|;
    } else {
      i := ItemOfHoldingSensor(controls, sensors, n - 1, s);
    }
  }

  /** A control placed at `a` reads as its current value, rounded and limited. */
  lemma {:induction false} ControlIsServed(
    lib: Meval, wire: Wire, cfg: SimConfig, controls: map<string, real>, vals: Valuation, k: nat, a: u16)
    requires Intact(HoldingItems(cfg), Layout(HoldingItems(cfg)))
    requires k < |cfg.controls| && cfg.controls[k].address == Some(a) && cfg.controls[k].name in controls
    ensures IsRounded(controls[cfg.controls[k].name],
                      HoldingWord(lib, wire, cfg, controls, Layout(HoldingItems(cfg)), vals, a))
  {
    var items := HoldingItems(cfg);
    ItemOfControl(cfg.controls, IterSensors(cfg), |IterSensors(cfg)|, k);
    assert Start(items, k) == a && Covers(items, k, a);
    CodecLaws.CastRounds(Codec.Finite(controls[cfg.controls[k].name]), 0, 65535);
  }

  /** A holding sensor placed at `a` is read there like an input sensor. */
  lemma {:induction false} HoldingIsServed(lib: Meval, wire: Wire, cfg: SimConfig, controls: map<string, real>,
                          vals: Valuation, s: SimSensor, a: u16, addr: nat)
    requires Intact(HoldingItems(cfg), Layout(HoldingItems(cfg)))
    requires s in IterSensors(cfg) && s.area == Holding && s.address == Some(a)
    requires addr == a || (addr == a + 1 && s.storage == F32)
    ensures var v := if s.sensorId in vals then Some(vals[s.sensorId]) else None;
            Reads(lib, wire, s, v, addr,
                  HoldingWord(lib, wire, cfg, controls, Layout(HoldingItems(cfg)), vals, addr))
  {
    var items, sensors := HoldingItems(cfg), IterSensors(cfg);
    assert sensors[..|sensors|] == sensors;
    var i := ItemOfHoldingSensor(cfg.controls, sensors, |sensors|, s);
    assert Start(items, i) == a && Covers(items, i, addr);
    SensorWordReads(lib, wire, s, Lookup(vals, s.sensorId), addr);
  }
}
