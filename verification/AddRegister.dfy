/** Adding one register at run time, and its agreement with the full check. */
module AddRegister {
  import opened Common
  import opened GatewayConfig
  import opened DependencyGraph
  import opened GatewayValidate

  function FindDevice(devices: seq<DeviceConfig>, name: string): (r: Option<nat>)
    ensures r.Some? ==> r.value < |devices| && devices[r.value].name == name
    ensures r.Some? ==> forall i :: 0 <= i < r.value ==> devices[i].name != name
    ensures r.None? ==> forall i :: 0 <= i < |devices| ==> devices[i].name != name
  {
    if devices == [] then None
    else if devices[0].name == name then Some(0)
    else
      match FindDevice(devices[1..], name)
      case None => None
      case Some(i) => Some(i + 1)
  }

  function SaturatingEnd(r: RegisterConfig): int {
    if r.address + r.EffectiveCount() > U16_MAX then U16_MAX else r.address + r.EffectiveCount()
  }

  /** The ranges the incremental check compares: by declared count, not by type. */
  predicate OverlapsExisting(reg: RegisterConfig, r: RegisterConfig) {
    && r.function_ == reg.function_
    && reg.address < SaturatingEnd(r)
    && r.address < reg.address + reg.EffectiveCount()
  }

  predicate PipelineAccepted(lib: Meval, reg: RegisterConfig, pipeline: Option<PipelineConfig>) {
    pipeline.Some? ==>
      && pipeline.value.sensorId == reg.sensorId
      && pipeline.value.stages != []
      && forall s :: s in pipeline.value.stages ==> StageOk(lib, s)
  }

  /** What the incremental check looks at. */
  ghost predicate AddAccepts(lib: Meval, c: Config, k: nat, reg: RegisterConfig, pipeline: Option<PipelineConfig>)
    requires k < |c.devices|
  {
    && reg.sensorId !in RegisterIds(c.devices)
    && reg.address + reg.EffectiveCount() <= U16_MAX
    && (forall r :: r in c.devices[k].registers ==> !OverlapsExisting(reg, r))
    && PipelineAccepted(lib, reg, pipeline)
  }

  function Push(d: DeviceConfig, reg: RegisterConfig): DeviceConfig {
    d.(registers := d.registers + [reg])
  }

  function Pushed(c: Config, k: nat, reg: RegisterConfig, pipeline: Option<PipelineConfig>): Config
    requires k < |c.devices|
  {
    c.(devices := c.devices[k := Push(c.devices[k], reg)],
       pipelines := c.pipelines + (match pipeline case None => [] case Some(p) => [p]))
  }

  /** A configuration under modification. */
  class Draft {
    var config: Config

    constructor (config: Config)
      ensures this.config == config
    {
      this.config := config;
    }

    /** Adds a register, and optionally its pipeline, to a device; on an error nothing changes. */
    method AddRegister(lib: Meval, deviceName: string, reg: RegisterConfig, pipeline: Option<PipelineConfig>)
      returns (r: Result<(), string>)
      modifies this
      ensures var k := FindDevice(old(config).devices, deviceName);
              && (r.Ok? <==> k.Some? && AddAccepts(lib, old(config), k.value, reg, pipeline))
              && config == if r.Ok? then Pushed(old(config), k.value, reg, pipeline) else old(config)
      ensures r.Ok? ==>
                exists k :: && 0 <= k < |old(config).devices| && old(config).devices[k].name == deviceName
                            && config.devices == old(config).devices[k := old(config).devices[k].(
                                 registers := old(config).devices[k].registers + [reg])]
                            && config == old(config).(devices := config.devices, pipelines := config.pipelines)
      ensures r.Ok? && pipeline.None? ==> config.pipelines == old(config).pipelines
      ensures r.Ok? && pipeline.Some? ==> config.pipelines == old(config).pipelines + [pipeline.value]
    {
      var devices := config.devices;
      for i := 0 to |devices|
        invariant config == old(config)
        invariant reg.sensorId !in RegisterIds(devices[..i])
      {
        assert devices[..i + 1][..i] == devices[..i];
        RegisterIdsPrefix(devices, i + 1);
        if reg.sensorId in SensorIds(devices[i].registers) {
          assert reg.sensorId in RegisterIds(devices[..i + 1]);
          return Err("duplicate sensor_id");
        }
      }
      assert devices[..|devices|] == devices;
      var k := FindDevice(devices, deviceName);
      if k.None? {
        return Err("device not found");
      }
      if reg.address + reg.EffectiveCount() > U16_MAX {
        return Err("register address overflow");
      }
      var registers := devices[k.value].registers;
      for i := 0 to |registers|
        invariant config == old(config)
        invariant forall j :: 0 <= j < i ==> !OverlapsExisting(reg, registers[j])
      {
        if OverlapsExisting(reg, registers[i]) {
          assert registers[i] in registers;
          return Err("register range overlaps");
        }
      }
      if !PipelineAccepted(lib, reg, pipeline) {
        return Err("invalid pipeline");
      }
      config := Pushed(config, k.value, reg, pipeline);
      return Ok(());
    }
  }

  // ----- Agreement with the full check -----

  /** The rules of the full check that the incremental one leaves to it. */
  ghost predicate LocalRules(c: Config, k: nat, reg: RegisterConfig, pipeline: Option<PipelineConfig>)
    requires k < |c.devices|
  {
    && reg.name !in RegisterNames(c.devices[k].registers)
    && (IsBit(reg.function_) ==> reg.valueType == Bool)
    && (reg.access == ReadWrite ==> IsWritable(reg.function_))
    && reg.EffectiveCount() == RegisterCount(reg.valueType)
    && |c.devices[k].registers| < MAX_REGISTERS
    && reg.sensorId !in ComputedIds(c.computed)
    && (pipeline.Some? ==> |pipeline.value.stages| <= MAX_STAGES)
  }

  /** Inserting an item keeps a list duplicate-free exactly when it is new. */
  lemma {:induction false} DistinctInsert<T>(a: seq<T>, x: T, b: seq<T>)
    requires Distinct(a + b)
    ensures Distinct(a + [x] + b) <==> x !in a + b
  {
    var all := a + [x] + b;
    if x !in a + b {
      forall i, j | 0 <= i < j < |all| ensures all[i] != all[j] {
        var i', j' := if i < |a| then i else i - 1, if j < |a| then j else j - 1;
        if i != |a| && j != |a| {
          assert (a + b)[i'] == all[i] && (a + b)[j'] == all[j];
        } else if i == |a| {
          assert (a + b)[j'] == all[j];
        } else {
          assert (a + b)[i'] == all[i];
        }
      }
    } else {
      var n :| 0 <= n < |a + b| && (a + b)[n] == x;
      var n' := if n < |a| then n else n + 1;
      assert all[n'] == x && all[|a|] == x && n' != |a|;
    }
  }

  /** Pushing a register inserts its id into the list of all register ids. */
  lemma {:induction false} PushInsertsId(devices: seq<DeviceConfig>, k: nat, reg: RegisterConfig)
    returns (a: seq<string>, b: seq<string>)
    requires k < |devices|
    ensures RegisterIds(devices) == a + b
    ensures RegisterIds(devices[k := Push(devices[k], reg)]) == a + [reg.sensorId] + b
  {
    var n := |devices| - 1;
    var after := devices[k := Push(devices[k], reg)];
    if k == n {
      a, b := RegisterIds(devices), [];
      assert after[..n] == devices[..n];
      assert SensorIds(after[n].registers) == SensorIds(devices[n].registers) + [reg.sensorId];
    } else {
      a, b := PushInsertsId(devices[..n], k, reg);
      assert after[..n] == devices[..n][k := Push(devices[k], reg)];
      b := b + SensorIds(devices[n].registers);
    }
  }

  lemma {:induction false} PushedIdsDistinct(c: Config, k: nat, reg: RegisterConfig)
    requires k < |c.devices| && Distinct(RegisterIds(c.devices) + ComputedIds(c.computed))
    ensures var ids := RegisterIds(c.devices[k := Push(c.devices[k], reg)]);
            && (Distinct(ids + ComputedIds(c.computed))
                <==> reg.sensorId !in RegisterIds(c.devices) && reg.sensorId !in ComputedIds(c.computed))
            && Elements(ids) == Elements(RegisterIds(c.devices)) + {reg.sensorId}
  {
    var a, b := PushInsertsId(c.devices, k, reg);
    var computed := ComputedIds(c.computed);
    assert a + b + computed == a + (b + computed);
    assert a + [reg.sensorId] + b + computed == a + [reg.sensorId] + (b + computed);
    DistinctInsert(a, reg.sensorId, b + computed);
  }

  lemma {:induction false} PushedRegistersOk(regs: seq<RegisterConfig>, reg: RegisterConfig)
    requires RegistersOk(regs)
    ensures RegistersOk(regs + [reg]) <==>
            && reg.name !in RegisterNames(regs)
            && RegisterOk(reg)
            && forall r :: r in regs ==> !Clash(RangeOf(reg), RangeOf(r))
  {
    var all := regs + [reg];
    assert RegisterNames(all) == RegisterNames(regs) + [reg.name];
    DistinctAppend(RegisterNames(regs), reg.name);
    if NoClash(all) {
      forall r | r in regs ensures !Clash(RangeOf(reg), RangeOf(r)) {
        var i :| 0 <= i < |regs| && regs[i] == r;
        assert !Clash(RangeOf(all[|regs|]), RangeOf(all[i]));
      }
    }
    assert forall r :: r in all <==> r in regs || r == reg;
  }

  /** For a register whose count matches its type and well-formed neighbours, the two overlap
      tests agree. */
  lemma {:induction false} OverlapTestsAgree(reg: RegisterConfig, r: RegisterConfig)
    requires RegisterOk(r) && reg.EffectiveCount() == RegisterCount(reg.valueType)
    ensures OverlapsExisting(reg, r) <==> Clash(RangeOf(reg), RangeOf(r))
  {
  }

  lemma {:induction false} PushedDevicesOk(c: Config, k: nat, reg: RegisterConfig)
    requires k < |c.devices|
    requires forall d :: d in c.devices ==> ConnectionOk(d) && RegistersOk(d.registers)
    ensures var devices := c.devices[k := Push(c.devices[k], reg)];
            (forall d :: d in devices ==> ConnectionOk(d) && RegistersOk(d.registers)) <==>
            |c.devices[k].registers| < MAX_REGISTERS && RegistersOk(c.devices[k].registers + [reg])
  {
    var devices := c.devices[k := Push(c.devices[k], reg)];
    assert devices[k] in devices && c.devices[k] in c.devices;
    forall d | d in devices && d != devices[k] ensures d in c.devices {
      var i :| 0 <= i < |devices| && devices[i] == d;
      assert c.devices[i] == d;
    }
  }

  /** The pipelines of a valid configuration stay valid when the register ids grow; one for the
      new register may be added. */
  lemma {:induction false} PushedPipelinesOk(
    lib: Meval, pipelines: seq<PipelineConfig>, known: set<string>, id: string, pipeline: Option<PipelineConfig>)
    requires PipelinesOk(lib, pipelines, known) && id !in known
    requires pipeline.Some? ==> pipeline.value.sensorId == id
    ensures PipelinesOk(lib, pipelines + (match pipeline case None => [] case Some(p) => [p]), known + {id}) <==>
            (pipeline.Some? ==> StagesOk(lib, pipeline.value))
  {
    match pipeline
    case None =>
      assert pipelines + [] == pipelines;
    case Some(p) =>
      var all := pipelines + [p];
      assert PipelineIds(all) == PipelineIds(pipelines) + [p.sensorId];
      assert forall i :: 0 <= i < |pipelines| ==> pipelines[i] in pipelines;
      assert p.sensorId !in PipelineIds(pipelines);
      DistinctAppend(PipelineIds(pipelines), p.sensorId);
      assert forall q :: q in all <==> q in pipelines || q == p;
  }

  lemma {:induction false} PushedComputedOk(lib: Meval, computed: seq<ComputedConfig>, known: set<string>, id: string)
    requires forall k :: k in computed ==> ComputedOk(lib, k, known + IdSet(computed))
    ensures forall k :: k in computed ==> ComputedOk(lib, k, known + {id} + IdSet(computed))
  {
  }

  lemma {:induction false} PushedNames(c: Config, k: nat, reg: RegisterConfig)
    requires k < |c.devices|
    ensures DeviceNames(c.devices[k := Push(c.devices[k], reg)]) == DeviceNames(c.devices)
  {
  }

  /** Starting from a valid configuration, the configuration with the register (and its pipeline)
      added is valid exactly when the incremental check accepts and the remaining local rules
      hold. */
  lemma {:induction false} IncrementalAgreesWithFull(
    lib: Meval, c: Config, k: nat, reg: RegisterConfig, pipeline: Option<PipelineConfig>)
    requires Valid(lib, c) && k < |c.devices|
    requires pipeline.Some? ==> pipeline.value.sensorId == reg.sensorId
    ensures Valid(lib, Pushed(c, k, reg, pipeline)) <==>
            AddAccepts(lib, c, k, reg, pipeline) && LocalRules(c, k, reg, pipeline)
  {
    var after := Pushed(c, k, reg, pipeline);
    var known := Elements(RegisterIds(c.devices));
    PushedNames(c, k, reg);
    PushedIdsDistinct(c, k, reg);
    PushedDevicesOk(c, k, reg);
    assert c.devices[k] in c.devices;
    PushedRegistersOk(c.devices[k].registers, reg);
    if reg.EffectiveCount() == RegisterCount(reg.valueType) {
      forall r | r in c.devices[k].registers
        ensures OverlapsExisting(reg, r) <==> Clash(RangeOf(reg), RangeOf(r))
      {
        OverlapTestsAgree(reg, r);
      }
    }
    PushedComputedOk(lib, c.computed, known, reg.sensorId);
    if reg.sensorId !in known {
      PushedPipelinesOk(lib, c.pipelines, known, reg.sensorId, pipeline);
    }
    assert Elements(RegisterIds(after.devices)) == known + {reg.sensorId};
  }
}
