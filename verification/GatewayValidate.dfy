/** The gateway's full configuration check, made before a configuration is used. */
module GatewayValidate {
  import opened Common
  import opened GatewayConfig
  import opened DependencyGraph
  import opened CycleCheck

  const MAX_DEVICES := 64
  const MAX_REGISTERS := 256
  const MAX_STAGES := 16
  const MAX_WINDOW := 1024
  const MAX_UNIT_ID := 247

  // ----- What a valid configuration is -----

  predicate InOrder(low: Option<real>, high: Option<real>) {
    low.Some? && high.Some? ==> low.value <= high.value
  }

  predicate StageOk(lib: Meval, stage: StageConfig) {
    match stage
    case Scale(_, _, _) => true
    case SlidingAverage(window) => 1 <= window <= MAX_WINDOW
    case Median(window) => 1 <= window <= MAX_WINDOW
    case Aggregate(window, _) => 1 <= window <= MAX_WINDOW
    case Math(expression) => lib.parses(expression)
    case Threshold(lw, hw, lc, hc) =>
      (lw.Some? || hw.Some? || lc.Some? || hc.Some?) && InOrder(lc, hc) && InOrder(lw, hw)
  }

  predicate ConnectionOk(d: DeviceConfig) {
    && d.unitId <= MAX_UNIT_ID
    && (d.transport.Tcp? ==> d.host != "" && d.port != 0)
    && (d.transport.Rtu? ==> d.serialPort.Some? && d.baudRate.Some?)
    && d.pollIntervalMs != 0
    && d.timeoutMs != 0
    && d.reconnectInitialMs <= d.reconnectMaxMs
    && 1 <= |d.registers| <= MAX_REGISTERS
  }

  predicate RegisterOk(r: RegisterConfig) {
    && (IsBit(r.function_) ==> r.valueType == Bool)
    && (r.access == ReadWrite ==> IsWritable(r.function_))
    && r.EffectiveCount() == RegisterCount(r.valueType)
    && r.address + RegisterCount(r.valueType) <= U16_MAX
  }

  /** A register is well-formed exactly if coils and discrete inputs are booleans, only coils and
      holding registers are writable, and its count, if given, is the number of words of its type,
      the last of which lies below 65535. */
  lemma {:induction false} RegisterOkIff(r: RegisterConfig)
    ensures var words := if r.valueType in {U32, I32, F32} then 2 else 1;
            RegisterOk(r) <==>
            && (r.function_ in {Coil, DiscreteInput} ==> r.valueType == Bool)
            && (r.access == ReadWrite ==> r.function_ in {Coil, Holding})
            && (r.count == None || r.count == Some(words))
            && r.address + words - 1 < 65535
  {
  }

  /** A register's address space with its first address and the one after its last. */
  type Range = (RegisterFunction, int, int)

  function RangeOf(r: RegisterConfig): Range {
    (r.function_, r.address, r.address + RegisterCount(r.valueType))
  }

  predicate Clash(p: Range, q: Range) {
    p.0 == q.0 && p.1 < q.2 && q.1 < p.2
  }

  function RegisterNames(regs: seq<RegisterConfig>): seq<string> {
    seq(|regs|, i requires 0 <= i < |regs| => regs[i].name)
  }

  function SensorIds(regs: seq<RegisterConfig>): seq<string> {
    seq(|regs|, i requires 0 <= i < |regs| => regs[i].sensorId)
  }

  ghost predicate NoClash(regs: seq<RegisterConfig>) {
    forall i, j :: 0 <= i < j < |regs| ==> !Clash(RangeOf(regs[j]), RangeOf(regs[i]))
  }

  ghost predicate RegistersOk(regs: seq<RegisterConfig>) {
    && Distinct(RegisterNames(regs))
    && (forall r :: r in regs ==> RegisterOk(r))
    && NoClash(regs)
  }

  /** The register takes address `a`: its own, and the next one for a 32-bit type. */
  predicate Occupies(r: RegisterConfig, a: int) {
    a == r.address || (a == r.address + 1 && r.valueType in {U32, I32, F32})
  }

  /** Registers do not clash exactly if no address of an area is taken by two of them. */
  lemma {:induction false} NoClashIff(regs: seq<RegisterConfig>)
    ensures NoClash(regs) <==>
            forall i, j, a :: 0 <= i < j < |regs| && Occupies(regs[i], a) && Occupies(regs[j], a) ==>
                                regs[i].function_ != regs[j].function_
  {
    forall i, j | 0 <= i < j < |regs|
      ensures Clash(RangeOf(regs[j]), RangeOf(regs[i])) <==>
              && regs[i].function_ == regs[j].function_
              && exists a :: Occupies(regs[i], a) && Occupies(regs[j], a)
    {
      var p, q := regs[i], regs[j];
      if Clash(RangeOf(q), RangeOf(p)) {
        var a := if p.address < q.address then q.address else p.address;
        assert Occupies(p, a) && Occupies(q, a);
      }
    }
  }

  function DeviceNames(devices: seq<DeviceConfig>): seq<string> {
    seq(|devices|, i requires 0 <= i < |devices| => devices[i].name)
  }

  /** The sensor ids of all registers, device by device. */
  function RegisterIds(devices: seq<DeviceConfig>): seq<string> {
    if devices == [] then []
    else RegisterIds(devices[..|devices| - 1]) + SensorIds(devices[|devices| - 1].registers)
  }

  function PipelineIds(pipelines: seq<PipelineConfig>): seq<string> {
    seq(|pipelines|, i requires 0 <= i < |pipelines| => pipelines[i].sensorId)
  }

  predicate StagesOk(lib: Meval, p: PipelineConfig) {
    1 <= |p.stages| <= MAX_STAGES && forall s :: s in p.stages ==> StageOk(lib, s)
  }

  ghost predicate PipelinesOk(lib: Meval, pipelines: seq<PipelineConfig>, known: set<string>) {
    && Distinct(PipelineIds(pipelines))
    && forall p :: p in pipelines ==> p.sensorId in known && StagesOk(lib, p)
  }

  predicate ComputedOk(lib: Meval, c: ComputedConfig, known: set<string>) {
    && c.name != ""
    && c.inputs != map[]
    && (forall v :: v in c.inputs ==> c.inputs[v] in known)
    && lib.parses(c.expression)
    && lib.binds(c.expression, c.inputs.Keys)
  }

  ghost predicate Valid(lib: Meval, c: Config) {
    && 1 <= |c.devices| <= MAX_DEVICES
    && Distinct(DeviceNames(c.devices))
    && (forall d :: d in c.devices ==> ConnectionOk(d) && RegistersOk(d.registers))
    && Distinct(RegisterIds(c.devices) + ComputedIds(c.computed))
    && PipelinesOk(lib, c.pipelines, Elements(RegisterIds(c.devices)))
    && (forall k :: k in c.computed ==> ComputedOk(lib, k, Elements(RegisterIds(c.devices)) + IdSet(c.computed)))
    && !HasCycle(c.computed)
  }

  // ----- The full check -----

  method ClashesAny(ranges: seq<Range>, range: Range) returns (found: bool)
    ensures found <==> exists k :: 0 <= k < |ranges| && Clash(range, ranges[k])
  {
    for k := 0 to |ranges|
      invariant forall j :: 0 <= j < k ==> !Clash(range, ranges[j])
    {
      if Clash(range, ranges[k]) {
        return true;
      }
    }
    return false;
  }

  /** The ranges of the first registers, all of which are well-formed and clash-free. */
  ghost predicate RangesTaken(regs: seq<RegisterConfig>, ranges: seq<Range>) {
    && |ranges| <= |regs|
    && (forall k :: 0 <= k < |ranges| ==> ranges[k] == RangeOf(regs[k]) && RegisterOk(regs[k]))
    && (forall j, k :: 0 <= j < k < |ranges| ==> !Clash(ranges[k], ranges[j]))
  }

  /** Checks one register against those before it and takes its range. */
  method TakeRange(regs: seq<RegisterConfig>, ranges: seq<Range>) returns (r: Result<seq<Range>, string>)
    requires RangesTaken(regs, ranges) && |ranges| < |regs|
    ensures r.Ok? ==> RangesTaken(regs, r.value) && |r.value| == |ranges| + 1
    ensures r.Err? ==> !RegistersOk(regs)
  {
    var reg := regs[|ranges|];
    assert reg in regs;
    if !RegisterOk(reg) {
      return Err("invalid register");
    }
    var clash := ClashesAny(ranges, RangeOf(reg));
    if clash {
      var k :| 0 <= k < |ranges| && Clash(RangeOf(reg), ranges[k]);
      assert Clash(RangeOf(regs[|ranges|]), RangeOf(regs[k]));
      return Err("register range overlaps");
    }
    return Ok(ranges + [RangeOf(reg)]);
  }

  method ValidateRegisters(regs: seq<RegisterConfig>, seenBefore: set<string>, ghost idsBefore: seq<string>)
    returns (r: Result<set<string>, string>)
    requires seenBefore == Elements(idsBefore) && Distinct(idsBefore)
    ensures r.Ok? <==> RegistersOk(regs) && Distinct(idsBefore + SensorIds(regs))
    ensures r.Ok? ==> r.value == Elements(idsBefore + SensorIds(regs))
  {
    var names: set<string> := {};
    var seen := seenBefore;
    var ranges: seq<Range> := [];
    ghost var allNames, allIds := RegisterNames(regs), SensorIds(regs);
    assert idsBefore + allIds[..0] == idsBefore;
    for i := 0 to |regs|
      invariant names == Elements(allNames[..i]) && Distinct(allNames[..i])
      invariant seen == Elements(idsBefore + allIds[..i]) && Distinct(idsBefore + allIds[..i])
      invariant |ranges| == i && RangesTaken(regs, ranges)
    {
      DistinctStep(allNames, i);
      DistinctStepAfter(idsBefore, allIds, i);
      if regs[i].name in names {
        return Err("duplicate register name");
      }
      names := names + {regs[i].name};
      if regs[i].sensorId in seen {
        return Err("duplicate sensor_id");
      }
      seen := seen + {regs[i].sensorId};
      var taken := TakeRange(regs, ranges);
      if taken.Err? {
        return Err(taken.error);
      }
      ranges := taken.value;
    }
    assert allNames[..|regs|] == allNames && allIds[..|regs|] == allIds;
    return Ok(seen);
  }

  lemma {:induction false} RegisterIdsPrefix(devices: seq<DeviceConfig>, n: nat)
    requires n <= |devices|
    ensures RegisterIds(devices[..n]) <= RegisterIds(devices)
  {
    if n < |devices| {
      assert devices[..|devices| - 1][..n] == devices[..n];
      RegisterIdsPrefix(devices[..|devices| - 1], n);
    } else {
      assert devices[..n] == devices;
    }
  }

  method ValidateDevices(devices: seq<DeviceConfig>) returns (r: Result<set<string>, string>)
    ensures r.Ok? <==> && Distinct(DeviceNames(devices))
                       && (forall d :: d in devices ==> ConnectionOk(d) && RegistersOk(d.registers))
                       && Distinct(RegisterIds(devices))
    ensures r.Ok? ==> r.value == Elements(RegisterIds(devices))
  {
    var names, seen: set<string> := {}, {};
    ghost var allNames := DeviceNames(devices);
    for i := 0 to |devices|
      invariant names == Elements(allNames[..i]) && Distinct(allNames[..i])
      invariant seen == Elements(RegisterIds(devices[..i])) && Distinct(RegisterIds(devices[..i]))
      invariant forall k :: 0 <= k < i ==> ConnectionOk(devices[k]) && RegistersOk(devices[k].registers)
    {
      DistinctStep(allNames, i);
      RegisterIdsPrefix(devices, i + 1);
      assert devices[..i + 1][..i] == devices[..i];
      assert devices[i] in devices;
      if devices[i].name in names {
        return Err("duplicate device name");
      }
      names := names + {devices[i].name};
      if !ConnectionOk(devices[i]) {
        return Err("invalid device");
      }
      var registers := ValidateRegisters(devices[i].registers, seen, RegisterIds(devices[..i]));
      if registers.Err? {
        return registers;
      }
      seen := registers.value;
    }
    assert allNames[..|devices|] == allNames && devices[..|devices|] == devices;
    return Ok(seen);
  }

  method ValidatePipelines(lib: Meval, pipelines: seq<PipelineConfig>, known: set<string>)
    returns (r: Result<(), string>)
    ensures r.Ok? <==> PipelinesOk(lib, pipelines, known)
  {
    var seen: set<string> := {};
    ghost var all := PipelineIds(pipelines);
    for i := 0 to |pipelines|
      invariant seen == Elements(all[..i]) && Distinct(all[..i])
      invariant forall k :: 0 <= k < i ==> pipelines[k].sensorId in known && StagesOk(lib, pipelines[k])
    {
      DistinctStep(all, i);
      assert pipelines[i] in pipelines;
      if pipelines[i].sensorId !in known {
        return Err("pipeline sensor_id does not match any device register");
      }
      if pipelines[i].sensorId in seen {
        return Err("duplicate pipeline");
      }
      seen := seen + {pipelines[i].sensorId};
      if !StagesOk(lib, pipelines[i]) {
        return Err("invalid stages");
      }
    }
    assert all[..|pipelines|] == all;
    return Ok(());
  }

  method ValidateComputedIds(computed: seq<ComputedConfig>, known: set<string>, ghost ids: seq<string>)
    returns (r: Result<(), string>)
    requires known == Elements(ids) && Distinct(ids)
    ensures r.Ok? <==> && Distinct(ids + ComputedIds(computed))
                       && forall c :: c in computed ==> c.name != "" && c.inputs != map[]
  {
    var seen := known;
    ghost var all := ComputedIds(computed);
    assert ids + all[..0] == ids;
    for i := 0 to |computed|
      invariant seen == Elements(ids + all[..i]) && Distinct(ids + all[..i])
      invariant forall k :: 0 <= k < i ==> computed[k].name != "" && computed[k].inputs != map[]
    {
      DistinctStepAfter(ids, all, i);
      assert computed[i] in computed;
      if computed[i].sensorId in seen {
        return Err("duplicate sensor_id");
      }
      seen := seen + {computed[i].sensorId};
      if computed[i].name == "" || computed[i].inputs == map[] {
        return Err("computed: name and at least one input are required");
      }
    }
    assert all[..|computed|] == all;
    return Ok(());
  }

  method ValidateReferences(lib: Meval, computed: seq<ComputedConfig>, all: set<string>) returns (r: Result<(), string>)
    ensures r.Ok? <==> forall c :: c in computed ==> ComputedOk(lib, c, all)
  {
    for i := 0 to |computed|
      invariant forall k :: 0 <= k < i ==> ComputedOk(lib, computed[k], all)
    {
      assert computed[i] in computed;
      if !ComputedOk(lib, computed[i], all) {
        return Err("computed: unknown input or invalid expression");
      }
    }
    return Ok(());
  }

  lemma {:induction false} ComputedOkIsComplete(lib: Meval, computed: seq<ComputedConfig>, all: set<string>)
    requires forall c :: c in computed ==> ComputedOk(lib, c, all)
    ensures forall c :: c in computed ==> c.name != "" && c.inputs != map[]
  {
  }

  /** First all computed ids, so that references may point forward; then each sensor's inputs and
      expression; last the search for cycles. */
  method ValidateComputed(lib: Meval, computed: seq<ComputedConfig>, known: set<string>, ghost ids: seq<string>)
    returns (r: Result<(), string>)
    requires known == Elements(ids) && Distinct(ids)
    ensures r.Ok? <==> && Distinct(ids + ComputedIds(computed))
                       && (forall c :: c in computed ==> ComputedOk(lib, c, known + IdSet(computed)))
                       && !HasCycle(computed)
  {
    r := ValidateComputedIds(computed, known, ids);
    if r.Err? {
      if forall c :: c in computed ==> ComputedOk(lib, c, known + IdSet(computed)) {
        ComputedOkIsComplete(lib, computed, known + IdSet(computed));
      }
      return;
    }
    r := ValidateReferences(lib, computed, known + IdSet(computed));
    if r.Err? {
      return;
    }
    var search := new CycleSearch(computed);
    r := search.Check();
  }

  /** Accepts exactly the valid configurations. */
  method Validate(lib: Meval, c: Config) returns (r: Result<(), string>)
    ensures r.Ok? <==> Valid(lib, c)
  {
    if c.devices == [] {
      return Err("at least one device is required");
    }
    if |c.devices| > MAX_DEVICES {
      return Err("too many devices");
    }
    var known := ValidateDevices(c.devices);
    if known.Err? {
      if Distinct(RegisterIds(c.devices) + ComputedIds(c.computed)) {
        DistinctPrefix(RegisterIds(c.devices), RegisterIds(c.devices) + ComputedIds(c.computed));
      }
      return Err(known.error);
    }
    r := ValidatePipelines(lib, c.pipelines, known.value);
    if r.Err? {
      return;
    }
    r := ValidateComputed(lib, c.computed, known.value, RegisterIds(c.devices));
  }
}
