/** When adding a register at run time keeps the addresses of the gateway's table. */
module AddressStability {
  import opened Common
  import opened GatewayConfig
  import opened DependencyGraph
  import opened GatewayValidate
  import opened AddRegister
  import opened ModbusTable
  import opened WriteRouting

  /** A device after device `k` has a register of area `f`. */
  ghost predicate LaterRegister(devices: seq<DeviceConfig>, k: nat, f: RegisterFunction) {
    exists j, i :: k < j < |devices| && 0 <= i < |devices[j].registers| && devices[j].registers[i].function_ == f
  }

  lemma {:induction false} LaterRegisterSnoc(devices: seq<DeviceConfig>, k: nat, f: RegisterFunction)
    requires k < |devices| - 1
    ensures LaterRegister(devices, k, f) <==>
            LaterRegister(devices[..|devices| - 1], k, f) || Uses(DeviceEntries(devices[|devices| - 1]), f)
  {
    var n := |devices| - 1;
    var last := DeviceEntries(devices[n]);
    if LaterRegister(devices[..n], k, f) {
      var j, i :| k < j < n && 0 <= i < |devices[..n][j].registers| && devices[..n][j].registers[i].function_ == f;
      assert devices[j].registers[i].function_ == f;
    }
    if Uses(last, f) {
      var i :| 0 <= i < |last| && last[i].register.function_ == f;
      assert devices[n].registers[i].function_ == f;
    }
    if LaterRegister(devices, k, f) {
      var j, i :| k < j < |devices| && 0 <= i < |devices[j].registers| && devices[j].registers[i].function_ == f;
      if j < n {
        assert devices[..n][j].registers[i].function_ == f;
      } else {
        assert last[i].register.function_ == f;
      }
    }
  }

  lemma {:induction false} UsesAppend(p: seq<Entry>, q: seq<Entry>, f: RegisterFunction)
    ensures Uses(p + q, f) <==> Uses(p, f) || Uses(q, f)
  {
    AreaEmptyIff(p, f);
    AreaEmptyIff(q, f);
    AreaEmptyIff(p + q, f);
    WordAreaAppend(p, q, f);
  }

  /** Pushing a register onto device `k` inserts its entry before those of the later devices. */
  lemma {:induction false} PushInsertsEntry(devices: seq<DeviceConfig>, k: nat, reg: RegisterConfig)
    returns (p: seq<Entry>, q: seq<Entry>)
    requires k < |devices|
    ensures Entries(devices) == p + q
    ensures Entries(devices[k := Push(devices[k], reg)]) == p + [Entry(devices[k].name, reg)] + q
    ensures forall f :: Uses(q, f) <==> LaterRegister(devices, k, f)
  {
    var n := |devices| - 1;
    var after := devices[k := Push(devices[k], reg)];
    if k == n {
      p, q := Entries(devices), [];
      assert after[..n] == devices[..n];
      assert DeviceEntries(after[n]) == DeviceEntries(devices[n]) + [Entry(devices[k].name, reg)];
    } else {
      var q';
      p, q' := PushInsertsEntry(devices[..n], k, reg);
      assert after[..n] == devices[..n][k := Push(devices[k], reg)];
      q := q' + DeviceEntries(devices[n]);
      forall f ensures Uses(q, f) <==> LaterRegister(devices, k, f) {
        UsesAppend(q', DeviceEntries(devices[n]), f);
        LaterRegisterSnoc(devices, k, f);
      }
    }
  }

  lemma {:induction false} IdsAppend(p: seq<Entry>, q: seq<Entry>)
    ensures IdsOf(p + q) == IdsOf(p) + IdsOf(q)
  {
  }

  function DiscreteInputArea(config: Config): Bits {
    BitArea(Entries(config.devices), DiscreteInput)
  }

  /** Adding a new register to device `k` keeps the addresses of an area exactly when the register
      is in another area, or nothing of that area comes later in the configuration: no register of
      a later device and, among the inputs, no computed sensor. */
  lemma {:induction false} AddedRegisterKeepsAddressesIff(
    c: Config, k: nat, reg: RegisterConfig, pipeline: Option<PipelineConfig>)
    requires k < |c.devices| && reg.sensorId !in RegisterIds(c.devices) && reg.sensorId !in ComputedIds(c.computed)
    ensures var after := Pushed(c, k, reg, pipeline);
            && (KeepsAddresses(InputArea(c), InputArea(after)) <==>
                reg.function_ != Input || (!LaterRegister(c.devices, k, Input) && c.computed == []))
            && (KeepsAddresses(HoldingArea(c), HoldingArea(after)) <==>
                reg.function_ != Holding || !LaterRegister(c.devices, k, Holding))
            && (KeepsAddresses(CoilArea(c), CoilArea(after)) <==>
                reg.function_ != Coil || !LaterRegister(c.devices, k, Coil))
            && (KeepsAddresses(DiscreteInputArea(c), DiscreteInputArea(after)) <==>
                reg.function_ != DiscreteInput || !LaterRegister(c.devices, k, DiscreteInput))
  {
    var after := Pushed(c, k, reg, pipeline);
    var x := Entry(c.devices[k].name, reg);
    var p, q := PushInsertsEntry(c.devices, k, reg);
    IdsAreRegisterIds(c.devices);
    IdsAppend(p, q);
    InsertRegisterKeepsIff(p, x, q, c.computed, Input);
    assert InputArea(c) == ServedWords(p + q, c.computed, Input);
    assert InputArea(after) == ServedWords(p + [x] + q, c.computed, Input);
    InsertRegisterKeepsIff(p, x, q, c.computed, Holding);
    assert HoldingArea(c) == ServedWords(p + q, c.computed, Holding);
    assert HoldingArea(after) == ServedWords(p + [x] + q, c.computed, Holding);
    InsertRegisterKeepsBitsIff(p, x, q, Coil);
    InsertRegisterKeepsBitsIff(p, x, q, DiscreteInput);
  }
}
