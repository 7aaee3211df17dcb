/** Valid configurations in which the gateway does not do what its documentation or its answers
    say. */
module GatewayExamples {
  import opened Common
  import opened GatewayConfig
  import opened DependencyGraph
  import opened GatewayValidate
  import opened AddRegister
  import opened ModbusTable
  import opened WriteRouting
  import opened AddressStability

  function ExampleRegister(id: string, address: u16, access: Access): RegisterConfig {
    RegisterConfig(id, id, Holding, address, None, U16, Big, access)
  }

  function ExampleDevice(name: string, register: RegisterConfig): DeviceConfig {
    DeviceConfig(name, Tcp, 1, "localhost", 502, 1000, 1000, 1, 1, None, None, [register])
  }

  /** Two devices with one holding register each. */
  function ExampleConfig(access: Access): Config {
    Config([ExampleDevice("a", ExampleRegister("x", 0, access)), ExampleDevice("b", ExampleRegister("y", 0, access))],
           [], [])
  }

  lemma {:induction false} ExampleIsValid(lib: Meval, access: Access)
    ensures Valid(lib, ExampleConfig(access))
    ensures RegisterIds(ExampleConfig(access).devices) == ["x", "y"]
  {
    var c := ExampleConfig(access);
    var d, e := c.devices[0], c.devices[1];
    assert c.devices[..1] == [d] && [d][..0] == [];
    assert SensorIds(d.registers) == ["x"] && SensorIds(e.registers) == ["y"];
    assert RegisterIds([d]) == ["x"];
    assert RegisterIds(c.devices) == ["x", "y"];
    assert "x"[0] != "y"[0];
    assert Distinct(RegisterIds(c.devices) + ComputedIds(c.computed));
    assert d.name[0] != e.name[0];
    assert Distinct(DeviceNames(c.devices));
    OneRegisterOk(d.registers[0]);
    OneRegisterOk(e.registers[0]);
    assert forall x :: x in c.devices ==> x == d || x == e;
    OrderExcludesCycle(c.computed, []);
  }

  lemma {:induction false} OneRegisterOk(r: RegisterConfig)
    requires RegisterOk(r)
    ensures RegistersOk([r])
  {
  }

  /** A register accepted for the first device moves the register of the second. */
  lemma {:induction false} AddedRegisterMovesHolding(lib: Meval)
    ensures var c, reg := ExampleConfig(Read), ExampleRegister("z", 1, Read);
            && Valid(lib, c) && AddAccepts(lib, c, 0, reg, None) && LocalRules(c, 0, reg, None)
            && !KeepsAddresses(HoldingArea(c), HoldingArea(Pushed(c, 0, reg, None)))
  {
    var c, reg := ExampleConfig(Read), ExampleRegister("z", 1, Read);
    ExampleIsValid(lib, Read);
    assert "z"[0] != "x"[0] && "z"[0] != "y"[0];
    assert RegisterNames(c.devices[0].registers) == ["x"];
    AddedRegisterKeepsAddressesIff(c, 0, reg, None);
    assert c.devices[1].registers[0].function_ == Holding;
  }

  lemma {:induction false} ExampleEntries(access: Access)
    ensures Entries(ExampleConfig(access).devices) ==
            [Entry("a", ExampleRegister("x", 0, access)), Entry("b", ExampleRegister("y", 0, access))]
    ensures BlockStart(Entries(ExampleConfig(access).devices), Holding, 0) == 0
    ensures BlockStart(Entries(ExampleConfig(access).devices), Holding, 1) == 1
  {
    var devices := ExampleConfig(access).devices;
    var x, y := Entry("a", ExampleRegister("x", 0, access)), Entry("b", ExampleRegister("y", 0, access));
    assert devices[..1] == [devices[0]] && [devices[0]][..0] == [];
    assert DeviceEntries(devices[0]) == [x] && DeviceEntries(devices[1]) == [y];
    assert Entries([devices[0]]) == [x];
    assert [x, y][..0] == [] && [x, y][..1] == [x];
    AreaOfOne(x, Holding);
  }

  /** Two words written at address 0, acknowledged: the second never reaches its register, although
      its address stands for a writable one. */
  lemma {:induction false} MultiWriteLosesWord(lib: Meval)
    ensures var c, acknowledges, words := ExampleConfig(ReadWrite), (w: DeviceWrite) => true, [1, 2];
            && Valid(lib, c)
            && MultiWriteOk(c, acknowledges, 0, words)
            && Requested(c, 0, words, 1) == Some(DeviceWrite("b", Holding, 0, 2))
            && MultiWritten(c, acknowledges, 0, words) == [DeviceWrite("a", Holding, 0, 1)]
            && !Delivers(c, 0, words, MultiWritten(c, acknowledges, 0, words))
  {
    var c, acknowledges, words := ExampleConfig(ReadWrite), (w: DeviceWrite) => true, [1, 2];
    ExampleIsValid(lib, ReadWrite);
    ExampleEntries(ReadWrite);
    WordGoesToOwner(lib, c, 0, 0);
    WordGoesToOwner(lib, c, 1, 1);
    MultiWriteIsCompleteIff(lib, c, acknowledges, 0, words);
  }
}
