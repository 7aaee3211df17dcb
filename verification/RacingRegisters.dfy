/** Registers added by concurrent updates: when one of them is lost. */
module RacingRegisters {
  import opened Common
  import opened GatewayConfig
  import opened GatewayValidate
  import opened AddRegister
  import opened LostUpdates
  import HotReload

  /** A request to add a register, and optionally its pipeline, to the device of a name. */
  datatype Addition = Addition(deviceName: string, register: RegisterConfig, pipeline: Option<PipelineConfig>)

  ghost function Validity(lib: Meval): Config -> bool {
    c => Valid(lib, c)
  }

  /** The change that a request makes. */
  ghost function Adding(lib: Meval, a: Addition): HotReload.Change<Config> {
    (c: Config) =>
      var k := FindDevice(c.devices, a.deviceName);
      if k.Some? && AddAccepts(lib, c, k.value, a.register, a.pipeline)
      then Some(Pushed(c, k.value, a.register, a.pipeline))
      else None
  }

  ghost function Registered(): Config -> set<string> {
    (c: Config) => Elements(RegisterIds(c.devices))
  }

  // ----- Over all interleavings -----

  lemma {:induction false} AddingAdds(lib: Meval, a: Addition)
    ensures Adds(Registered(), Adding(lib, a), a.register.sensorId)
  {
    forall c | Adding(lib, a)(c).Some?
      ensures && a.register.sensorId !in Registered()(c)
              && Registered()(Adding(lib, a)(c).value) == Registered()(c) + {a.register.sensorId}
    {
      var k := FindDevice(c.devices, a.deviceName).value;
      var p, q := PushInsertsId(c.devices, k, a.register);
    }
  }

  function NewIds(additions: seq<Addition>): seq<string> {
    seq(|additions|, i requires 0 <= i < |additions| => additions[i].register.sensorId)
  }

  /** Each update of the interleaving adds a register; all of them have different ids, and none is
      registered at the start.  `additions[i]` matters only if step `i` takes a copy. */
  ghost predicate AddsRegisters(
    lib: Meval, init: HotReload.State<Config>, steps: seq<HotReload.Step<Config>>, additions: seq<Addition>)
  {
    && |additions| == |steps|
    && (forall i :: 0 <= i < |steps| && steps[i].Copy? ==>
          && steps[i].change == Adding(lib, additions[i])
          && additions[i].register.sensorId !in RegisterIds(init.config.devices))
    && (forall i, j :: 0 <= i < j < |steps| && steps[i].Copy? && steps[j].Copy? ==>
          additions[i].register.sensorId != additions[j].register.sensorId)
  }

  lemma {:induction false} AddsRegistersAddsNew(
    lib: Meval, init: HotReload.State<Config>, steps: seq<HotReload.Step<Config>>, additions: seq<Addition>)
    requires HotReload.Init(Validity(lib), init) && AddsRegisters(lib, init, steps, additions)
    ensures AddsNewIds(Registered(), Validity(lib), init, steps, NewIds(additions))
  {
    forall i | 0 <= i < |steps| && steps[i].Copy?
      ensures Adds(Registered(), steps[i].change, NewIds(additions)[i])
    {
      AddingAdds(lib, additions[i]);
    }
    AllDifferentAddsNew(Registered(), Validity(lib), init, steps, NewIds(additions));
  }

  /** In every interleaving of updates that add different registers, a commit keeps all registers
      stored before it exactly when nobody has committed since its copy was taken. */
  lemma {:induction false} CommitKeepsRegistersIff(
    lib: Meval, init: HotReload.State<Config>, steps: seq<HotReload.Step<Config>>, additions: seq<Addition>, u: nat)
    requires HotReload.Init(Validity(lib), init) && AddsRegisters(lib, init, steps, additions)
    requires HotReload.After(Validity(lib), init, steps).Some?
    requires HotReload.Enabled(HotReload.After(Validity(lib), init, steps).value, HotReload.Write(u))
    ensures var s := HotReload.After(Validity(lib), init, steps).value;
            var stored := HotReload.Do(Validity(lib), s, HotReload.Write(u)).config;
            Elements(RegisterIds(s.config.devices)) <= Elements(RegisterIds(stored.devices))
            <==> s.updaters[u].base == s.Commits()
  {
    AddsRegistersAddsNew(lib, init, steps, additions);
    CommitKeepsIff(Registered(), Validity(lib), init, steps, NewIds(additions), u);
  }

  /** Every register ever stored is stored now. */
  ghost predicate AllRegistersKept(s: HotReload.State<Config>) {
    forall n, id :: 0 <= n < |s.history| && id in RegisterIds(s.history[n].devices) ==>
                      id in RegisterIds(s.config.devices)
  }

  lemma {:induction false} KeptIsNothingLost(s: HotReload.State<Config>)
    ensures AllRegistersKept(s) <==> NothingLost(Registered(), s)
  {
    if NothingLost(Registered(), s) {
      forall n, id | 0 <= n < |s.history| && id in RegisterIds(s.history[n].devices)
        ensures id in RegisterIds(s.config.devices)
      {
        assert Registered()(s.history[n]) <= Registered()(s.config);
        assert id in Registered()(s.history[n]);
      }
    }
    if AllRegistersKept(s) {
      forall n | 0 <= n < |s.history| ensures Registered()(s.history[n]) <= Registered()(s.config) {
      }
    }
  }

  /** Afterwards every register ever stored is still there exactly when no commit came between
      another one and its copy. */
  lemma {:induction false} NoRegisterLostIff(
    lib: Meval, init: HotReload.State<Config>, steps: seq<HotReload.Step<Config>>, additions: seq<Addition>)
    requires HotReload.Init(Validity(lib), init) && AddsRegisters(lib, init, steps, additions)
    requires HotReload.After(Validity(lib), init, steps).Some?
    ensures AllRegistersKept(HotReload.After(Validity(lib), init, steps).value)
            <==> Undisturbed(Validity(lib), init, steps)
  {
    AddsRegistersAddsNew(lib, init, steps, additions);
    NothingLostIff(Registered(), Validity(lib), init, steps, NewIds(additions));
    KeptIsNothingLost(HotReload.After(Validity(lib), init, steps).value);
  }

  // ----- It happens -----

  /** A register that may be added: both the incremental and the full check accept it. */
  ghost predicate Addable(lib: Meval, c: Config, a: Addition) {
    var k := FindDevice(c.devices, a.deviceName);
    && k.Some?
    && AddAccepts(lib, c, k.value, a.register, a.pipeline)
    && LocalRules(c, k.value, a.register, a.pipeline)
  }

  lemma {:induction false} AddableSucceeds(lib: Meval, c: Config, a: Addition) returns (after: Config)
    requires Valid(lib, c) && Addable(lib, c, a)
    ensures Adding(lib, a)(c) == Some(after) && Valid(lib, after)
    ensures forall id :: id in RegisterIds(after.devices) <==> id in RegisterIds(c.devices) || id == a.register.sensorId
  {
    var k := FindDevice(c.devices, a.deviceName).value;
    after := Pushed(c, k, a.register, a.pipeline);
    IncrementalAgreesWithFull(lib, c, k, a.register, a.pipeline);
    var p, q := PushInsertsId(c.devices, k, a.register);
  }

  /** Whatever two different registers are added by two updates that both take a copy before either
      commits: both updates succeed, the second register is in the configuration afterwards and the
      first is not. */
  lemma {:induction false} AddedRegisterMayBeLost(
    lib: Meval, init: HotReload.State<Config>, u: nat, v: nat, x: Addition, y: Addition)
    requires HotReload.Init(Validity(lib), init) && u in init.updaters && v in init.updaters && u != v
    requires Addable(lib, init.config, x) && Addable(lib, init.config, y)
    requires x.register.sensorId != y.register.sensorId
    ensures var race := HotReload.RacingUpdates(u, v, Adding(lib, x), Adding(lib, y));
            var s := HotReload.After(Validity(lib), init, race);
            && s.Some?
            && s.value.Commits() == 2
            && Valid(lib, s.value.config)
            && y.register.sensorId in RegisterIds(s.value.config.devices)
            && x.register.sensorId !in RegisterIds(s.value.config.devices)
  {
    var cx := AddableSucceeds(lib, init.config, x);
    var cy := AddableSucceeds(lib, init.config, y);
    HotReload.UpdatesMayBeLost(Validity(lib), init, u, v, Adding(lib, x), Adding(lib, y), cx, cy);
  }
}
