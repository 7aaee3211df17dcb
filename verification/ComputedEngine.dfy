/** The configuration handle and the engine for computed sensors, as objects used by one caller at
    a time.  The interleavings of several callers are in HotReload. */
module ComputedEngine {
  import opened Common
  import opened GatewayConfig
  import opened GatewayValidate
  import opened DependencyGraph
  import opened EvaluationOrder
  import opened MetricStore
  import opened ComputedRun
  import HotReload

  class ConfigHandle {
    const lib: Meval
    var config: Config
    var revision: nat

    ghost predicate Valid()
      reads this
    {
      GatewayValidate.Valid(lib, config) && revision < HotReload.REVISIONS
    }

    constructor (lib: Meval, config: Config)
      requires GatewayValidate.Valid(lib, config)
      ensures Valid() && this.lib == lib && this.config == config && revision == 0
    {
      this.lib, this.config, revision := lib, config, 0;
    }

    /** Changes a copy, checks it, and stores and counts it only if it is valid. */
    method Update(change: HotReload.Change<Config>) returns (r: Result<(), string>)
      requires Valid()
      modifies this
      ensures Valid()
      ensures var c := change(old(config)); r.Ok? <==> c.Some? && GatewayValidate.Valid(lib, c.value)
      ensures r.Ok? ==> Some(config) == change(old(config)) && revision == (old(revision) + 1) % HotReload.REVISIONS
      ensures r.Err? ==> config == old(config) && revision == old(revision)
    {
      var candidate := change(config);
      if candidate.None? {
        return Err("change failed");
      }
      r := Validate(lib, candidate.value);
      if r.Ok? {
        config := candidate.value;
        revision := (revision + 1) % HotReload.REVISIONS;
      }
    }
  }

  /** The computed sensors of a valid configuration have ids of their own and no cycle. */
  lemma {:induction false} ValidComputed(lib: Meval, config: Config)
    requires GatewayValidate.Valid(lib, config)
    ensures Distinct(ComputedIds(config.computed)) && !HasCycle(config.computed)
  {
    var a, b := RegisterIds(config.devices), ComputedIds(config.computed);
    forall i, j | 0 <= i < j < |b| ensures b[i] != b[j] {
      assert (a + b)[|a| + i] == b[i] && (a + b)[|a| + j] == b[j];
    }
  }

  class ComputedEngine {
    const lib: Meval
    var revision: nat
    var sensors: seq<ComputedConfig>

    /** The engine holds the computed sensors of `config`, inputs before users. */
    ghost predicate BuiltFrom(config: Config)
      reads this
    {
      DependencyOrder(sensors) && multiset(sensors) == multiset(config.computed)
    }

    constructor (lib: Meval, config: Config)
      requires GatewayValidate.Valid(lib, config)
      ensures this.lib == lib && revision == 0 && BuiltFrom(config)
    {
      ValidComputed(lib, config);
      var built := Build(config.computed);
      this.lib, revision, sensors := lib, 0, built;
    }

    /** Rebuilds when the revision has moved on, and does nothing otherwise. */
    method Refresh(handle: ConfigHandle)
      requires handle.Valid()
      modifies this
      ensures revision == handle.revision
      ensures if handle.revision == old(revision) then sensors == old(sensors) else BuiltFrom(handle.config)
    {
      var rev := handle.revision;
      if rev != revision {
        ValidComputed(handle.lib, handle.config);
        sensors := Build(handle.config.computed);
        revision := rev;
      }
    }

    /** One pass settles the store for the configuration the engine was built from. */
    method RunOn(store: Store, ghost config: Config)
      requires BuiltFrom(config)
      modifies store
      ensures Settled(lib, config.computed, old(store.inner), store.inner)
      ensures store.inner == RunAll(lib, sensors, old(store.inner))
    {
      Run(lib, sensors, store);
      RunSettles(lib, sensors, old(store.inner));
      SettledPermuted(lib, sensors, config.computed, old(store.inner), store.inner);
    }
  }

  /** The settled store of a valid configuration is unique, so neither the order in which the
      sensors are listed, nor the order in which inputs are visited, nor a second run matters. */
  lemma {:induction false} ValidConfigSettlesUniquely(
    lib: Meval, config: Config, order: seq<ComputedConfig>, m: Contents, a: Contents, b: Contents)
    requires GatewayValidate.Valid(lib, config)
    requires DependencyOrder(order) && multiset(order) == multiset(config.computed)
    requires Settled(lib, config.computed, m, a) && Settled(lib, config.computed, m, b)
    ensures a == b && a == RunAll(lib, order, m) && RunAll(lib, order, a) == a
  {
    SettledPermuted(lib, config.computed, order, m, a);
    SettledPermuted(lib, config.computed, order, m, b);
    RunSettles(lib, order, m);
    SettledIsUnique(lib, order, m, a, b);
    SettledIsUnique(lib, order, m, a, RunAll(lib, order, m));
    RunIsIdempotent(lib, order, m);
  }
}
