/** The gateway's consumer from start to end: a valid configuration, batches of samples, and changes
    of the configuration between them. */
module GatewayRun {
  import opened Common
  import opened GatewayConfig
  import opened GatewayValidate
  import opened DependencyGraph
  import opened EvaluationOrder
  import opened MetricStore
  import opened ComputedRun
  import opened ComputedEngine
  import opened PipelinesCache
  import opened Consumer
  import HotReload

  type Changes = seq<HotReload.Change<Config>>

  /** What the caches hold while a batch is processed, and whether the pipelines were rebuilt just
      before it. */
  datatype Plan = Plan(chains: Chains, order: seq<ComputedConfig>, restarted: bool)

  ghost function PlannedStep(lib: Meval, plan: Plan, v: View, batch: seq<RawSample>): View
    requires ChainsValid(lib, plan.chains)
  {
    var start := if plan.restarted then View(v.store, NoHistories(plan.chains)) else v;
    BatchStep(lib, plan.chains, plan.order, start, batch)
  }

  /** Each batch processed with its own plan. */
  ghost function Planned(lib: Meval, plans: seq<Plan>, v: View, batches: seq<seq<RawSample>>): View
    requires |plans| == |batches| && forall i :: 0 <= i < |plans| ==> ChainsValid(lib, plans[i].chains)
  {
    if batches == [] then v
    else
      var n := |batches| - 1;
      PlannedStep(lib, plans[n], Planned(lib, plans[..n], v, batches[..n]), batches[n])
  }

  /** The plan holds what the configuration asks for. */
  ghost predicate PlanOf(config: Config, plan: Plan) {
    && ChainsOf(config.pipelines, plan.chains)
    && DependencyOrder(plan.order) && multiset(plan.order) == multiset(config.computed)
  }

  /** Each plan holds what the configuration of its time asks for. */
  ghost predicate PlansOf(lib: Meval, configs: seq<Config>, plans: seq<Plan>) {
    && |configs| == |plans|
    && forall i :: 0 <= i < |plans| ==> PlanOf(configs[i], plans[i]) && ChainsValid(lib, plans[i].chains)
  }

  lemma {:induction false} PlansOfSnoc(lib: Meval, configs: seq<Config>, plans: seq<Plan>, config: Config, plan: Plan)
    requires PlansOf(lib, configs, plans) && PlanOf(config, plan) && ChainsValid(lib, plan.chains)
    ensures PlansOf(lib, configs + [config], plans + [plan])
  {
  }

  /** All plans are the given one. */
  ghost predicate Steady(plans: seq<Plan>, plan: Plan) {
    forall i :: 0 <= i < |plans| ==> plans[i] == plan
  }

  ghost predicate NoChange(changes: seq<Changes>) {
    forall i :: 0 <= i < |changes| ==> changes[i] == []
  }

  lemma {:induction false} PlanIds(config: Config, plan: Plan)
    requires PlanOf(config, plan)
    ensures forall id :: id in ComputedIds(plan.order) <==> id in ComputedIds(config.computed)
    ensures forall c :: c in config.computed ==> c in plan.order
  {
    SameIds(plan.order, config.computed);
    SameIds(config.computed, plan.order);
    forall c | c in config.computed ensures c in plan.order {
      assert c in multiset(plan.order);
    }
  }

  lemma {:induction false} SameIds(p: seq<ComputedConfig>, q: seq<ComputedConfig>)
    requires multiset(p) == multiset(q)
    ensures forall id :: id in ComputedIds(p) ==> id in ComputedIds(q)
  {
    forall id | id in ComputedIds(p) ensures id in ComputedIds(q) {
      var i :| 0 <= i < |p| && ComputedIds(p)[i] == id;
      assert p[i] in multiset(q);
      var j :| 0 <= j < |q| && q[j] == p[i];
      assert ComputedIds(q)[j] == id;
    }
  }

  // ----- The loop -----

  lemma {:induction false} RevisionMoves(revision: nat, k: nat)
    requires revision < HotReload.REVISIONS && k < HotReload.REVISIONS
    requires (revision + k) % HotReload.REVISIONS == revision
    ensures k == 0
  {
  }

  /** An update that succeeds with a valid result replaces the configuration, and any other leaves it
      alone. */
  ghost function UpdatedOnce(lib: Meval, config: Config, change: HotReload.Change<Config>): Config {
    var after := change(config);
    if after.Some? && GatewayValidate.Valid(lib, after.value) then after.value else config
  }

  /** The configuration after a list of updates, one after the other. */
  ghost function Updated(lib: Meval, config: Config, changes: Changes): Config {
    if changes == [] then config
    else UpdatedOnce(lib, Updated(lib, config, changes[..|changes| - 1]), changes[|changes| - 1])
  }

  lemma {:induction false} UpdatedSnoc(lib: Meval, config: Config, changes: Changes, i: nat)
    requires i < |changes|
    ensures Updated(lib, config, changes[..i + 1]) == UpdatedOnce(lib, Updated(lib, config, changes[..i]), changes[i])
  {
    assert changes[..i + 1][..i] == changes[..i];
  }

  function LastOf(start: Config, configs: seq<Config>): Config {
    if configs == [] then start else configs[|configs| - 1]
  }

  /** `configs[i]` is the configuration when batch `i` is processed: the one before it, updated by the
      changes in between. */
  ghost predicate Evolves(lib: Meval, start: Config, changes: seq<Changes>, configs: seq<Config>) {
    && |configs| == |changes|
    && (configs != [] ==>
          var n := |configs| - 1;
          && Evolves(lib, start, changes[..n], configs[..n])
          && configs[n] == Updated(lib, LastOf(start, configs[..n]), changes[n]))
  }

  lemma {:induction false} EvolvesSnoc(
    lib: Meval, start: Config, changes: seq<Changes>, i: nat, configs: seq<Config>, config: Config)
    requires i < |changes| && Evolves(lib, start, changes[..i], configs)
    requires config == Updated(lib, LastOf(start, configs), changes[i])
    ensures Evolves(lib, start, changes[..i + 1], configs + [config])
  {
    assert changes[..i + 1][..i] == changes[..i] && (configs + [config])[..i] == configs;
  }

  lemma {:induction false} UpdatedIsValid(lib: Meval, config: Config, changes: Changes)
    requires GatewayValidate.Valid(lib, config)
    ensures GatewayValidate.Valid(lib, Updated(lib, config, changes))
  {
    if changes != [] {
      var n := |changes| - 1;
      UpdatedIsValid(lib, config, changes[..n]);
      OnceIsValid(lib, Updated(lib, config, changes[..n]), changes[n]);
    }
  }

  lemma {:induction false} OnceIsValid(lib: Meval, config: Config, change: HotReload.Change<Config>)
    requires GatewayValidate.Valid(lib, config)
    ensures GatewayValidate.Valid(lib, UpdatedOnce(lib, config, change))
  {
  }

  /** Every configuration on the way is valid. */
  lemma {:induction false} EvolvesValid(lib: Meval, start: Config, changes: seq<Changes>, configs: seq<Config>)
    requires GatewayValidate.Valid(lib, start) && Evolves(lib, start, changes, configs)
    ensures GatewayValidate.Valid(lib, LastOf(start, configs))
    ensures forall c :: c in configs ==> GatewayValidate.Valid(lib, c)
  {
    if configs != [] {
      var n := |configs| - 1;
      EvolvesValid(lib, start, changes[..n], configs[..n]);
      UpdatedIsValid(lib, LastOf(start, configs[..n]), changes[n]);
      assert forall c :: c in configs ==> c in configs[..n] || c == configs[n];
    }
  }

  method UpdateHandle(handle: ConfigHandle, change: HotReload.Change<Config>) returns (moved: bool)
    requires handle.Valid()
    modifies handle
    ensures handle.Valid()
    ensures handle.config == UpdatedOnce(handle.lib, old(handle.config), change)
    ensures if moved then handle.revision == (old(handle.revision) + 1) % HotReload.REVISIONS
            else handle.revision == old(handle.revision) && handle.config == old(handle.config)
  {
    var r := handle.Update(change);
    moved := r.Ok?;
  }

  /** Others update the configuration; fewer times than the revision has values. */
  method Reconfigure(handle: ConfigHandle, changes: Changes)
    requires handle.Valid() && |changes| < HotReload.REVISIONS
    modifies handle
    ensures handle.Valid()
    ensures handle.config == Updated(handle.lib, old(handle.config), changes)
    ensures handle.revision == old(handle.revision) ==> handle.config == old(handle.config)
    ensures changes == [] ==> handle.revision == old(handle.revision)
  {
    ghost var k := 0;
    for i := 0 to |changes|
      invariant handle.Valid() && 0 <= k <= i
      invariant handle.revision == (old(handle.revision) + k) % HotReload.REVISIONS
      invariant k == 0 ==> handle.config == old(handle.config)
      invariant handle.config == Updated(handle.lib, old(handle.config), changes[..i])
    {
      var moved := UpdateHandle(handle, changes[i]);
      HotReload.NextRevision(old(handle.revision) + k);
      UpdatedSnoc(handle.lib, old(handle.config), changes, i);
      k := if moved then k + 1 else k;
    }
    assert changes[..|changes|] == changes;
    if handle.revision == old(handle.revision) {
      RevisionMoves(old(handle.revision), k);
    }
  }

  /** The plan under which the consumer would process a batch now, had its caches been refreshed. */
  ghost function PlanNow(consumer: SampleConsumer, restarted: bool): Plan
    reads consumer.cache, consumer.computed
  {
    Plan(consumer.cache.Chains(), consumer.computed.sensors, restarted)
  }

  ghost predicate InSync(consumer: SampleConsumer)
    reads consumer.handle, consumer.cache, consumer.computed
  {
    && consumer.UpToDate() && consumer.handle.Valid()
    && PlanOf(consumer.handle.config, PlanNow(consumer, false))
  }

  /** If the caches have the handle's revision, they hold what its configuration asks for. */
  ghost predicate Trusted(consumer: SampleConsumer)
    reads consumer.handle, consumer.cache, consumer.computed
  {
    && consumer.cache.revision == consumer.computed.revision
    && (consumer.UpToDate() ==> PlanOf(consumer.handle.config, PlanNow(consumer, false)))
  }

  /** One batch is processed with what the configuration asks for now. */
  method ReceiveNow(consumer: SampleConsumer, batch: seq<RawSample>) returns (ghost plan: Plan)
    requires consumer.Valid() && consumer.handle.Valid() && Trusted(consumer)
    modifies consumer.Repr()
    ensures consumer.Valid() && consumer.UpToDate() && fresh(consumer.Repr() - old(consumer.Repr()))
    ensures PlanOf(consumer.handle.config, plan) && ChainsValid(consumer.lib, plan.chains)
    ensures plan == PlanNow(consumer, !old(consumer.UpToDate()))
    ensures old(consumer.UpToDate()) ==> plan == old(PlanNow(consumer, false))
    ensures consumer.Current() == PlannedStep(consumer.lib, plan, old(consumer.Current()), batch)
  {
    ghost var restarted := !consumer.UpToDate();
    consumer.ProcessBatch(batch);
    plan := PlanNow(consumer, restarted);
  }

  /** Changes and one batch: the batch is processed with what the changed configuration asks for, and
      without a change as before. */
  method Receive(consumer: SampleConsumer, changes: Changes, batch: seq<RawSample>)
    returns (ghost plan: Plan, ghost config: Config)
    requires consumer.Valid() && InSync(consumer) && |changes| < HotReload.REVISIONS
    modifies consumer.Repr(), consumer.handle
    ensures consumer.Valid() && InSync(consumer) && fresh(consumer.Repr() - old(consumer.Repr()))
    ensures config == consumer.handle.config == Updated(consumer.lib, old(consumer.handle.config), changes)
    ensures PlanOf(config, plan) && ChainsValid(consumer.lib, plan.chains)
    ensures consumer.Current() == PlannedStep(consumer.lib, plan, old(consumer.Current()), batch)
    ensures changes == [] ==> plan == old(PlanNow(consumer, false)) && PlanNow(consumer, false) == plan
  {
    ghost var current, now := consumer.Current(), PlanNow(consumer, false);
    Reconfigure(consumer.handle, changes);
    assert consumer.Valid() && consumer.Current() == current && PlanNow(consumer, false) == now;
    config := consumer.handle.config;
    plan := ReceiveNow(consumer, batch);
  }

  lemma {:induction false} PlannedSnoc(
    lib: Meval, plans: seq<Plan>, v: View, batches: seq<seq<RawSample>>, i: nat, plan: Plan)
    requires i < |batches| && |plans| == i && forall k :: 0 <= k < i ==> ChainsValid(lib, plans[k].chains)
    requires ChainsValid(lib, plan.chains)
    ensures Planned(lib, plans + [plan], v, batches[..i + 1]) ==
            PlannedStep(lib, plan, Planned(lib, plans, v, batches[..i]), batches[i])
  {
    assert batches[..i + 1][..i] == batches[..i] && (plans + [plan])[..i] == plans;
  }

  lemma {:induction false} NoChangeSnoc(changes: seq<Changes>, i: nat)
    requires i < |changes|
    ensures NoChange(changes[..i + 1]) <==> NoChange(changes[..i]) && changes[i] == []
  {
    assert changes[..i + 1] == changes[..i] + [changes[i]];
  }

  /** What has been done after the first `i` batches: the configuration has followed the changes, each
      batch was processed with a plan of its time, all with the first plan if nothing has changed. */
  ghost predicate Done(
    lib: Meval, initial: Config, first: Plan, start: View, batches: seq<seq<RawSample>>, changes: seq<Changes>, i: nat,
    plans: seq<Plan>, configs: seq<Config>, at: Config, now: Plan, current: View)
    requires i <= |batches| == |changes|
  {
    && Evolves(lib, initial, changes[..i], configs) && at == LastOf(initial, configs)
    && |plans| == i && PlansOf(lib, configs, plans)
    && current == Planned(lib, plans, start, batches[..i])
    && (NoChange(changes[..i]) ==> Steady(plans, first) && now == first)
  }

  lemma {:induction false} DoneSnoc(
    lib: Meval, initial: Config, first: Plan, start: View, batches: seq<seq<RawSample>>, changes: seq<Changes>, i: nat,
    plans: seq<Plan>, configs: seq<Config>, at: Config, now: Plan, current: View,
    plan: Plan, config: Config, next: Plan, after: View)
    requires i < |batches| == |changes|
    requires Done(lib, initial, first, start, batches, changes, i, plans, configs, at, now, current)
    requires PlanOf(config, plan) && ChainsValid(lib, plan.chains)
    requires after == PlannedStep(lib, plan, current, batches[i])
    requires changes[i] == [] ==> plan == now && next == now
    requires config == Updated(lib, at, changes[i])
    ensures Done(lib, initial, first, start, batches, changes, i + 1,
                 plans + [plan], configs + [config], config, next, after)
  {
    EvolvesSnoc(lib, initial, changes, i, configs, config);
    PlannedSnoc(lib, plans, start, batches, i, plan);
    PlansOfSnoc(lib, configs, plans, config, plan);
    NoChangeSnoc(changes, i);
  }

  lemma {:induction false} AllDone(
    lib: Meval, initial: Config, first: Plan, start: View, batches: seq<seq<RawSample>>, changes: seq<Changes>,
    plans: seq<Plan>, configs: seq<Config>, at: Config, now: Plan, current: View)
    requires |batches| == |changes|
    requires Done(lib, initial, first, start, batches, changes, |batches|, plans, configs, at, now, current)
    ensures Evolves(lib, initial, changes, configs) && at == LastOf(initial, configs)
    ensures |plans| == |batches| && PlansOf(lib, configs, plans) && current == Planned(lib, plans, start, batches)
    ensures NoChange(changes) ==> Steady(plans, first) && now == first
  {
    assert batches[..|batches|] == batches && changes[..|changes|] == changes;
  }

  /** All batches, with the changes that come before each. */
  method ReceiveAll(consumer: SampleConsumer, batches: seq<seq<RawSample>>, changes: seq<Changes>)
    returns (ghost plans: seq<Plan>, ghost configs: seq<Config>)
    requires consumer.Valid() && InSync(consumer) && |changes| == |batches|
    requires forall i :: 0 <= i < |changes| ==> |changes[i]| < HotReload.REVISIONS
    modifies consumer.Repr(), consumer.handle
    ensures consumer.Valid() && InSync(consumer)
    ensures Evolves(consumer.lib, old(consumer.handle.config), changes, configs)
    ensures consumer.handle.config == LastOf(old(consumer.handle.config), configs)
    ensures |plans| == |batches| && PlansOf(consumer.lib, configs, plans)
    ensures consumer.Current() == Planned(consumer.lib, plans, old(consumer.Current()), batches)
    ensures NoChange(changes) ==>
              Steady(plans, old(PlanNow(consumer, false))) && PlanNow(consumer, false) == old(PlanNow(consumer, false))
  {
    plans, configs := [], [];
    ghost var initial, start, first := consumer.handle.config, consumer.Current(), PlanNow(consumer, false);
    for i := 0 to |batches|
      invariant consumer.Valid() && InSync(consumer) && fresh(consumer.Repr() - old(consumer.Repr()))
      invariant Done(consumer.lib, initial, first, start, batches, changes, i,
                     plans, configs, consumer.handle.config, PlanNow(consumer, false), consumer.Current())
    {
      ghost var at, now, current := consumer.handle.config, PlanNow(consumer, false), consumer.Current();
      ghost var plan, config;
      plan, config := Receive(consumer, changes[i], batches[i]);
      DoneSnoc(consumer.lib, initial, first, start, batches, changes, i, plans, configs, at, now, current,
               plan, config, PlanNow(consumer, false), consumer.Current());
      plans, configs := plans + [plan], configs + [config];
    }
    AllDone(consumer.lib, initial, first, start, batches, changes,
            plans, configs, consumer.handle.config, PlanNow(consumer, false), consumer.Current());
  }

  // ----- Without changes -----

  lemma {:induction false} SteadyIsBatches(
    lib: Meval, plan: Plan, plans: seq<Plan>, v: View, batches: seq<seq<RawSample>>)
    requires |plans| == |batches| && Steady(plans, plan) && !plan.restarted && ChainsValid(lib, plan.chains)
    ensures Planned(lib, plans, v, batches) == Batches(lib, plan.chains, plan.order, v, batches)
  {
    if batches != [] {
      SteadyIsBatches(lib, plan, plans[..|plans| - 1], v, batches[..|batches| - 1]);
    }
  }

  /** The samples of a batch come from registers of the configuration, at most one from each. */
  ghost predicate FromDevices(config: Config, batch: seq<RawSample>) {
    Distinct(BatchIds(batch)) && forall id :: id in BatchIds(batch) ==> id in RegisterIds(config.devices)
  }

  lemma {:induction false} FromDevicesOk(lib: Meval, config: Config, plan: Plan, batch: seq<RawSample>)
    requires GatewayValidate.Valid(lib, config) && PlanOf(config, plan) && FromDevices(config, batch)
    ensures BatchOk(plan.order, batch)
  {
    PlanIds(config, plan);
    DistinctDisjoint(RegisterIds(config.devices), ComputedIds(config.computed));
  }

  /** Every sensor of the devices holds its latest sample and the metric of the latest sample its
      pipeline accepted, every computed sensor its expression over the store, if that has a value. */
  ghost predicate RightStore(lib: Meval, config: Config, chains: Chains, v: View, batches: seq<seq<RawSample>>)
    requires ChainsValid(lib, chains)
  {
    && (forall id :: id !in ComputedIds(config.computed) ==>
                       AgreesAt(lib, chains, v, id, SamplesOf(Flatten(batches), id)))
    && (forall c :: c in config.computed ==>
                      Get(v.store, c.sensorId) == if batches == [] then None else ComputedEntry(lib, c, v.store))
  }

  lemma {:induction false} SteadyRunIsRight(lib: Meval, config: Config, plan: Plan, batches: seq<seq<RawSample>>)
    requires GatewayValidate.Valid(lib, config) && PlanOf(config, plan) && ChainsValid(lib, plan.chains)
    requires forall b :: b in batches ==> FromDevices(config, b)
    ensures var v := View(map[], NoHistories(plan.chains));
            RightStore(lib, config, plan.chains, Batches(lib, plan.chains, plan.order, v, batches), batches)
  {
    var v := View(map[], NoHistories(plan.chains));
    PlanIds(config, plan);
    forall b | b in batches ensures BatchOk(plan.order, b) {
      FromDevicesOk(lib, config, plan, b);
    }
    forall id | id !in ComputedIds(config.computed)
      ensures AgreesAt(lib, plan.chains, Batches(lib, plan.chains, plan.order, v, batches), id,
                       SamplesOf(Flatten(batches), id))
    {
      BatchesKeepLatest(lib, plan.chains, plan.order, v, batches, id);
    }
    forall c | c in config.computed
      ensures var store := Batches(lib, plan.chains, plan.order, v, batches).store;
              Get(store, c.sensorId) == if batches == [] then None else ComputedEntry(lib, c, store)
    {
      BatchesSettle(lib, plan.chains, plan.order, v, batches, c);
    }
  }

  // ----- With changes -----

  function RawIn(m: Contents, id: string): Option<RawSample> {
    if id in m then m[id].raw else None
  }

  function LatestOf(mine: seq<RawSample>): Option<RawSample> {
    if mine == [] then None else Some(mine[|mine| - 1])
  }

  lemma {:induction false} StepKeepsRaw(
    lib: Meval, plan: Plan, v: View, batch: seq<RawSample>, all: seq<RawSample>, id: string)
    requires ChainsValid(lib, plan.chains) && DependencyOrder(plan.order) && id !in ComputedIds(plan.order)
    requires Distinct(BatchIds(batch)) && RawIn(v.store, id) == LatestOf(SamplesOf(all, id))
    ensures RawIn(PlannedStep(lib, plan, v, batch).store, id) == LatestOf(SamplesOf(all + batch, id))
  {
    var start := if plan.restarted then View(v.store, NoHistories(plan.chains)) else v;
    var raw := View(WithBatch(start.store, batch), start.histories);
    var piped := PipeAll(lib, plan.chains, raw, batch);
    RunSettles(lib, plan.order, piped.store);
    assert Get(RunAll(lib, plan.order, piped.store), id) == Get(piped.store, id);
    if id in BatchIds(batch) {
      var j :| 0 <= j < |batch| && BatchIds(batch)[j] == id;
      RawHere(v.store, batch, j);
      PipeHere(lib, plan.chains, raw, batch, j);
      SamplesHere(all, batch, j);
    } else {
      RawElsewhere(v.store, batch, id);
      PipeElsewhere(lib, plan.chains, raw, batch, id);
      SamplesElsewhere(all, batch, id);
    }
  }

  /** Whatever changes in between: a sensor that is never a computed one holds its latest sample. */
  lemma {:induction false} PlannedKeepsRaw(
    lib: Meval, configs: seq<Config>, plans: seq<Plan>, v: View, batches: seq<seq<RawSample>>, id: string)
    requires |plans| == |batches| && PlansOf(lib, configs, plans) && v.store == map[]
    requires forall i :: 0 <= i < |configs| ==> id !in ComputedIds(configs[i].computed)
    requires forall i :: 0 <= i < |batches| ==> Distinct(BatchIds(batches[i]))
    ensures RawIn(Planned(lib, plans, v, batches).store, id) == LatestOf(SamplesOf(Flatten(batches), id))
  {
    if batches != [] {
      var n := |batches| - 1;
      PlannedKeepsRaw(lib, configs[..n], plans[..n], v, batches[..n], id);
      PlanIds(configs[n], plans[n]);
      StepKeepsRaw(lib, plans[n], Planned(lib, plans[..n], v, batches[..n]), batches[n], Flatten(batches[..n]), id);
    }
  }

  lemma {:induction false} StepSettles(lib: Meval, plan: Plan, v: View, batch: seq<RawSample>, c: ComputedConfig)
    requires ChainsValid(lib, plan.chains) && DependencyOrder(plan.order) && c in plan.order
    ensures var store := PlannedStep(lib, plan, v, batch).store;
            Evaluate(lib, c, store).Some? ==> Get(store, c.sensorId) == ComputedEntry(lib, c, store)
  {
    var start := if plan.restarted then View(v.store, NoHistories(plan.chains)) else v;
    var piped := PipeAll(lib, plan.chains, View(WithBatch(start.store, batch), start.histories), batch);
    RunSettles(lib, plan.order, piped.store);
    assert Get(RunAll(lib, plan.order, piped.store), c.sensorId)
           == Entry(lib, c, RunAll(lib, plan.order, piped.store), Get(piped.store, c.sensorId));
  }

  /** And every computed sensor of the last configuration whose expression has a value over the final
      store holds it. */
  lemma {:induction false} PlannedSettles(
    lib: Meval, configs: seq<Config>, plans: seq<Plan>, v: View, batches: seq<seq<RawSample>>, c: ComputedConfig)
    requires |plans| == |batches| > 0 && PlansOf(lib, configs, plans) && c in configs[|configs| - 1].computed
    ensures var store := Planned(lib, plans, v, batches).store;
            Evaluate(lib, c, store).Some? ==> Get(store, c.sensorId) == ComputedEntry(lib, c, store)
  {
    var n := |batches| - 1;
    PlanIds(configs[n], plans[n]);
    StepSettles(lib, plans[n], Planned(lib, plans[..n], v, batches[..n]), batches[n], c);
  }

  // ----- From start to end -----

  /** Sensors that are at no time computed hold their latest samples. */
  ghost predicate RawIsLatest(configs: seq<Config>, batches: seq<seq<RawSample>>, m: Contents) {
    forall id :: (forall i :: 0 <= i < |configs| ==> id !in ComputedIds(configs[i].computed)) ==>
                   RawIn(m, id) == LatestOf(SamplesOf(Flatten(batches), id))
  }

  /** The computed sensors of a configuration hold their expressions where these have a value. */
  ghost predicate ComputedFollow(lib: Meval, config: Config, m: Contents) {
    forall c :: c in config.computed && Evaluate(lib, c, m).Some? ==>
                  Get(m, c.sensorId) == ComputedEntry(lib, c, m)
  }

  lemma {:induction false} PlannedFollows(
    lib: Meval, start: Config, configs: seq<Config>, plans: seq<Plan>, v: View, batches: seq<seq<RawSample>>)
    requires |plans| == |batches| && PlansOf(lib, configs, plans) && v.store == map[]
    requires forall i :: 0 <= i < |batches| ==> Distinct(BatchIds(batches[i]))
    ensures RawIsLatest(configs, batches, Planned(lib, plans, v, batches).store)
    ensures batches != [] ==> ComputedFollow(lib, LastOf(start, configs), Planned(lib, plans, v, batches).store)
  {
    var m := Planned(lib, plans, v, batches).store;
    forall id | forall i :: 0 <= i < |configs| ==> id !in ComputedIds(configs[i].computed)
      ensures RawIn(m, id) == LatestOf(SamplesOf(Flatten(batches), id))
    {
      PlannedKeepsRaw(lib, configs, plans, v, batches, id);
    }
    if batches != [] {
      forall c | c in LastOf(start, configs).computed && Evaluate(lib, c, m).Some?
        ensures Get(m, c.sensorId) == ComputedEntry(lib, c, m)
      {
        PlannedSettles(lib, configs, plans, v, batches, c);
      }
    }
  }

  lemma {:induction false} PlannedSteadily(
    lib: Meval, config: Config, plan: Plan, plans: seq<Plan>, batches: seq<seq<RawSample>>)
    requires GatewayValidate.Valid(lib, config) && PlanOf(config, plan) && ChainsValid(lib, plan.chains)
    requires |plans| == |batches| && Steady(plans, plan) && !plan.restarted
    requires forall b :: b in batches ==> FromDevices(config, b)
    ensures var v := View(map[], NoHistories(plan.chains));
            RightStore(lib, config, plan.chains, Planned(lib, plans, v, batches), batches)
  {
    SteadyIsBatches(lib, plan, plans, View(map[], NoHistories(plan.chains)), batches);
    SteadyRunIsRight(lib, config, plan, batches);
  }

  /** A consumer for a valid configuration, with caches built from it. */
  method Start(lib: Meval, config: Config) returns (consumer: SampleConsumer, ghost plan: Plan)
    requires GatewayValidate.Valid(lib, config)
    ensures fresh(consumer.handle) && fresh(consumer.Repr()) && consumer.Valid() && InSync(consumer)
    ensures consumer.lib == lib && consumer.handle.config == config
    ensures plan == PlanNow(consumer, false) && PlanOf(config, plan) && ChainsValid(lib, plan.chains)
    ensures consumer.Current() == View(map[], NoHistories(plan.chains))
  {
    var handle := new ConfigHandle(lib, config);
    consumer := new SampleConsumer(handle);
    consumer.cache.ChainsAreValid();
    plan := PlanNow(consumer, false);
  }

  /** Builds the consumer for a valid configuration and runs it over all batches, while others update
      the configuration in between.  If nothing changes, the store ends up as it should.  Whatever
      changes, sensors that are at no time computed hold their latest samples, and the computed
      sensors of the last configuration hold their expressions where these have a value. */
  method RunGateway(lib: Meval, config: Config, batches: seq<seq<RawSample>>, changes: seq<Changes>)
    returns (consumer: SampleConsumer, ghost configs: seq<Config>)
    requires GatewayValidate.Valid(lib, config) && |changes| == |batches|
    requires forall i :: 0 <= i < |changes| ==> |changes[i]| < HotReload.REVISIONS
    requires forall i :: 0 <= i < |batches| ==> Distinct(BatchIds(batches[i]))
    ensures consumer.Valid() && ChainsValid(lib, consumer.cache.Chains())
    ensures Evolves(lib, config, changes, configs) && consumer.handle.config == LastOf(config, configs)
    ensures ChainsOf(consumer.handle.config.pipelines, consumer.cache.Chains())
    ensures RawIsLatest(configs, batches, consumer.store.inner)
    ensures batches != [] ==> ComputedFollow(lib, consumer.handle.config, consumer.store.inner)
    ensures NoChange(changes) && (forall b :: b in batches ==> FromDevices(config, b)) ==>
              RightStore(lib, config, consumer.cache.Chains(), consumer.Current(), batches)
  {
    ghost var plan, plans;
    consumer, plan := Start(lib, config);
    plans, configs := ReceiveAll(consumer, batches, changes);
    consumer.cache.ChainsAreValid();
    PlannedFollows(lib, config, configs, plans, View(map[], NoHistories(plan.chains)), batches);
    if NoChange(changes) && forall b :: b in batches ==> FromDevices(config, b) {
      PlannedSteadily(lib, config, plan, plans, batches);
    }
  }
}
