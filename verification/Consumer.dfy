/** The main loop: for each batch of samples the caches are refreshed, the samples stored and run
    through the pipelines, and one pass made over the computed sensors. */
module Consumer {
  import opened Common
  import opened GatewayConfig
  import GatewayValidate
  import opened DependencyGraph
  import opened EvaluationOrder
  import opened MetricStore
  import opened ComputedRun
  import opened ComputedEngine
  import opened Stages
  import opened Pipeline
  import opened PipelinesCache

  /** The store, and the samples each pipeline has been given. */
  datatype View = View(store: Contents, histories: Histories)

  ghost predicate ChainsValid(lib: Meval, chains: Chains) {
    forall id :: id in chains ==> StagesValid(lib, chains[id])
  }

  function HistoryOf(v: View, id: string): seq<Reading> {
    if id in v.histories then v.histories[id] else []
  }

  function MetricOf(id: string, r: Reading): Metric {
    Metric(id, r.value, r.unit, r.status)
  }

  /** One sample through its pipeline, if it has one; a failure leaves the store alone. */
  function PipeOne(lib: Meval, chains: Chains, v: View, s: RawSample): View
    requires ChainsValid(lib, chains)
  {
    if s.sensorId !in chains then v
    else
      var h := HistoryOf(v, s.sensorId) + [FromRaw(s)];
      var histories := v.histories[s.sensorId := h];
      match Outcome(lib, chains[s.sensorId], h)
      case None => View(v.store, histories)
      case Some(r) => View(v.store[s.sensorId := SensorState(Some(s), Some(MetricOf(s.sensorId, r)))], histories)
  }

  function PipeAll(lib: Meval, chains: Chains, v: View, batch: seq<RawSample>): View
    requires ChainsValid(lib, chains)
  {
    if batch == [] then v else PipeOne(lib, chains, PipeAll(lib, chains, v, batch[..|batch| - 1]), batch[|batch| - 1])
  }

  function BatchStep(lib: Meval, chains: Chains, order: seq<ComputedConfig>, v: View, batch: seq<RawSample>): View
    requires ChainsValid(lib, chains)
  {
    var piped := PipeAll(lib, chains, View(WithBatch(v.store, batch), v.histories), batch);
    View(RunAll(lib, order, piped.store), piped.histories)
  }

  function Batches(lib: Meval, chains: Chains, order: seq<ComputedConfig>, v: View, batches: seq<seq<RawSample>>): View
    requires ChainsValid(lib, chains)
  {
    if batches == [] then v
    else BatchStep(lib, chains, order, Batches(lib, chains, order, v, batches[..|batches| - 1]), batches[|batches| - 1])
  }

  // ----- What the store should hold -----

  /** The samples of one sensor, in order. */
  function SamplesOf(all: seq<RawSample>, id: string): seq<RawSample> {
    if all == [] then []
    else
      var before := SamplesOf(all[..|all| - 1], id);
      if all[|all| - 1].sensorId == id then before + [all[|all| - 1]] else before
  }

  function Flatten(batches: seq<seq<RawSample>>): seq<RawSample> {
    if batches == [] then [] else Flatten(batches[..|batches| - 1]) + batches[|batches| - 1]
  }

  function Readings(samples: seq<RawSample>): seq<Reading> {
    seq(|samples|, i requires 0 <= i < |samples| => FromRaw(samples[i]))
  }

  /** The metric for the latest sample that the sensor's pipeline accepted. */
  function ExpectedMetric(lib: Meval, chains: Chains, id: string, mine: seq<RawSample>): Option<Metric>
    requires ChainsValid(lib, chains)
  {
    if id !in chains || chains[id] == [] then None
    else
      var produced := Produced(lib, chains[id], Readings(mine));
      if produced == [] then None else Some(MetricOf(id, produced[|produced| - 1]))
  }

  /** The latest sample, and that metric. */
  function ExpectedEntry(lib: Meval, chains: Chains, id: string, mine: seq<RawSample>): Option<SensorState>
    requires ChainsValid(lib, chains)
  {
    if mine == [] then None
    else Some(SensorState(Some(mine[|mine| - 1]), ExpectedMetric(lib, chains, id, mine)))
  }

  /** As a chain accepts every sample or none, that metric is the one for the latest sample, or
      there is none at all. */
  lemma {:induction false} MetricIsOfLatest(lib: Meval, chains: Chains, id: string, mine: seq<RawSample>)
    requires ChainsValid(lib, chains) && mine != []
    ensures id in chains && chains[id] != [] && AcceptsAll(lib, chains[id]) ==>
              && Outcome(lib, chains[id], Readings(mine)).Some?
              && ExpectedMetric(lib, chains, id, mine)
                 == Some(MetricOf(id, Outcome(lib, chains[id], Readings(mine)).value))
    ensures !(id in chains && chains[id] != [] && AcceptsAll(lib, chains[id])) ==>
              ExpectedMetric(lib, chains, id, mine).None?
  {
    if id in chains && chains[id] != [] {
      ChainAcceptsIff(lib, chains[id], Readings(mine));
    }
  }

  ghost predicate AgreesAt(lib: Meval, chains: Chains, v: View, id: string, mine: seq<RawSample>)
    requires ChainsValid(lib, chains)
  {
    && Get(v.store, id) == ExpectedEntry(lib, chains, id, mine)
    && (id in chains ==> HistoryOf(v, id) == Readings(mine))
  }

  // ----- Pipelines only ever append -----

  lemma {:induction false} ReachingGrows(lib: Meval, configs: seq<StageConfig>, i: nat, h: seq<Reading>, x: Reading)
    requires StagesValid(lib, configs) && i <= |configs|
    ensures var now, before := Reaching(lib, configs, i, h + [x]), Reaching(lib, configs, i, h);
            now == before || (|now| == |before| + 1 && now[..|before|] == before)
  {
    if i > 0 {
      ReachingGrows(lib, configs, i - 1, h, x);
      assert configs[i - 1] in configs;
      var now, before := Reaching(lib, configs, i - 1, h + [x]), Reaching(lib, configs, i - 1, h);
      if now != before {
        assert now == before + [now[|before|]];
        OutputsAppend(lib, configs[i - 1], before, now[|before|]);
      }
    }
  }

  lemma {:induction false} NextMetric(lib: Meval, chains: Chains, id: string, mine: seq<RawSample>, s: RawSample)
    requires ChainsValid(lib, chains) && id in chains
    ensures ExpectedMetric(lib, chains, id, mine + [s]) ==
            match Outcome(lib, chains[id], Readings(mine) + [FromRaw(s)])
            case None => ExpectedMetric(lib, chains, id, mine)
            case Some(r) => Some(MetricOf(id, r))
  {
    var h := Readings(mine);
    assert Readings(mine + [s]) == h + [FromRaw(s)];
    assert (h + [FromRaw(s)])[..|h|] == h;
    ReachingGrows(lib, chains[id], |chains[id]|, h, FromRaw(s));
  }

  // ----- One batch, seen from one sensor -----

  function BatchIds(batch: seq<RawSample>): seq<string> {
    seq(|batch|, i requires 0 <= i < |batch| => batch[i].sensorId)
  }

  lemma {:induction false} IdsSnoc(batch: seq<RawSample>)
    requires batch != []
    ensures BatchIds(batch) == BatchIds(batch[..|batch| - 1]) + [batch[|batch| - 1].sensorId]
    ensures Distinct(BatchIds(batch)) ==>
              Distinct(BatchIds(batch[..|batch| - 1])) && batch[|batch| - 1].sensorId !in BatchIds(batch[..|batch| - 1])
  {
    var front := batch[..|batch| - 1];
    assert BatchIds(batch) == BatchIds(front) + [batch[|batch| - 1].sensorId];
    if Distinct(BatchIds(batch)) {
      DistinctPrefix(BatchIds(front), BatchIds(batch));
      DistinctAppend(BatchIds(front), batch[|batch| - 1].sensorId);
    }
  }

  lemma {:induction false} RawElsewhere(m: Contents, batch: seq<RawSample>, id: string)
    requires id !in BatchIds(batch)
    ensures Get(WithBatch(m, batch), id) == Get(m, id)
  {
    if batch != [] {
      IdsSnoc(batch);
      RawElsewhere(m, batch[..|batch| - 1], id);
    }
  }

  lemma {:induction false} RawHere(m: Contents, batch: seq<RawSample>, j: nat)
    requires Distinct(BatchIds(batch)) && j < |batch|
    ensures Get(WithBatch(m, batch), batch[j].sensorId) ==
            Some(SensorState(Some(batch[j]), MetricIn(m, batch[j].sensorId)))
  {
    var n := |batch| - 1;
    IdsSnoc(batch);
    if j == n {
      RawElsewhere(m, batch[..n], batch[j].sensorId);
    } else {
      assert batch[..n][j] == batch[j] && BatchIds(batch[..n])[j] == batch[j].sensorId;
      RawHere(m, batch[..n], j);
    }
  }

  ghost predicate SameAt(v: View, w: View, id: string) {
    Get(v.store, id) == Get(w.store, id) && HistoryOf(v, id) == HistoryOf(w, id)
  }

  lemma {:induction false} PipeElsewhere(lib: Meval, chains: Chains, v: View, batch: seq<RawSample>, id: string)
    requires ChainsValid(lib, chains) && id !in BatchIds(batch)
    ensures SameAt(PipeAll(lib, chains, v, batch), v, id)
  {
    if batch != [] {
      IdsSnoc(batch);
      PipeElsewhere(lib, chains, v, batch[..|batch| - 1], id);
    }
  }

  lemma {:induction false} PipeHere(lib: Meval, chains: Chains, v: View, batch: seq<RawSample>, j: nat)
    requires ChainsValid(lib, chains) && Distinct(BatchIds(batch)) && j < |batch|
    ensures SameAt(PipeAll(lib, chains, v, batch), PipeOne(lib, chains, v, batch[j]), batch[j].sensorId)
  {
    var n := |batch| - 1;
    IdsSnoc(batch);
    if j == n {
      PipeElsewhere(lib, chains, v, batch[..n], batch[j].sensorId);
    } else {
      assert batch[..n][j] == batch[j] && BatchIds(batch[..n])[j] == batch[j].sensorId;
      PipeHere(lib, chains, v, batch[..n], j);
    }
  }

  lemma {:induction false} SamplesElsewhere(all: seq<RawSample>, batch: seq<RawSample>, id: string)
    requires id !in BatchIds(batch)
    ensures SamplesOf(all + batch, id) == SamplesOf(all, id)
  {
    if batch == [] {
      assert all + batch == all;
    } else {
      IdsSnoc(batch);
      assert (all + batch)[..|all + batch| - 1] == all + batch[..|batch| - 1];
      SamplesElsewhere(all, batch[..|batch| - 1], id);
    }
  }

  lemma {:induction false} SamplesHere(all: seq<RawSample>, batch: seq<RawSample>, j: nat)
    requires Distinct(BatchIds(batch)) && j < |batch|
    ensures SamplesOf(all + batch, batch[j].sensorId) == SamplesOf(all, batch[j].sensorId) + [batch[j]]
  {
    var n := |batch| - 1;
    IdsSnoc(batch);
    assert (all + batch)[..|all + batch| - 1] == all + batch[..n];
    if j == n {
      SamplesElsewhere(all, batch[..n], batch[j].sensorId);
    } else {
      assert batch[..n][j] == batch[j] && BatchIds(batch[..n])[j] == batch[j].sensorId;
      SamplesHere(all, batch[..n], j);
    }
  }

  function MetricIn(store: Contents, id: string): Option<Metric> {
    if id in store then store[id].metric else None
  }

  lemma {:induction false} AgreedMetric(lib: Meval, chains: Chains, v: View, id: string, mine: seq<RawSample>)
    requires ChainsValid(lib, chains) && AgreesAt(lib, chains, v, id, mine)
    ensures MetricIn(v.store, id) == ExpectedMetric(lib, chains, id, mine)
  {
    if mine == [] && id in chains {
      assert Readings(mine) == [];
      NothingReaches(lib, chains[id], |chains[id]|);
    }
  }

  lemma {:induction false} PipeOneAt(lib: Meval, chains: Chains, v: View, s: RawSample)
    requires ChainsValid(lib, chains) && s.sensorId in chains
    ensures var id, after := s.sensorId, PipeOne(lib, chains, v, s);
            var h := HistoryOf(v, id) + [FromRaw(s)];
            && HistoryOf(after, id) == h
            && Get(after.store, id) == match Outcome(lib, chains[id], h)
                                       case None => Get(v.store, id)
                                       case Some(r) => Some(SensorState(Some(s), Some(MetricOf(id, r))))
  {
  }

  /** One sample: what the sensor's entry becomes is what it should be. */
  lemma {:induction false} SampleKeepsAgreement(
    lib: Meval, chains: Chains, v: View, raw: View, s: RawSample, mine: seq<RawSample>)
    requires ChainsValid(lib, chains) && AgreesAt(lib, chains, v, s.sensorId, mine)
    requires raw.histories == v.histories
    requires Get(raw.store, s.sensorId) == Some(SensorState(Some(s), MetricIn(v.store, s.sensorId)))
    ensures AgreesAt(lib, chains, PipeOne(lib, chains, raw, s), s.sensorId, mine + [s])
  {
    AgreedMetric(lib, chains, v, s.sensorId, mine);
    if s.sensorId in chains {
      assert Readings(mine + [s]) == Readings(mine) + [FromRaw(s)];
      PipeOneAt(lib, chains, raw, s);
      NextMetric(lib, chains, s.sensorId, mine, s);
    }
  }

  lemma {:induction false} BatchKeepsAgreement(
    lib: Meval, chains: Chains, v: View, batch: seq<RawSample>, all: seq<RawSample>, id: string)
    requires ChainsValid(lib, chains) && Distinct(BatchIds(batch))
    requires AgreesAt(lib, chains, v, id, SamplesOf(all, id))
    ensures AgreesAt(lib, chains, PipeAll(lib, chains, View(WithBatch(v.store, batch), v.histories), batch), id,
                     SamplesOf(all + batch, id))
  {
    var raw := View(WithBatch(v.store, batch), v.histories);
    if id in BatchIds(batch) {
      var j :| 0 <= j < |batch| && BatchIds(batch)[j] == id;
      RawHere(v.store, batch, j);
      PipeHere(lib, chains, raw, batch, j);
      SamplesHere(all, batch, j);
      SampleKeepsAgreement(lib, chains, v, raw, batch[j], SamplesOf(all, id));
    } else {
      RawElsewhere(v.store, batch, id);
      PipeElsewhere(lib, chains, raw, batch, id);
      SamplesElsewhere(all, batch, id);
    }
  }

  ghost predicate BatchOk(order: seq<ComputedConfig>, batch: seq<RawSample>) {
    Distinct(BatchIds(batch)) && forall id :: id in BatchIds(batch) ==> id !in ComputedIds(order)
  }

  /** Nothing stored and nothing processed yet. */
  ghost predicate Untouched(v: View) {
    v.store == map[] && forall id :: HistoryOf(v, id) == []
  }

  /** After any sequence of batches with distinct ids: every sensor that is not computed holds its
      latest sample and the metric of the latest sample its pipeline accepted. */
  lemma {:induction false} BatchesKeepLatest(
    lib: Meval, chains: Chains, order: seq<ComputedConfig>, v: View, batches: seq<seq<RawSample>>, id: string)
    requires ChainsValid(lib, chains) && DependencyOrder(order) && id !in ComputedIds(order) && Untouched(v)
    requires forall b :: b in batches ==> BatchOk(order, b)
    ensures AgreesAt(lib, chains, Batches(lib, chains, order, v, batches), id,
                     SamplesOf(Flatten(batches), id))
  {
    if batches == [] {
      assert Readings([]) == [];
    } else {
      var front, batch := batches[..|batches| - 1], batches[|batches| - 1];
      assert forall b :: b in front ==> b in batches;
      assert batch in batches;
      BatchesKeepLatest(lib, chains, order, v, front, id);
      var before := Batches(lib, chains, order, v, front);
      BatchKeepsAgreement(lib, chains, before, batch, Flatten(front), id);
      var piped := PipeAll(lib, chains, View(WithBatch(before.store, batch), before.histories), batch);
      RunSettles(lib, order, piped.store);
    }
  }

  // ----- Values never disappear -----

  /** Every sensor with a value in `m` has one in `n`. */
  ghost predicate KeepsValues(m: Contents, n: Contents) {
    forall id :: ValueOf(m, id).Some? ==> ValueOf(n, id).Some?
  }

  lemma {:induction false} BatchKeepsValues(m: Contents, batch: seq<RawSample>)
    ensures KeepsValues(m, WithBatch(m, batch))
  {
    if batch != [] {
      BatchKeepsValues(m, batch[..|batch| - 1]);
    }
  }

  lemma {:induction false} PipeKeepsValues(lib: Meval, chains: Chains, v: View, batch: seq<RawSample>)
    requires ChainsValid(lib, chains)
    ensures KeepsValues(v.store, PipeAll(lib, chains, v, batch).store)
  {
    if batch != [] {
      PipeKeepsValues(lib, chains, v, batch[..|batch| - 1]);
    }
  }

  lemma {:induction false} RunKeepsValues(lib: Meval, order: seq<ComputedConfig>, m: Contents)
    ensures KeepsValues(m, RunAll(lib, order, m))
  {
    if order != [] {
      RunKeepsValues(lib, order[..|order| - 1], m);
    }
  }

  lemma {:induction false} EvaluateKeeps(lib: Meval, c: ComputedConfig, m: Contents, n: Contents)
    requires KeepsValues(m, n) && Evaluate(lib, c, m).Some?
    ensures Evaluate(lib, c, n).Some?
  {
    forall v | v in c.inputs ensures ValueOf(n, c.inputs[v]).Some? {
      assert ValueOf(m, c.inputs[v]).Some?;
    }
  }

  /** The entry a computed sensor should have: its expression over the store, and nothing while that
      has no value. */
  function ComputedEntry(lib: Meval, c: ComputedConfig, store: Contents): Option<SensorState> {
    match Evaluate(lib, c, store)
    case Some(metric) => Some(SensorState(None, Some(metric)))
    case None => None
  }

  lemma {:induction false} BatchSettles(
    lib: Meval, chains: Chains, order: seq<ComputedConfig>, v: View, batch: seq<RawSample>, c: ComputedConfig)
    requires ChainsValid(lib, chains) && DependencyOrder(order) && c in order && BatchOk(order, batch)
    requires Evaluate(lib, c, v.store).None? ==> Get(v.store, c.sensorId).None?
    ensures var store := BatchStep(lib, chains, order, v, batch).store;
            Get(store, c.sensorId) == ComputedEntry(lib, c, store)
  {
    var raw := View(WithBatch(v.store, batch), v.histories);
    var piped := PipeAll(lib, chains, raw, batch);
    assert c.sensorId in ComputedIds(order) by {
      var i :| 0 <= i < |order| && order[i] == c;
      assert ComputedIds(order)[i] == c.sensorId;
    }
    RawElsewhere(v.store, batch, c.sensorId);
    PipeElsewhere(lib, chains, raw, batch, c.sensorId);
    RunSettles(lib, order, piped.store);
    BatchKeepsValues(v.store, batch);
    PipeKeepsValues(lib, chains, raw, batch);
    RunKeepsValues(lib, order, piped.store);
    if Evaluate(lib, c, v.store).Some? {
      EvaluateKeeps(lib, c, v.store, RunAll(lib, order, piped.store));
    }
  }

  /** And the computed sensors are settled over the final store: each holds its expression over the
      values there, and nothing if one of its inputs has none. */
  lemma {:induction false} BatchesSettle(
    lib: Meval, chains: Chains, order: seq<ComputedConfig>, v: View, batches: seq<seq<RawSample>>, c: ComputedConfig)
    requires ChainsValid(lib, chains) && DependencyOrder(order) && c in order && v.store == map[]
    requires forall b :: b in batches ==> BatchOk(order, b)
    ensures var store := Batches(lib, chains, order, v, batches).store;
            Get(store, c.sensorId) == if batches == [] then None else ComputedEntry(lib, c, store)
  {
    if batches != [] {
      var front, batch := batches[..|batches| - 1], batches[|batches| - 1];
      assert forall b :: b in front ==> b in batches;
      assert batch in batches;
      BatchesSettle(lib, chains, order, v, front, c);
      BatchSettles(lib, chains, order, Batches(lib, chains, order, v, front), batch, c);
    }
  }

  // ----- The loop body over live objects -----

  class SampleConsumer {
    const lib: Meval
    const handle: ConfigHandle
    const store: Store
    const cache: PipelinesCache
    const computed: ComputedEngine

    ghost function Repr(): set<object>
      reads cache
    {
      {store, cache, computed} + cache.objects
    }

    ghost predicate Shape()
      reads cache, computed
    {
      && cache.lib == lib && computed.lib == lib && handle.lib == lib
      && cache.Shape()
      && handle !in Repr()
      && store !in cache.objects && computed !in cache.objects
    }

    ghost predicate Valid()
      reads Repr()
    {
      Shape() && cache.Valid()
    }

    ghost function Current(): View
      requires Shape()
      reads Repr()
    {
      View(store.inner, cache.Histories())
    }

    /** Both caches were built for the handle's revision. */
    ghost predicate UpToDate()
      reads handle, cache, computed
    {
      cache.revision == handle.revision && computed.revision == handle.revision
    }

    static method NewParts(lib: Meval, config: Config)
      returns (store: Store, cache: PipelinesCache, computed: ComputedEngine)
      requires GatewayValidate.Valid(lib, config)
      ensures cache.Valid() && fresh(cache) && fresh(cache.objects) && cache.lib == lib && cache.revision == 0
      ensures fresh(computed) && computed !in cache.objects && computed.lib == lib && computed.revision == 0
      ensures fresh(store) && store !in cache.objects && store.inner == map[]
      ensures ChainsOf(config.pipelines, cache.Chains()) && computed.BuiltFrom(config)
      ensures cache.Histories() == NoHistories(cache.Chains())
    {
      store := new Store();
      computed := new ComputedEngine(lib, config);
      cache := new PipelinesCache(lib, config);
    }

    /** Starts with an empty store, one pipeline per configured chain and the computed sensors in
        dependency order. */
    constructor (handle: ConfigHandle)
      requires handle.Valid()
      ensures Valid() && fresh(Repr()) && this.handle == handle && lib == handle.lib
      ensures cache.revision == 0 && computed.revision == 0
      ensures ChainsOf(handle.config.pipelines, cache.Chains()) && computed.BuiltFrom(handle.config)
      ensures Current() == View(map[], NoHistories(cache.Chains()))
    {
      this.handle, lib := handle, handle.lib;
      var empty, built, sorted := NewParts(handle.lib, handle.config);
      store, cache, computed := empty, built, sorted;
    }

    /** Rebuilds the caches if the configuration has changed since they were built.  Rebuilt
        pipelines start with empty windows. */
    static method RefreshCaches(cache: PipelinesCache, computed: ComputedEngine, handle: ConfigHandle)
      requires cache.Valid() && handle.Valid() && cache.lib == handle.lib && computed !in cache.objects
      modifies cache, computed
      ensures cache.Valid() && fresh(cache.objects - old(cache.objects))
      ensures cache.revision == handle.revision && computed.revision == handle.revision
      ensures if handle.revision == old(cache.revision)
              then cache.Chains() == old(cache.Chains()) && cache.Histories() == old(cache.Histories())
              else ChainsOf(handle.config.pipelines, cache.Chains())
                   && cache.Histories() == NoHistories(cache.Chains())
      ensures if handle.revision == old(computed.revision) then computed.sensors == old(computed.sensors)
              else computed.BuiltFrom(handle.config)
    {
      cache.Refresh(handle);
      ghost var histories := cache.Histories();
      computed.Refresh(handle);
      assert cache.Histories() == histories;
    }

    /** Sends one sample through its pipeline, if it has one, and stores the metric. */
    method Pipe(s: RawSample)
      requires Valid()
      modifies store, cache.objects
      ensures Valid() && ChainsValid(lib, cache.Chains())
      ensures Current() == PipeOne(lib, cache.Chains(), old(Current()), s)
    {
      cache.ChainsAreValid();
      if s.sensorId in cache.pipelines {
        var metric := cache.Feed(s);
        ghost var histories := cache.Histories();
        if metric.Some? {
          store.UpdateMetric(Some(s), metric.value);
          assert cache.Histories() == histories;
        }
      }
    }

    /** Raw samples first, then the pipelines. */
    method PipeBatch(batch: seq<RawSample>)
      requires Valid()
      modifies store, cache.objects
      ensures Valid() && ChainsValid(lib, cache.Chains())
      ensures var v := old(Current());
              Current() == PipeAll(lib, cache.Chains(), View(WithBatch(v.store, batch), v.histories), batch)
    {
      ghost var histories := cache.Histories();
      store.UpdateBatchRaw(batch);
      assert cache.Histories() == histories;
      ghost var raw := Current();
      cache.ChainsAreValid();
      for i := 0 to |batch|
        invariant Valid() && Current() == PipeAll(lib, cache.Chains(), raw, batch[..i])
      {
        assert batch[..i + 1][..i] == batch[..i];
        Pipe(batch[i]);
      }
      assert batch[..|batch|] == batch;
    }

    /** Then one pass over the computed sensors. */
    method Apply(batch: seq<RawSample>)
      requires Valid()
      modifies store, cache.objects
      ensures Valid() && ChainsValid(lib, cache.Chains())
      ensures Current() == BatchStep(lib, cache.Chains(), computed.sensors, old(Current()), batch)
    {
      PipeBatch(batch);
      ghost var histories := cache.Histories();
      Run(lib, computed.sensors, store);
      assert cache.Histories() == histories;
    }

    /** One batch: the caches are refreshed, and the batch is applied with what they now hold. */
    method ProcessBatch(batch: seq<RawSample>)
      requires Valid() && handle.Valid()
      modifies Repr()
      ensures Valid() && fresh(Repr() - old(Repr())) && UpToDate()
      ensures ChainsValid(lib, cache.Chains())
      ensures var start := if handle.revision == old(cache.revision) then old(Current())
                           else View(old(store.inner), NoHistories(cache.Chains()));
              Current() == BatchStep(lib, cache.Chains(), computed.sensors, start, batch)
      ensures if handle.revision == old(cache.revision) then cache.Chains() == old(cache.Chains())
              else ChainsOf(handle.config.pipelines, cache.Chains())
      ensures if handle.revision == old(computed.revision) then computed.sensors == old(computed.sensors)
              else computed.BuiltFrom(handle.config)
    {
      RefreshCaches(cache, computed, handle);
      Apply(batch);
    }
  }
}
