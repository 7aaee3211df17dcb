/** The cache of built pipelines, rebuilt when the configuration's revision moves on. */
module PipelinesCache {
  import opened Common
  import opened GatewayConfig
  import opened GatewayValidate
  import opened ComputedEngine
  import MetricStore
  import opened Stages
  import opened Pipeline

  type Chains = map<string, seq<StageConfig>>

  type Histories = map<string, seq<Reading>>

  /** The chains that a list of configured pipelines asks for. */
  ghost predicate ChainsOf(configs: seq<PipelineConfig>, chains: Chains) {
    && chains.Keys == Elements(PipelineIds(configs))
    && forall i :: 0 <= i < |configs| ==>
                     configs[i].sensorId in chains && chains[configs[i].sensorId] == configs[i].stages
  }

  ghost function ChainsIn(pipelines: map<string, Pipeline>): Chains {
    map id | id in pipelines :: pipelines[id].configs
  }

  ghost function NoHistories(chains: Chains): Histories {
    map id | id in chains :: []
  }

  /** The pipelines consist of objects of their own among `objects`. */
  ghost predicate Separate(lib: Meval, pipelines: map<string, Pipeline>, objects: set<object>) {
    && (forall id :: id in pipelines ==>
          && pipelines[id].Shape() && pipelines[id].lib == lib && pipelines[id].sensorId == id
          && pipelines[id].repr <= objects)
    && (forall a, b :: a in pipelines && b in pipelines && a != b ==> pipelines[a].repr !! pipelines[b].repr)
  }

  /** Builds one pipeline per entry. */
  method BuildPipelines(lib: Meval, configs: seq<PipelineConfig>)
    returns (built: map<string, Pipeline>, ghost objects: set<object>)
    requires Distinct(PipelineIds(configs)) && forall p :: p in configs ==> StagesValid(lib, p.stages)
    ensures fresh(objects) && Separate(lib, built, objects)
    ensures forall id :: id in built ==> built[id].Valid() && built[id].samples == []
    ensures ChainsOf(configs, ChainsIn(built))
  {
    built, objects := map[], {};
    ghost var all := PipelineIds(configs);
    for i := 0 to |configs|
      invariant fresh(objects) && Separate(lib, built, objects)
      invariant forall id :: id in built ==> built[id].Valid() && built[id].samples == []
      invariant built.Keys == Elements(all[..i]) && Distinct(all[..i])
      invariant forall k :: 0 <= k < i ==>
                              configs[k].sensorId in built && built[configs[k].sensorId].configs == configs[k].stages
    {
      assert configs[i] in configs;
      DistinctStep(all, i);
      var pipeline := new Pipeline(lib, configs[i]);
      built := built[configs[i].sensorId := pipeline];
      objects := objects + pipeline.repr;
    }
    assert all[..|configs|] == all;
  }

  class PipelinesCache {
    const lib: Meval
    var revision: nat
    var pipelines: map<string, Pipeline>
    /** The objects the pipelines consist of. */
    ghost var objects: set<object>

    ghost predicate Shape()
      reads this
    {
      this !in objects && Separate(lib, pipelines, objects)
    }

    ghost predicate Valid()
      reads this, objects
    {
      Shape() && forall id :: id in pipelines ==> pipelines[id].Valid()
    }

    ghost function Chains(): Chains
      reads this
    {
      ChainsIn(pipelines)
    }

    /** The samples each pipeline has been given. */
    ghost function Histories(): Histories
      requires Shape()
      reads this, objects
    {
      map id | id in pipelines :: pipelines[id].samples
    }

    lemma {:induction false} ChainsAreValid()
      requires Shape()
      ensures forall id :: id in Chains() ==> StagesValid(lib, Chains()[id])
    {
    }

    lemma {:induction false} NothingReceived()
      requires Shape() && forall id :: id in pipelines ==> pipelines[id].samples == []
      ensures Histories() == NoHistories(Chains())
    {
    }

    constructor (lib: Meval, config: Config)
      requires GatewayValidate.Valid(lib, config)
      ensures Valid() && fresh(objects) && this.lib == lib && revision == 0
      ensures ChainsOf(config.pipelines, Chains()) && Histories() == NoHistories(Chains())
    {
      var built, objects := BuildPipelines(lib, config.pipelines);
      this.lib, revision, pipelines, this.objects := lib, 0, built, objects;
      new;
      NothingReceived();
    }

    /** Rebuilds when the revision has moved on, with empty windows; does nothing otherwise. */
    method Refresh(handle: ConfigHandle)
      requires Valid() && handle.Valid() && handle.lib == lib
      modifies this
      ensures Valid() && revision == handle.revision
      ensures if handle.revision == old(revision)
              then objects == old(objects) && Chains() == old(Chains()) && Histories() == old(Histories())
              else fresh(objects) && ChainsOf(handle.config.pipelines, Chains()) && Histories() == NoHistories(Chains())
    {
      var rev := handle.revision;
      if rev != revision {
        pipelines, objects := BuildPipelines(lib, handle.config.pipelines);
        revision := rev;
        NothingReceived();
      }
    }

    /** Gives one sample to its pipeline. */
    method Feed(s: MetricStore.RawSample) returns (metric: Option<MetricStore.Metric>)
      requires Valid() && s.sensorId in pipelines
      modifies objects
      ensures Valid()
      ensures var h := old(Histories())[s.sensorId] + [FromRaw(s)];
              && Histories() == old(Histories())[s.sensorId := h]
              && StagesValid(lib, Chains()[s.sensorId])
              && metric == match Outcome(lib, Chains()[s.sensorId], h)
                           case None => None
                           case Some(r) => Some(MetricStore.Metric(s.sensorId, r.value, r.unit, r.status))
    {
      ChainsAreValid();
      metric := pipelines[s.sensorId].Process(s);
    }
  }
}
