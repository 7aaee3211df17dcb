/** A chain of stages.  Each stage's window holds what that stage received, also when a later
    stage failed, so the chain is a function of the sample history. */
module Pipeline {
  import opened Common
  import opened GatewayConfig
  import opened GatewayValidate
  import opened MetricStore
  import opened Stages

  function Values(rs: seq<Reading>): seq<real> {
    seq(|rs|, i requires 0 <= i < |rs| => rs[i].value)
  }

  ghost predicate StagesValid(lib: Meval, configs: seq<StageConfig>) {
    forall s :: s in configs ==> StageOk(lib, s)
  }

  /** The readings a stage passes on, given all readings it received. */
  function Outputs(lib: Meval, config: StageConfig, ins: seq<Reading>): seq<Reading>
    requires StageOk(lib, config)
  {
    if ins == [] then []
    else
      var before := Outputs(lib, config, ins[..|ins| - 1]);
      match Output(lib, config, Values(ins), ins[|ins| - 1])
      case None => before
      case Some(r) => before + [r]
  }

  /** The readings that reach stage `i` of a chain, given all samples. */
  function Reaching(lib: Meval, configs: seq<StageConfig>, i: nat, samples: seq<Reading>): seq<Reading>
    requires StagesValid(lib, configs) && i <= |configs|
  {
    if i == 0 then samples
    else
      assert configs[i - 1] in configs;
      Outputs(lib, configs[i - 1], Reaching(lib, configs, i - 1, samples))
  }

  /** All readings the whole chain has produced. */
  function Produced(lib: Meval, configs: seq<StageConfig>, samples: seq<Reading>): seq<Reading>
    requires StagesValid(lib, configs)
  {
    Reaching(lib, configs, |configs|, samples)
  }

  /** What the chain returns for the last sample of a history. */
  function Outcome(lib: Meval, configs: seq<StageConfig>, samples: seq<Reading>): Option<Reading>
    requires StagesValid(lib, configs) && samples != []
  {
    var now, before := Produced(lib, configs, samples), Produced(lib, configs, samples[..|samples| - 1]);
    if configs != [] && |now| > |before| then Some(now[|now| - 1]) else None
  }

  lemma {:induction false} OutputsAppend(lib: Meval, config: StageConfig, ins: seq<Reading>, r: Reading)
    requires StageOk(lib, config)
    ensures Outputs(lib, config, ins + [r]) ==
            match Output(lib, config, Values(ins) + [r.value], r)
            case None => Outputs(lib, config, ins)
            case Some(out) => Outputs(lib, config, ins) + [out]
  {
    assert (ins + [r])[..|ins|] == ins;
    assert Values(ins + [r]) == Values(ins) + [r.value];
  }

  /** A stage that never fails: only an expression with other variables than `v` does. */
  predicate NeverFails(lib: Meval, config: StageConfig) {
    config.Math? ==> lib.binds(config.expression, {"v"})
  }

  predicate AcceptsAll(lib: Meval, configs: seq<StageConfig>) {
    forall s :: s in configs ==> NeverFails(lib, s)
  }

  lemma {:induction false} OutputsCount(lib: Meval, config: StageConfig, ins: seq<Reading>)
    requires StageOk(lib, config)
    ensures |Outputs(lib, config, ins)| == if NeverFails(lib, config) then |ins| else 0
  {
    if ins != [] {
      OutputsCount(lib, config, ins[..|ins| - 1]);
    }
  }

  lemma {:induction false} ReachingCount(lib: Meval, configs: seq<StageConfig>, i: nat, samples: seq<Reading>)
    requires StagesValid(lib, configs) && i <= |configs|
    ensures |Reaching(lib, configs, i, samples)| == if AcceptsAll(lib, configs[..i]) then |samples| else 0
  {
    if i > 0 {
      assert configs[i - 1] in configs;
      assert configs[..i] == configs[..i - 1] + [configs[i - 1]];
      ReachingCount(lib, configs, i - 1, samples);
      OutputsCount(lib, configs[i - 1], Reaching(lib, configs, i - 1, samples));
    }
  }

  /** A chain accepts every sample or none: all exactly if it has a stage and none of its stages can
      fail. */
  lemma {:induction false} ChainAcceptsIff(lib: Meval, configs: seq<StageConfig>, samples: seq<Reading>)
    requires StagesValid(lib, configs) && samples != []
    ensures Outcome(lib, configs, samples).Some? <==> configs != [] && AcceptsAll(lib, configs)
    ensures |Produced(lib, configs, samples)| == if AcceptsAll(lib, configs) then |samples| else 0
  {
    assert configs[..|configs|] == configs;
    ReachingCount(lib, configs, |configs|, samples);
    ReachingCount(lib, configs, |configs|, samples[..|samples| - 1]);
  }

  /** The configuration check admits a chain that never produces anything: it looks at whether an
      expression parses, not at its variables. */
  lemma {:induction false} CheckedChainMayNeverProduce(
    lib: Meval, id: string, expression: string, samples: seq<Reading>)
    requires lib.parses(expression) && !lib.binds(expression, {"v"}) && samples != []
    ensures StagesOk(lib, PipelineConfig(id, [Math(expression)]))
    ensures Outcome(lib, [Math(expression)], samples).None?
  {
    assert Math(expression) in [Math(expression)];
    ChainAcceptsIff(lib, [Math(expression)], samples);
  }

  /** Once a reading has failed it is missing from there on. */
  lemma {:induction false} SameFromThere(
    lib: Meval, configs: seq<StageConfig>, i: nat, j: nat, a: seq<Reading>, b: seq<Reading>)
    requires StagesValid(lib, configs) && i <= j <= |configs|
    requires Reaching(lib, configs, i, a) == Reaching(lib, configs, i, b)
    ensures Reaching(lib, configs, j, a) == Reaching(lib, configs, j, b)
    decreases j
  {
    if i < j {
      SameFromThere(lib, configs, i, j - 1, a, b);
    }
  }

  class Pipeline {
    const lib: Meval
    const sensorId: string
    const configs: seq<StageConfig>
    const stages: seq<Stage>
    /** Every sample given to the chain. */
    ghost var samples: seq<Reading>

    ghost const repr: set<object>

    /** Stage `i` has received exactly the readings that reach it for a history of samples. */
    ghost predicate InStep(i: nat, history: seq<Reading>)
      requires StagesValid(lib, configs) && i < |stages| == |configs|
      reads stages[i]
    {
      && stages[i].Valid()
      && stages[i].lib == lib && stages[i].config == configs[i]
      && stages[i].received == Values(Reaching(lib, configs, i, history))
    }

    ghost predicate Shape() {
      && StagesValid(lib, configs)
      && |stages| == |configs|
      && (forall i, j :: 0 <= i < j < |stages| ==> stages[i] != stages[j])
      && repr == {this} + (set s: object | s in stages)
    }

    ghost predicate Valid()
      reads this, stages
    {
      Shape() && forall i :: 0 <= i < |stages| ==> InStep(i, samples)
    }

    constructor (lib: Meval, config: PipelineConfig)
      requires StagesValid(lib, config.stages)
      ensures Valid() && fresh(repr)
      ensures this.lib == lib && sensorId == config.sensorId && configs == config.stages && samples == []
    {
      var built: seq<Stage> := [];
      for i := 0 to |config.stages|
        invariant |built| == i
        invariant forall k :: 0 <= k < i ==> fresh(built[k])
        invariant forall k :: 0 <= k < i ==> built[k].Valid() && built[k].lib == lib
                                             && built[k].config == config.stages[k] && built[k].received == []
        invariant forall j, k :: 0 <= j < k < i ==> built[j] != built[k]
      {
        assert config.stages[i] in config.stages;
        var stage := new Stage(lib, config.stages[i]);
        built := built + [stage];
      }
      this.lib, sensorId, configs, stages, samples := lib, config.sensorId, config.stages, built, [];
      repr := {this} + (set s: object | s in built);
      new;
      forall i | 0 <= i < |stages| ensures InStep(i, samples) {
        NothingReaches(lib, configs, i);
      }
    }

    /** Runs one stage: afterwards it is in step with the longer history, and what it passes on is
        what that history says. */
    method RunStage(i: nat, ctx: SampleContext, ghost before: seq<Reading>, ghost after: seq<Reading>)
      returns (ok: bool)
      requires Shape() && i < |stages| && InStep(i, before)
      requires Reaching(lib, configs, i, after) == Reaching(lib, configs, i, before) + [ctx.Current()]
      modifies stages[i], ctx
      ensures InStep(i, after)
      ensures Reaching(lib, configs, i + 1, after) ==
              Reaching(lib, configs, i + 1, before) + (if ok then [ctx.Current()] else [])
    {
      ghost var reached := Reaching(lib, configs, i, before);
      assert configs[i] in configs;
      OutputsAppend(lib, configs[i], reached, ctx.Current());
      assert Values(reached + [ctx.Current()]) == Values(reached) + [ctx.value];
      ok := stages[i].Process(ctx);
    }

    /** After a failure at stage `i` the later stages are in step with the longer history too. */
    lemma {:induction false} RestInStep(i: nat, before: seq<Reading>, after: seq<Reading>)
      requires Shape() && i < |stages|
      requires Reaching(lib, configs, i + 1, after) == Reaching(lib, configs, i + 1, before)
      requires forall k :: 0 <= k <= i ==> InStep(k, after)
      requires forall k :: i < k < |stages| ==> InStep(k, before)
      ensures forall k :: 0 <= k < |stages| ==> InStep(k, after)
      ensures Reaching(lib, configs, |stages|, after) == Reaching(lib, configs, |stages|, before)
    {
      forall k | i < k < |stages| ensures InStep(k, after) {
        assert InStep(k, before);
        SameFromThere(lib, configs, i + 1, k, after, before);
      }
      SameFromThere(lib, configs, i + 1, |stages|, after, before);
    }

    /** The loop over the stages, stopping at the first failure. */
    method RunStages(ctx: SampleContext, ghost before: seq<Reading>, ghost after: seq<Reading>) returns (ok: bool)
      requires Shape() && after == before + [ctx.Current()]
      requires forall k :: 0 <= k < |stages| ==> InStep(k, before)
      modifies stages, ctx
      ensures forall k :: 0 <= k < |stages| ==> InStep(k, after)
      ensures Produced(lib, configs, after) == Produced(lib, configs, before) + (if ok then [ctx.Current()] else [])
    {
      for i := 0 to |stages|
        invariant Reaching(lib, configs, i, after) == Reaching(lib, configs, i, before) + [ctx.Current()]
        invariant forall k :: 0 <= k < i ==> InStep(k, after)
        invariant forall k :: i <= k < |stages| ==> InStep(k, before)
      {
        ok := RunStage(i, ctx, before, after);
        if !ok {
          RestInStep(i, before, after);
          return;
        }
      }
      return true;
    }

    /** Runs the chain on one sample.  The result, and the state of every stage afterwards, is the
        one determined by the whole history of samples. */
    method Process(sample: RawSample) returns (r: Option<Metric>)
      requires Valid()
      modifies repr
      ensures Valid() && samples == old(samples) + [FromRaw(sample)]
      ensures r == match Outcome(lib, configs, samples)
                   case None => None
                   case Some(x) => Some(Metric(sample.sensorId, x.value, x.unit, x.status))
    {
      ghost var before, after := samples, samples + [FromRaw(sample)];
      assert after[..|after| - 1] == before;
      if stages == [] {
        samples := after;
        return None;
      }
      var ctx := new SampleContext(sample);
      var ok := RunStages(ctx, before, after);
      samples := after;
      return if ok then Some(Metric(ctx.sensorId, ctx.value, ctx.unit, ctx.status)) else None;
    }
  }

  lemma {:induction false} NothingReaches(lib: Meval, configs: seq<StageConfig>, i: nat)
    requires StagesValid(lib, configs) && i <= |configs|
    ensures Reaching(lib, configs, i, []) == []
  {
    if i > 0 {
      NothingReaches(lib, configs, i - 1);
    }
  }
}
