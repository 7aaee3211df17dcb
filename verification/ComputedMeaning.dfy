/** What the metric of a computed sensor is, in terms of the entries of the store alone. */
module ComputedMeaning {
  import opened Common
  import opened GatewayConfig
  import opened EvaluationOrder
  import opened MetricStore
  import opened ComputedRun
  import opened PipelinesCache
  import opened Consumer

  /** The sensor has a metric or a raw sample. */
  ghost predicate HasValue(m: Contents, id: string) {
    id in m && (m[id].metric.Some? || m[id].raw.Some?)
  }

  /** `v` is the value of the sensor's metric, or of its raw sample if it has no metric. */
  ghost predicate ValueIs(m: Contents, id: string, v: real) {
    && id in m
    && (m[id].metric.Some? || m[id].raw.Some?)
    && v == if m[id].metric.Some? then m[id].metric.value.value else m[id].raw.value.rawValue
  }

  /** `b` binds each variable of the sensor to the value of its input. */
  ghost predicate BindsInputs(c: ComputedConfig, m: Contents, b: map<string, real>) {
    b.Keys == c.inputs.Keys && forall v :: v in c.inputs ==> ValueIs(m, c.inputs[v], b[v])
  }

  /** The expression can be evaluated: every input has a value and the variables suffice. */
  ghost predicate Computable(lib: Meval, c: ComputedConfig, m: Contents) {
    (forall v :: v in c.inputs ==> HasValue(m, c.inputs[v])) && lib.binds(c.expression, c.inputs.Keys)
  }

  /** The entry of the sensor is its expression over the values of its inputs, with its unit and
      without a raw sample. */
  ghost predicate HoldsExpression(lib: Meval, c: ComputedConfig, m: Contents) {
    exists b :: && BindsInputs(c, m, b)
                && c.sensorId in m && m[c.sensorId].raw.None? && m[c.sensorId].metric.Some?
                && var k := m[c.sensorId].metric.value;
                   && k.sensorId == c.sensorId && k.value == lib.value(c.expression, b)
                   && k.unit == c.unit && k.status == Normal
  }

  lemma {:induction false} EvaluateIff(lib: Meval, c: ComputedConfig, m: Contents)
    ensures Evaluate(lib, c, m).Some? <==> Computable(lib, c, m)
  {
    forall v | v in c.inputs ensures ValueOf(m, c.inputs[v]).Some? <==> HasValue(m, c.inputs[v]) {
    }
  }

  lemma {:induction false} EvaluatedHolds(lib: Meval, c: ComputedConfig, m: Contents)
    requires Evaluate(lib, c, m).Some? && Get(m, c.sensorId) == Some(SensorState(None, Evaluate(lib, c, m)))
    ensures HoldsExpression(lib, c, m)
  {
    var b := InputValues(c, m).value;
    forall v | v in c.inputs ensures ValueIs(m, c.inputs[v], b[v]) {
      assert ValueOf(m, c.inputs[v]) == Some(b[v]);
    }
    assert BindsInputs(c, m, b);
  }

  /** Evaluating one sensor yields a metric exactly when its expression can be evaluated. */
  lemma {:induction false} EvaluateMeans(lib: Meval, c: ComputedConfig, m: Contents, b: map<string, real>)
    requires BindsInputs(c, m, b)
    ensures Evaluate(lib, c, m) ==
            if lib.binds(c.expression, c.inputs.Keys)
            then Some(Metric(c.sensorId, lib.value(c.expression, b), c.unit, Normal)) else None
  {
    forall v | v in c.inputs ensures ValueOf(m, c.inputs[v]) == Some(b[v]) {
      assert ValueIs(m, c.inputs[v], b[v]);
    }
    assert InputValues(c, m).Some? && InputValues(c, m).value == b;
  }

  /** In a settled store a computed sensor holds its expression over the final values of its inputs
      if that can be evaluated, and what it held before otherwise. */
  lemma {:induction false} SettledMeans(
    lib: Meval, computed: seq<ComputedConfig>, before: Contents, after: Contents, c: ComputedConfig)
    requires Settled(lib, computed, before, after) && c in computed
    ensures Computable(lib, c, after) ==> HoldsExpression(lib, c, after)
    ensures !Computable(lib, c, after) ==> Get(after, c.sensorId) == Get(before, c.sensorId)
  {
    EvaluateIff(lib, c, after);
    assert Get(after, c.sensorId) == Entry(lib, c, after, Get(before, c.sensorId));
    if Computable(lib, c, after) {
      EvaluatedHolds(lib, c, after);
    }
  }

  /** After any batches a computed sensor holds its expression over the final values of its inputs if
      that can be evaluated, and nothing otherwise. */
  lemma {:induction false} BatchesMean(
    lib: Meval, chains: Chains, order: seq<ComputedConfig>, v: View, batches: seq<seq<RawSample>>, c: ComputedConfig)
    requires ChainsValid(lib, chains) && DependencyOrder(order) && c in order && v.store == map[]
    requires (forall b :: b in batches ==> BatchOk(order, b)) && batches != []
    ensures var store := Batches(lib, chains, order, v, batches).store;
            if Computable(lib, c, store) then HoldsExpression(lib, c, store) else c.sensorId !in store
  {
    var store := Batches(lib, chains, order, v, batches).store;
    BatchesSettle(lib, chains, order, v, batches, c);
    EvaluateIff(lib, c, store);
    if Computable(lib, c, store) {
      EvaluatedHolds(lib, c, store);
    }
  }
}
