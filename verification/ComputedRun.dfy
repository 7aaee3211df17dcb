/** One pass over the computed sensors, in dependency order, over a mutable store: it settles
    the store, and the settled store is the only one. */
module ComputedRun {
  import opened Common
  import opened GatewayConfig
  import opened DependencyGraph
  import opened EvaluationOrder
  import opened MetricStore

  /** The values of a sensor's inputs, if all have one. */
  function InputValues(c: ComputedConfig, m: Contents): Option<map<string, real>> {
    if forall v :: v in c.inputs ==> ValueOf(m, c.inputs[v]).Some?
    then Some(map v | v in c.inputs :: ValueOf(m, c.inputs[v]).value)
    else None
  }

  /** The metric of a computed sensor over a store: none while an input has no value. */
  function Evaluate(lib: Meval, c: ComputedConfig, m: Contents): Option<Metric> {
    match InputValues(c, m)
    case None => None
    case Some(values) =>
      if lib.binds(c.expression, c.inputs.Keys)
      then Some(Metric(c.sensorId, lib.value(c.expression, values), c.unit, Normal))
      else None
  }

  /** The entry of a computed sensor after it was evaluated: its new metric, or what it was. */
  function Entry(lib: Meval, c: ComputedConfig, m: Contents, previous: Option<SensorState>): Option<SensorState> {
    match Evaluate(lib, c, m)
    case Some(metric) => Some(SensorState(None, Some(metric)))
    case None => previous
  }

  function RunOne(lib: Meval, c: ComputedConfig, m: Contents): Contents {
    match Evaluate(lib, c, m)
    case Some(metric) => m[c.sensorId := SensorState(None, Some(metric))]
    case None => m
  }

  function RunAll(lib: Meval, order: seq<ComputedConfig>, m: Contents): Contents {
    if order == [] then m
    else RunOne(lib, order[|order| - 1], RunAll(lib, order[..|order| - 1], m))
  }

  /** `after` is settled: every computed sensor whose inputs all have values holds its expression
      over those values, and everything else is as before. */
  ghost predicate Settled(lib: Meval, computed: seq<ComputedConfig>, before: Contents, after: Contents) {
    && (forall c :: c in computed ==> Get(after, c.sensorId) == Entry(lib, c, after, Get(before, c.sensorId)))
    && (forall id :: id !in ComputedIds(computed) ==> Get(after, id) == Get(before, id))
  }

  /** Evaluating one sensor: the inputs in any order, giving up at the first without a value. */
  method Eval(lib: Meval, c: ComputedConfig, store: Store) returns (r: Option<Metric>)
    ensures r == Evaluate(lib, c, store.inner)
  {
    var values: map<string, real> := map[];
    var vars := c.inputs.Keys;
    while vars != {}
      invariant vars <= c.inputs.Keys && values.Keys == c.inputs.Keys - vars
      invariant forall v :: v in values ==> ValueOf(store.inner, c.inputs[v]) == Some(values[v])
      decreases vars
    {
      var v :| v in vars;
      vars := vars - {v};
      var x := ValueOf(store.inner, c.inputs[v]);
      if x.None? {
        return None;
      }
      values := values[v := x.value];
    }
    assert values.Keys == c.inputs.Keys;
    ghost var expected := InputValues(c, store.inner);
    assert expected.Some? && expected.value.Keys == values.Keys;
    assert forall v :: v in values ==> expected.value[v] == values[v];
    assert expected.value == values;
    if !lib.binds(c.expression, values.Keys) {
      return None;
    }
    return Some(Metric(c.sensorId, lib.value(c.expression, values), c.unit, Normal));
  }

  method Run(lib: Meval, order: seq<ComputedConfig>, store: Store)
    modifies store
    ensures store.inner == RunAll(lib, order, old(store.inner))
  {
    for i := 0 to |order|
      invariant store.inner == RunAll(lib, order[..i], old(store.inner))
    {
      assert order[..i + 1][..i] == order[..i];
      var metric := Eval(lib, order[i], store);
      if metric.Some? {
        store.UpdateMetric(None, metric.value);
      }
    }
    assert order[..|order|] == order;
  }

  // ----- The run settles the store -----

  lemma {:induction false} EvaluateFrame(lib: Meval, c: ComputedConfig, m: Contents, n: Contents)
    requires forall v :: v in c.inputs ==> Get(m, c.inputs[v]) == Get(n, c.inputs[v])
    ensures Evaluate(lib, c, m) == Evaluate(lib, c, n)
  {
    forall v | v in c.inputs ensures ValueOf(m, c.inputs[v]) == ValueOf(n, c.inputs[v]) {
    }
    if InputValues(c, m).Some? {
      assert InputValues(c, m).value == InputValues(c, n).value;
    }
  }

  lemma {:induction false} OrderPrefix(order: seq<ComputedConfig>, n: nat)
    requires DependencyOrder(order) && n <= |order|
    ensures DependencyOrder(order[..n])
  {
    var front := order[..n];
    assert ComputedIds(front) == ComputedIds(order)[..n];
    forall i, v | 0 <= i < |front| && v in front[i].inputs
      ensures front[i].inputs[v] !in ComputedIds(front)[i..]
    {
      assert forall k :: i <= k < n ==> ComputedIds(order)[k] in ComputedIds(order)[i..];
    }
  }

  /** No sensor of a dependency order takes the last one as an input. */
  lemma {:induction false} LastIsNoInput(order: seq<ComputedConfig>, c: ComputedConfig, v: string)
    requires DependencyOrder(order) && order != [] && c in order && v in c.inputs
    ensures c.inputs[v] != order[|order| - 1].sensorId
  {
    var i :| 0 <= i < |order| && order[i] == c;
    assert ComputedIds(order)[|order| - 1] in ComputedIds(order)[i..];
  }

  lemma {:induction false} RunSettles(lib: Meval, order: seq<ComputedConfig>, m: Contents)
    requires DependencyOrder(order)
    ensures Settled(lib, order, m, RunAll(lib, order, m))
  {
    if order != [] {
      var front, last := order[..|order| - 1], order[|order| - 1];
      OrderPrefix(order, |order| - 1);
      RunSettles(lib, front, m);
      var mid, after := RunAll(lib, front, m), RunAll(lib, order, m);
      assert ComputedIds(order) == ComputedIds(front) + [last.sensorId];
      forall c | c in order ensures Evaluate(lib, c, after) == Evaluate(lib, c, mid) {
        forall v | v in c.inputs ensures Get(mid, c.inputs[v]) == Get(after, c.inputs[v]) {
          LastIsNoInput(order, c, v);
        }
        EvaluateFrame(lib, c, mid, after);
      }
      DistinctAppend(ComputedIds(front), last.sensorId);
      assert last.sensorId !in ComputedIds(front);
      forall c | c in order ensures Get(after, c.sensorId) == Entry(lib, c, after, Get(m, c.sensorId)) {
        if c in front {
          var k :| 0 <= k < |front| && front[k] == c;
          assert ComputedIds(front)[k] == c.sensorId;
        }
      }
    }
  }

  ghost predicate SameEntries(order: seq<ComputedConfig>, n: nat, a: Contents, b: Contents)
    requires n <= |order|
  {
    forall i :: 0 <= i < n ==> Get(a, order[i].sensorId) == Get(b, order[i].sensorId)
  }

  lemma {:induction false} SameInputs(
    order: seq<ComputedConfig>, a: Contents, b: Contents, n: nat, v: string)
    requires DependencyOrder(order) && n < |order| && v in order[n].inputs
    requires SameEntries(order, n, a, b)
    requires forall id :: id !in ComputedIds(order) ==> Get(a, id) == Get(b, id)
    ensures Get(a, order[n].inputs[v]) == Get(b, order[n].inputs[v])
  {
    InputIsEarlier(order, n, v);
  }

  lemma {:induction false} SameEntry(
    lib: Meval, order: seq<ComputedConfig>, m: Contents, a: Contents, b: Contents, n: nat)
    requires DependencyOrder(order) && n < |order|
    requires Settled(lib, order, m, a) && Settled(lib, order, m, b)
    requires SameEntries(order, n, a, b)
    ensures Get(a, order[n].sensorId) == Get(b, order[n].sensorId)
  {
    var c := order[n];
    forall v | v in c.inputs ensures Get(a, c.inputs[v]) == Get(b, c.inputs[v]) {
      SameInputs(order, a, b, n, v);
    }
    EvaluateFrame(lib, c, a, b);
    assert c in order;
  }

  lemma {:induction false} EntryIsUnique(
    lib: Meval, order: seq<ComputedConfig>, m: Contents, a: Contents, b: Contents, n: nat)
    requires DependencyOrder(order) && n < |order|
    requires Settled(lib, order, m, a) && Settled(lib, order, m, b)
    ensures Get(a, order[n].sensorId) == Get(b, order[n].sensorId)
    decreases n
  {
    assert SameEntries(order, n, a, b) by {
      forall i | 0 <= i < n ensures Get(a, order[i].sensorId) == Get(b, order[i].sensorId) {
        EntryIsUnique(lib, order, m, a, b, i);
      }
    }
    SameEntry(lib, order, m, a, b, n);
  }

  /** An input of sensor `i` of the order is not computed, or is an earlier one. */
  lemma {:induction false} InputIsEarlier(order: seq<ComputedConfig>, i: nat, v: string)
    requires DependencyOrder(order) && i < |order| && v in order[i].inputs
    ensures || order[i].inputs[v] !in ComputedIds(order)
            || exists k :: 0 <= k < i && order[k].sensorId == order[i].inputs[v]
  {
    var src := order[i].inputs[v];
    if src in ComputedIds(order) {
      var ids := ComputedIds(order);
      var k :| 0 <= k < |order| && ids[k] == src;
      assert forall j :: i <= j < |ids| ==> ids[j] in ids[i..];
      assert order[k].sensorId == src;
    }
  }

  /** There is only one way to settle a store. */
  lemma {:induction false} SettledIsUnique(
    lib: Meval, order: seq<ComputedConfig>, m: Contents, a: Contents, b: Contents)
    requires DependencyOrder(order)
    requires Settled(lib, order, m, a) && Settled(lib, order, m, b)
    ensures a == b
  {
    forall id ensures Get(a, id) == Get(b, id) {
      if id in ComputedIds(order) {
        var k :| 0 <= k < |order| && ComputedIds(order)[k] == id;
        EntryIsUnique(lib, order, m, a, b, k);
      }
    }
    assert forall id :: id in a <==> Get(a, id).Some?;
    assert forall id :: id in b <==> Get(b, id).Some?;
    assert a.Keys == b.Keys;
    assert forall id :: id in a ==> Get(a, id) == Some(a[id]) && Get(b, id) == Some(b[id]);
  }

  lemma {:induction false} SettledPermuted(
    lib: Meval, p: seq<ComputedConfig>, q: seq<ComputedConfig>, m: Contents, after: Contents)
    requires multiset(p) == multiset(q) && Settled(lib, p, m, after)
    ensures Settled(lib, q, m, after)
  {
    forall c ensures c in p <==> c in q {
      assert c in multiset(p) <==> c in multiset(q);
    }
    forall id | id in ComputedIds(p) ensures id in ComputedIds(q) {
      var k :| 0 <= k < |p| && ComputedIds(p)[k] == id;
      assert p[k] in q;
      var j :| 0 <= j < |q| && q[j] == p[k];
      assert ComputedIds(q)[j] == id;
    }
  }

  /** Whatever dependency order the search finds, and in whatever order the configuration lists
      the sensors, the store after the run is the same. */
  lemma {:induction false} RunIsOrderIndependent(
    lib: Meval, p: seq<ComputedConfig>, q: seq<ComputedConfig>, m: Contents)
    requires DependencyOrder(p) && DependencyOrder(q) && multiset(p) == multiset(q)
    ensures RunAll(lib, p, m) == RunAll(lib, q, m)
  {
    RunSettles(lib, p, m);
    RunSettles(lib, q, m);
    SettledPermuted(lib, q, p, m, RunAll(lib, q, m));
    SettledIsUnique(lib, p, m, RunAll(lib, p, m), RunAll(lib, q, m));
  }

  /** A second run changes nothing. */
  lemma {:induction false} RunIsIdempotent(lib: Meval, order: seq<ComputedConfig>, m: Contents)
    requires DependencyOrder(order)
    ensures RunAll(lib, order, RunAll(lib, order, m)) == RunAll(lib, order, m)
  {
    var once := RunAll(lib, order, m);
    RunSettles(lib, order, m);
    RunSettles(lib, order, once);
    assert Settled(lib, order, once, once);
    SettledIsUnique(lib, order, once, RunAll(lib, order, once), once);
  }
}
