/** The order in which computed sensors are evaluated: a post-order depth-first search. */
module EvaluationOrder {
  import opened Common
  import opened GatewayConfig
  import opened DependencyGraph

  /** No sensor takes itself or a later one as an input. */
  ghost predicate DependencyOrder(order: seq<ComputedConfig>) {
    && Distinct(ComputedIds(order))
    && forall i, v :: 0 <= i < |order| && v in order[i].inputs ==> order[i].inputs[v] !in ComputedIds(order)[i..]
  }

  class OrderSearch {
    const configs: seq<ComputedConfig>
    var visited: set<string>
    var order: seq<ComputedConfig>

    constructor (configs: seq<ComputedConfig>)
      ensures this.configs == configs && visited == {} && order == []
    {
      this.configs, visited, order := configs, {}, [];
    }

    /** The visited nodes are those on `path`, a walk, and those already ordered; without a cycle
        references come first in the order. */
    ghost predicate Consistent(path: seq<string>)
      reads this
    {
      && visited == Elements(path) + Elements(ComputedIds(order))
      && visited <= IdSet(configs)
      && (forall x :: x in path ==> x !in ComputedIds(order))
      && Distinct(ComputedIds(order))
      && (forall c :: c in order ==> FindComputed(configs, c.sensorId) == Some(c))
      && IsWalk(configs, path)
      && (!HasCycle(configs) ==> ReferencesBefore(configs, ComputedIds(order)))
    }

    method Visit(id: string, ghost path: seq<string>)
      requires Consistent(path) && id in IdSet(configs) && IsWalk(configs, path + [id])
      modifies this
      ensures Consistent(path) && old(visited) + {id} <= visited
      ensures forall x :: x in old(ComputedIds(order)) ==> x in ComputedIds(order)
      ensures !HasCycle(configs) ==> id in ComputedIds(order)
      decreases IdSet(configs) - visited, 1
    {
      if id in visited {
        if id in path {
          WalkCloses(configs, path, id);
        }
        return;
      }
      visited := visited + {id};
      var c := FindComputed(configs, id);
      if c.Some? {
        assert Elements(path + [id]) == Elements(path) + {id};
        VisitInputs(id, c.value, path);
        assert Elements(path + [id]) == Elements(path) + {id};
        assert ComputedIds(order + [c.value]) == ComputedIds(order) + [id];
        assert Elements(ComputedIds(order) + [id]) == Elements(ComputedIds(order)) + {id};
        if !HasCycle(configs) {
          ReferencesBeforeAppend(configs, ComputedIds(order), id);
        }
        DistinctAppend(ComputedIds(order), id);
        order := order + [c.value];
      }
    }

    method VisitInputs(id: string, c: ComputedConfig, ghost path: seq<string>)
      requires Consistent(path + [id]) && FindComputed(configs, id) == Some(c)
      modifies this
      ensures Consistent(path + [id]) && old(visited) <= visited
      ensures forall x :: x in old(ComputedIds(order)) ==> x in ComputedIds(order)
      ensures !HasCycle(configs) ==> forall b :: Edge(configs, id, b) ==> b in ComputedIds(order)
      decreases IdSet(configs) - visited, 2
    {
      var vars := c.inputs.Keys;
      while vars != {}
        invariant vars <= c.inputs.Keys
        invariant Consistent(path + [id]) && old(visited) <= visited
        invariant forall x :: x in old(ComputedIds(order)) ==> x in ComputedIds(order)
        invariant !HasCycle(configs) ==>
                    forall v :: v in c.inputs.Keys - vars && c.inputs[v] in IdSet(configs) ==>
                                  c.inputs[v] in ComputedIds(order)
        decreases vars
      {
        var v :| v in vars;
        vars := vars - {v};
        var src := c.inputs[v];
        if src in IdSet(configs) {
          assert Edge(configs, id, src);
          WalkExtends(configs, path + [id], src);
          Visit(src, path + [id]);
        }
      }
    }
  }

  /** Orders the computed sensors.  Every id occurs exactly once; and the order has all inputs
      before their users exactly when no sensor depends on itself. */
  method Build(configs: seq<ComputedConfig>) returns (order: seq<ComputedConfig>)
    ensures Distinct(ComputedIds(order)) && Elements(ComputedIds(order)) == IdSet(configs)
    ensures forall c :: c in order ==> FindComputed(configs, c.sensorId) == Some(c)
    ensures Distinct(ComputedIds(configs)) ==> multiset(order) == multiset(configs)
    ensures DependencyOrder(order) <==> !HasCycle(configs)
  {
    var search := new OrderSearch(configs);
    for k := 0 to |configs|
      invariant search.Consistent([])
      invariant forall i :: 0 <= i < k ==> configs[i].sensorId in search.visited
    {
      search.Visit(configs[k].sensorId, []);
    }
    order := search.order;
    assert Elements(ComputedIds(order)) == IdSet(configs);
    if Distinct(ComputedIds(configs)) {
      OrderIsPermutation(configs, order);
    }
    if !HasCycle(configs) {
      ReferencesBeforeIsOrder(configs, order);
    }
    if DependencyOrder(order) {
      OrderIsReferencesBefore(configs, order);
      OrderExcludesCycle(configs, ComputedIds(order));
    }
  }

  lemma {:induction false} FindInDistinct(configs: seq<ComputedConfig>, i: nat)
    requires Distinct(ComputedIds(configs)) && i < |configs|
    ensures FindComputed(configs, configs[i].sensorId) == Some(configs[i])
  {
    var c := FindComputed(configs, configs[i].sensorId).value;
    var j :| 0 <= j < |configs| && configs[j] == c;
    assert ComputedIds(configs)[i] == ComputedIds(configs)[j];
  }

  lemma {:induction false} DistinctIdsDistinct(configs: seq<ComputedConfig>)
    requires Distinct(ComputedIds(configs))
    ensures Distinct(configs)
  {
    forall i, j | 0 <= i < j < |configs| ensures configs[i] != configs[j] {
      assert ComputedIds(configs)[i] != ComputedIds(configs)[j];
    }
  }

  lemma {:induction false} OrderIsPermutation(configs: seq<ComputedConfig>, order: seq<ComputedConfig>)
    requires Distinct(ComputedIds(configs)) && Distinct(ComputedIds(order))
    requires Elements(ComputedIds(order)) == IdSet(configs)
    requires forall c :: c in order ==> FindComputed(configs, c.sensorId) == Some(c)
    ensures multiset(order) == multiset(configs)
  {
    DistinctIdsDistinct(configs);
    DistinctIdsDistinct(order);
    forall c | c in configs ensures c in order {
      assert c.sensorId in IdSet(configs);
      assert c.sensorId in Elements(ComputedIds(order));
      var k :| 0 <= k < |order| && ComputedIds(order)[k] == c.sensorId;
      var i :| 0 <= i < |configs| && configs[i] == c;
      FindInDistinct(configs, i);
      assert order[k] in order;
    }
    DistinctPermutation(order, configs);
  }

  lemma {:induction false} ReferencesBeforeIsOrder(configs: seq<ComputedConfig>, order: seq<ComputedConfig>)
    requires Distinct(ComputedIds(order)) && Elements(ComputedIds(order)) == IdSet(configs)
    requires forall c :: c in order ==> FindComputed(configs, c.sensorId) == Some(c)
    requires ReferencesBefore(configs, ComputedIds(order))
    ensures DependencyOrder(order)
  {
    var ids := ComputedIds(order);
    forall i, v | 0 <= i < |order| && v in order[i].inputs ensures order[i].inputs[v] !in ids[i..] {
      var b := order[i].inputs[v];
      if b in ids {
        assert b in Elements(ids);
        assert Edge(configs, ids[i], b);
        assert b in ids[..i];
      } else {
        assert forall k :: i <= k < |ids| ==> ids[k] in ids;
      }
    }
  }

  lemma {:induction false} OrderIsReferencesBefore(configs: seq<ComputedConfig>, order: seq<ComputedConfig>)
    requires DependencyOrder(order) && Elements(ComputedIds(order)) == IdSet(configs)
    requires forall c :: c in order ==> FindComputed(configs, c.sensorId) == Some(c)
    ensures ReferencesBefore(configs, ComputedIds(order))
  {
    var ids := ComputedIds(order);
    forall i, b | 0 <= i < |ids| && Edge(configs, ids[i], b) ensures b in ids[..i] {
      assert order[i] in order;
      var v :| v in order[i].inputs && order[i].inputs[v] == b;
      assert b in Elements(ids) && b !in ids[i..];
      assert ids == ids[..i] + ids[i..];
    }
  }
}
