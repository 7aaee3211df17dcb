/** The three-colour depth-first search that rejects cyclic computed sensors. */
module CycleCheck {
  import opened Common
  import opened GatewayConfig
  import opened DependencyGraph

  datatype Colour = Active | Finished

  class CycleSearch {
    const computed: seq<ComputedConfig>
    var state: map<string, Colour>
    /** The finished nodes, in the order in which they were finished. */
    ghost var finished: seq<string>

    constructor (computed: seq<ComputedConfig>)
      ensures this.computed == computed && state == map[] && finished == []
    {
      this.computed, state, finished := computed, map[], [];
    }

    /** The active nodes are those on `path`, a walk; each finished node comes after all nodes it
        refers to. */
    ghost predicate Consistent(path: seq<string>)
      reads this
    {
      && state.Keys <= IdSet(computed)
      && (forall x :: x in state && state[x] == Active <==> x in path)
      && (forall x :: x in state && state[x] == Finished <==> x in finished)
      && IsWalk(computed, path)
      && ReferencesBefore(computed, finished)
    }

    method Visit(id: string, ghost path: seq<string>) returns (r: Result<(), string>)
      requires Consistent(path) && id in IdSet(computed) && IsWalk(computed, path + [id])
      modifies this
      ensures r.Ok? ==> Consistent(path) && id in finished && old(finished) <= finished && old(state).Keys <= state.Keys
      ensures r.Err? ==> HasCycle(computed)
      decreases IdSet(computed) - state.Keys, 1
    {
      if id in state && state[id] == Active {
        WalkCloses(computed, path, id);
        return Err("computed dependency cycle");
      }
      if id in state {
        return Ok(());
      }
      ghost var before := state.Keys;
      state := state[id := Active];
      assert state.Keys == before + {id};
      var c := FindComputed(computed, id);
      if c.Some? {
        r := VisitInputs(id, c.value, path);
        if r.Err? {
          return;
        }
      }
      state := state[id := Finished];
      ReferencesBeforeAppend(computed, finished, id);
      finished := finished + [id];
      return Ok(());
    }

    /** Visits the computed inputs of an active node, in any order. */
    method VisitInputs(id: string, c: ComputedConfig, ghost path: seq<string>) returns (r: Result<(), string>)
      requires Consistent(path + [id]) && FindComputed(computed, id) == Some(c)
      modifies this
      ensures r.Ok? ==> Consistent(path + [id]) && old(finished) <= finished && old(state).Keys <= state.Keys
      ensures r.Ok? ==> forall b :: Edge(computed, id, b) ==> b in finished
      ensures r.Err? ==> HasCycle(computed)
      decreases IdSet(computed) - state.Keys, 3
    {
      var before := state.Keys;
      var vars := c.inputs.Keys;
      while vars != {}
        invariant vars <= c.inputs.Keys
        invariant Consistent(path + [id]) && old(finished) <= finished
        invariant before <= state.Keys
        invariant forall v :: v in c.inputs.Keys - vars && c.inputs[v] in IdSet(computed) ==> c.inputs[v] in finished
        decreases vars
      {
        var v :| v in vars;
        vars := vars - {v};
        r := VisitInput(c.inputs[v], id, path);
        if r.Err? {
          return;
        }
      }
      return Ok(());
    }

    /** Visits one input of the active node `id`, if it is a computed sensor. */
    method VisitInput(src: string, id: string, ghost path: seq<string>) returns (r: Result<(), string>)
      requires Consistent(path + [id])
      requires src in IdSet(computed) ==> Edge(computed, id, src)
      modifies this
      ensures r.Ok? ==> Consistent(path + [id]) && old(finished) <= finished && old(state).Keys <= state.Keys
      ensures r.Ok? && src in IdSet(computed) ==> src in finished
      ensures r.Err? ==> HasCycle(computed)
      decreases IdSet(computed) - state.Keys, 2
    {
      if FindComputed(computed, src).None? {
        return Ok(());
      }
      WalkExtends(computed, path + [id], src);
      r := Visit(src, path + [id]);
    }

    /** Succeeds exactly when no computed sensor depends on itself. */
    method Check() returns (r: Result<(), string>)
      requires state == map[] && finished == []
      modifies this
      ensures r.Ok? <==> !HasCycle(computed)
    {
      for k := 0 to |computed|
        invariant Consistent([])
        invariant forall i :: 0 <= i < k ==> computed[i].sensorId in finished
      {
        r := Visit(computed[k].sensorId, []);
        if r.Err? {
          return;
        }
      }
      OrderExcludesCycle(computed, finished);
      return Ok(());
    }
  }
}
