/** The simulator's evaluation engine: recursive evaluation with a memo table and a stack of
    sensors under evaluation that failing calls leave behind.  One pass over all sensors reads
    out exactly the least solution of the sensors' equations. */
module SimEngine {
  import opened Common
  import opened Fixpoint
  import opened SimModel

  // ----- Facts about references -----

  /** A formula has a binding only if every name that matters has a value. */
  lemma {:induction false} BindingsNeedEachName(
    cfg: SimConfig, env: Env, vals: Valuation, s: SimSensor, names: seq<string>, name: string)
    requires name in names && Bindings(cfg, env, vals, s, names).Some?
    ensures ResolveName(cfg, s, name) == Ignored || RefValue(cfg, env, vals, ResolveName(cfg, s, name)).Some?
  {
    var last := |names| - 1;
    if names[last] != name {
      assert name in names[..last];
      BindingsNeedEachName(cfg, env, vals, s, names[..last], name);
    }
  }

  /** Sensor `id` refers to sensor `dep` in its formula. */
  ghost predicate Refers(cfg: SimConfig, lib: Meval, id: string, dep: string) {
    var s := FindSensor(IterSensors(cfg), id);
    s.Some? && exists name :: name in lib.refs(s.value.formula) && ResolveName(cfg, s.value, name) == SensorRef(dep)
  }

  ghost function SensorRank(cfg: SimConfig, env: Env, id: string): nat
    requires id in Meaning(cfg, env)
  {
    Rank(Rounds(cfg, env), SensorIds(cfg), id)
  }

  /** A formula has a value only if every sensor it refers to has one. */
  lemma {:induction false} EquationNeedsDependency(cfg: SimConfig, env: Env, vals: Valuation, id: string, dep: string)
    requires Refers(cfg, env.lib, id, dep) && Equation(cfg, env, vals, id).Some?
    ensures dep in vals
  {
    var s := FindSensor(IterSensors(cfg), id).value;
    var name :| name in env.lib.refs(s.formula) && ResolveName(cfg, s, name) == SensorRef(dep);
    BindingsNeedEachName(cfg, env, vals, s, env.lib.refs(s.formula), name);
  }

  lemma {:induction false} RoundBefore(cfg: SimConfig, env: Env, id: string, r: nat)
    requires r > 0 && id in Iterate(Rounds(cfg, env), r)
    ensures Equation(cfg, env, Iterate(Rounds(cfg, env), r - 1), id).Some?
  {
    assert id in EvalRound(cfg, env, Iterate(Rounds(cfg, env), r - 1));
  }

  /** A sensor with a value gets it in a later round than every sensor it refers to. */
  lemma {:induction false} DependencyRanksLower(cfg: SimConfig, env: Env, id: string, dep: string)
    requires Refers(cfg, env.lib, id, dep) && id in Meaning(cfg, env)
    ensures dep in Meaning(cfg, env) && SensorRank(cfg, env, dep) < SensorRank(cfg, env, id)
  {
    var r := SensorRank(cfg, env, id);
    RoundBefore(cfg, env, id, r);
    EquationNeedsDependency(cfg, env, Iterate(Rounds(cfg, env), r - 1), id, dep);
    RoundsMonotone(cfg, env);
    RankIsFirst(Rounds(cfg, env), SensorIds(cfg), dep, r - 1);
  }

  // ----- Ranked solutions -----

  type Ranking = map<string, nat>

  ghost predicate Solved(cfg: SimConfig, env: Env, m: Valuation, id: string) {
    Equation(cfg, env, m, id) == if id in m then Some(m[id]) else None
  }

  ghost predicate RanksLower(m: Valuation, rank: Ranking, id: string, dep: string)
    requires rank.Keys == m.Keys
  {
    id in m ==> dep in m && rank[dep] < rank[id]
  }

  /** `m` solves the equations, and `rank` orders the sensors with a value by dependency. */
  ghost predicate RankedSolution(cfg: SimConfig, env: Env, m: Valuation, rank: Ranking) {
    && rank.Keys == m.Keys
    && (forall id :: Solved(cfg, env, m, id))
    && (forall id, dep :: Refers(cfg, env.lib, id, dep) ==> RanksLower(m, rank, id, dep))
  }

  lemma {:induction false} MeaningIsRanked(cfg: SimConfig, env: Env) returns (rank: Ranking)
    ensures RankedSolution(cfg, env, Meaning(cfg, env), rank)
  {
    var m := Meaning(cfg, env);
    rank := map id | id in m :: SensorRank(cfg, env, id);
    forall id ensures Solved(cfg, env, m, id) {
      MeaningSolves(cfg, env, id);
    }
    forall id, dep | Refers(cfg, env.lib, id, dep) ensures RanksLower(m, rank, id, dep) {
      if id in m {
        DependencyRanksLower(cfg, env, id, dep);
      }
    }
  }

  // ----- Which sensors have a value -----

  ghost predicate IsChain(cfg: SimConfig, lib: Meval, p: seq<string>) {
    |p| <= 1 || (Refers(cfg, lib, p[0], p[1]) && IsChain(cfg, lib, p[1..]))
  }

  lemma {:induction false} ChainRanks(cfg: SimConfig, env: Env, m: Valuation, rank: Ranking, p: seq<string>)
    requires RankedSolution(cfg, env, m, rank)
    requires |p| >= 1 && IsChain(cfg, env.lib, p) && p[0] in m
    ensures p[|p| - 1] in m && rank[p[|p| - 1]] + |p| - 1 <= rank[p[0]]
  {
    if |p| > 1 {
      assert RanksLower(m, rank, p[0], p[1]);
      ChainRanks(cfg, env, m, rank, p[1..]);
    }
  }

  /** All sensors that `id` refers to have values, and its own formula still has none: it does not
      bind, its result is not finite, or it has an input that stands for nothing. */
  ghost predicate FailsItself(cfg: SimConfig, env: Env, m: Valuation, id: string) {
    Equation(cfg, env, m, id).None? && forall dep :: Refers(cfg, env.lib, id, dep) ==> dep in m
  }

  /** `path` leads from `id` to a sensor that fails by itself, or onto the dependency cycle. */
  ghost predicate FailsBy(cfg: SimConfig, env: Env, m: Valuation, id: string, path: seq<string>, cycle: seq<string>) {
    && |path| >= 1 && path[0] == id && IsChain(cfg, env.lib, path)
    && if cycle == [] then FailsItself(cfg, env, m, path[|path| - 1])
       else |cycle| >= 2 && IsChain(cfg, env.lib, cycle) && path[|path| - 1] == cycle[0] == cycle[|cycle| - 1]
  }

  lemma {:induction false} ChainAppend(cfg: SimConfig, lib: Meval, p: seq<string>, x: string)
    requires |p| >= 1 && IsChain(cfg, lib, p) && Refers(cfg, lib, p[|p| - 1], x)
    ensures IsChain(cfg, lib, p + [x])
  {
    var q := p + [x];
    if |p| > 1 {
      ChainAppend(cfg, lib, p[1..], x);
      assert q[1..] == p[1..] + [x];
      assert q[0] == p[0] && q[1] == p[1];
    } else {
      assert q[1..] == [x];
    }
  }

  lemma {:induction false} ChainSuffix(cfg: SimConfig, lib: Meval, p: seq<string>, i: nat)
    requires IsChain(cfg, lib, p) && i < |p|
    ensures IsChain(cfg, lib, p[i..])
  {
    if i > 0 {
      ChainSuffix(cfg, lib, p[1..], i - 1);
      assert p[1..][i - 1..] == p[i..];
    }
  }

  lemma {:induction false} RefersToSensor(cfg: SimConfig, lib: Meval, id: string, dep: string)
    requires Refers(cfg, lib, id, dep)
    ensures dep in SensorIds(cfg)
  {
    assert FindSensor(IterSensors(cfg), dep).Some?;
  }

  lemma {:induction false} FailsThroughDependency(cfg: SimConfig, env: Env, m: Valuation, id: string)
    returns (dep: string)
    requires Solved(cfg, env, m, id) && id !in m && !FailsItself(cfg, env, m, id)
    ensures Refers(cfg, env.lib, id, dep) && dep !in m && dep in SensorIds(cfg)
  {
    dep :| Refers(cfg, env.lib, id, dep) && dep !in m;
    RefersToSensor(cfg, env.lib, id, dep);
  }

  /** A chain that has come back to `x` ends in a cycle. */
  lemma {:induction false} ChainCloses(cfg: SimConfig, lib: Meval, p: seq<string>, i: nat) returns (cycle: seq<string>)
    requires IsChain(cfg, lib, p) && i < |p| - 1 && p[i] == p[|p| - 1]
    ensures |cycle| >= 2 && IsChain(cfg, lib, cycle) && p[|p| - 1] == cycle[0] == cycle[|cycle| - 1]
  {
    cycle := p[i..];
    ChainSuffix(cfg, lib, p, i);
  }

  /** Following sensors without values from one to the next ends at a failure or closes a cycle. */
  lemma {:induction false} FollowFailures(
    cfg: SimConfig, env: Env, m: Valuation, rank: Ranking, start: string, rest: seq<string>)
    returns (path: seq<string>, cycle: seq<string>)
    requires RankedSolution(cfg, env, m, rank)
    requires IsChain(cfg, env.lib, [start] + rest) && Distinct(rest)
    requires forall x :: x in rest ==> x in SensorIds(cfg)
    requires ([start] + rest)[|rest|] !in m
    ensures FailsBy(cfg, env, m, start, path, cycle)
    decreases |SensorIds(cfg)| - |rest|
  {
    var p := [start] + rest;
    var last := p[|rest|];
    DistinctBound(rest, SensorIds(cfg));
    assert Solved(cfg, env, m, last);
    if FailsItself(cfg, env, m, last) {
      path, cycle := p, [];
    } else {
      var dep := FailsThroughDependency(cfg, env, m, last);
      ChainAppend(cfg, env.lib, p, dep);
      assert p + [dep] == [start] + (rest + [dep]);
      if dep in rest {
        var i :| 0 <= i < |rest| && rest[i] == dep;
        path := p + [dep];
        cycle := ChainCloses(cfg, env.lib, path, i + 1);
      } else {
        DistinctAppend(rest, dep);
        DistinctBound(rest + [dep], SensorIds(cfg));
        path, cycle := FollowFailures(cfg, env, m, rank, start, rest + [dep]);
      }
    }
  }

  lemma {:induction false} FailingHasNoValue(cfg: SimConfig, env: Env, m: Valuation, rank: Ranking, id: string)
    requires RankedSolution(cfg, env, m, rank) && FailsItself(cfg, env, m, id)
    ensures id !in m
  {
    assert Solved(cfg, env, m, id);
  }

  lemma {:induction false} NothingFailsBelowValue(
    cfg: SimConfig, env: Env, m: Valuation, rank: Ranking, id: string, path: seq<string>, cycle: seq<string>)
    requires RankedSolution(cfg, env, m, rank) && id in m
    ensures !FailsBy(cfg, env, m, id, path, cycle)
  {
    if FailsBy(cfg, env, m, id, path, cycle) {
      if cycle == [] {
        FailingHasNoValue(cfg, env, m, rank, path[|path| - 1]);
        ChainRanks(cfg, env, m, rank, path);
      } else {
        ChainRanks(cfg, env, m, rank, path);
        ChainRanks(cfg, env, m, rank, cycle);
      }
    }
  }

  /** A sensor has a value exactly when no cycle and no failing sensor is among what it depends
      on. */
  lemma {:induction false} ValueIffNothingFails(cfg: SimConfig, env: Env, id: string)
    ensures id in Meaning(cfg, env) <==> !exists path, cycle :: FailsBy(cfg, env, Meaning(cfg, env), id, path, cycle)
  {
    var rank := MeaningIsRanked(cfg, env);
    if id in Meaning(cfg, env) {
      forall path, cycle ensures !FailsBy(cfg, env, Meaning(cfg, env), id, path, cycle) {
        NothingFailsBelowValue(cfg, env, Meaning(cfg, env), rank, id, path, cycle);
      }
    } else {
      assert [id] + [] == [id];
      var path, cycle := FollowFailures(cfg, env, Meaning(cfg, env), rank, id, []);
    }
  }

  // ----- The evaluation pass -----

  /** The table of values computed so far and the sensors entered but not left in a pass. */
  class EvalPass {
    var memo: Valuation
    var visiting: seq<string>

    constructor ()
      ensures memo == map[] && visiting == []
    {
      memo, visiting := map[], [];
    }
  }

  /** Memoised values are right, and `visiting` lists distinct sensors. */
  ghost predicate PassOk(cfg: SimConfig, m: Valuation, memo: Valuation, visiting: seq<string>) {
    && Below(memo, m)
    && Distinct(visiting)
    && (forall a :: a in visiting ==> a in SensorIds(cfg))
  }

  /** Each entry of `visiting` either has no value (left behind by an earlier failure, or
      bound to fail) or waits for `id`, which then has a value of a lower rank. */
  ghost predicate WaitsFor(m: Valuation, rank: Ranking, visiting: seq<string>, id: string)
    requires rank.Keys == m.Keys
  {
    forall a :: a in visiting && a in m ==> id in m && rank[id] < rank[a]
  }

  /** The stack after a call: on success as it was, on failure grown and holding only sensors
      without a value. */
  ghost predicate StackAfter(m: Valuation, ok: bool, before: seq<string>, after: seq<string>) {
    if ok then after == before
    else before <= after && forall a :: a in after ==> a !in m
  }

  lemma {:induction false} WaitsForDependency(cfg: SimConfig, env: Env, m: Valuation, rank: Ranking,
                           visiting: seq<string>, id: string, s: SimSensor, name: string)
    requires RankedSolution(cfg, env, m, rank) && WaitsFor(m, rank, visiting, id)
    requires FindSensor(IterSensors(cfg), id) == Some(s) && name in env.lib.refs(s.formula)
    requires ResolveName(cfg, s, name).SensorRef?
    ensures WaitsFor(m, rank, visiting + [id], ResolveName(cfg, s, name).id)
  {
    var dep := ResolveName(cfg, s, name).id;
    assert Refers(cfg, env.lib, id, dep);
    assert RanksLower(m, rank, id, dep);
  }

  lemma {:induction false} BindingsSnoc(
    cfg: SimConfig, env: Env, vals: Valuation, s: SimSensor, names: seq<string>, i: nat)
    requires i < |names| && Bindings(cfg, env, vals, s, names[..i]).Some?
    ensures Bindings(cfg, env, vals, s, names[..i + 1]) ==
            var b, r := Bindings(cfg, env, vals, s, names[..i]).value, ResolveName(cfg, s, names[i]);
            if r == Ignored then Some(b)
            else if RefValue(cfg, env, vals, r).None? then None
            else Some(if names[i] in b then b else b[names[i] := RefValue(cfg, env, vals, r).value])
  {
    assert names[..i + 1][..i] == names[..i];
  }

  lemma {:induction false} FailedName(
    cfg: SimConfig, env: Env, vals: Valuation, s: SimSensor, names: seq<string>, name: string)
    requires name in names && ResolveName(cfg, s, name) != Ignored
    requires RefValue(cfg, env, vals, ResolveName(cfg, s, name)).None?
    ensures Bindings(cfg, env, vals, s, names).None?
  {
    if Bindings(cfg, env, vals, s, names).Some? {
      BindingsNeedEachName(cfg, env, vals, s, names, name);
    }
  }

  /** The list of (id, value) pairs of the sensors that have a value, in sensor order. */
  function Readout(sensors: seq<SimSensor>, vals: Valuation): seq<(string, real)> {
    if sensors == [] then []
    else
      var front, id := Readout(sensors[..|sensors| - 1], vals), sensors[|sensors| - 1].sensorId;
      if id in vals then front + [(id, vals[id])] else front
  }

  lemma {:induction false} ReadoutSnoc(sensors: seq<SimSensor>, vals: Valuation, i: nat)
    requires i < |sensors|
    ensures var id, before := sensors[i].sensorId, Readout(sensors[..i], vals);
            Readout(sensors[..i + 1], vals) == if id in vals then before + [(id, vals[id])] else before
  {
    assert sensors[..i + 1][..i] == sensors[..i];
  }

  class SimEngine {
    const sim: SimConfig
    const lib: Meval
    const exprs: map<string, string>
    var controls: map<string, real>

    ghost predicate Valid() {
      exprs == Exprs(lib, IterSensors(sim))
    }

    ghost function At(t: real): Env
      reads this
    {
      Env(lib, controls, t)
    }

    constructor (sim: SimConfig, lib: Meval)
      ensures Valid() && this.sim == sim && this.lib == lib
      ensures forall name :: FindControl(sim.controls, name).Some? ==> name in controls
      ensures forall i :: 0 <= i < |sim.controls|
                          && (forall j :: i < j < |sim.controls| ==> sim.controls[j].name != sim.controls[i].name)
                ==> sim.controls[i].name in controls && controls[sim.controls[i].name] == sim.controls[i].initial
    {
      this.sim, this.lib := sim, lib;
      exprs := Exprs(lib, IterSensors(sim));
      controls := map[];
      new;
      for k := 0 to |sim.controls|
        invariant forall i :: 0 <= i < k ==> sim.controls[i].name in controls
        invariant forall i :: 0 <= i < k && (forall j :: i < j < k ==> sim.controls[j].name != sim.controls[i].name)
                    ==> controls[sim.controls[i].name] == sim.controls[i].initial
      {
        controls := controls[sim.controls[k].name := sim.controls[k].initial];
      }
    }

    /** Sets a control; only configured, writable ones can be set. */
    method SetControl(name: string, value: real) returns (r: Result<(), string>)
      modifies this`controls
      ensures r.Ok? <==> FindControl(sim.controls, name).Some? && FindControl(sim.controls, name).value.writable
      ensures controls == if r.Ok? then old(controls)[name := value] else old(controls)
    {
      var c := FindControl(sim.controls, name);
      if c.None? {
        return Err("unknown control");
      }
      if !c.value.writable {
        return Err("control is read-only");
      }
      controls := controls[name := value];
      return Ok(());
    }

    /** Evaluates one sensor, evaluating the sensors it refers to first.  `m` and `rank` are a
        ranked solution of the equations; the result is the value `m` has for the sensor. */
    method Eval(id: string, t: real, pass: EvalPass, ghost m: Valuation, ghost rank: Ranking)
      returns (r: Option<real>)
      requires Valid() && RankedSolution(sim, At(t), m, rank)
      requires PassOk(sim, m, pass.memo, pass.visiting) && WaitsFor(m, rank, pass.visiting, id)
      modifies pass
      ensures PassOk(sim, m, pass.memo, pass.visiting)
      ensures r == if id in m then Some(m[id]) else None
      ensures StackAfter(m, r.Some?, old(pass.visiting), pass.visiting)
      decreases |SensorIds(sim)| - |pass.visiting|, 1
    {
      ghost var before := pass.visiting;
      assert Solved(sim, At(t), m, id);
      if id in pass.memo {
        return Some(pass.memo[id]);
      }
      if id in pass.visiting {
        return None;
      }
      var sensor := FindSensor(IterSensors(sim), id);
      if sensor.None? || id !in exprs {
        assert Equation(sim, At(t), m, id).None?;
        return None;
      }
      assert id in SensorIds(sim);
      DistinctAppend(before, id);
      DistinctBound(before + [id], SensorIds(sim));
      pass.visiting := pass.visiting + [id];
      var binding := EvalRefs(id, sensor.value, t, pass, m, rank, before);
      assert Equation(sim, At(t), m, id) ==
             if binding.None? then None else ApplyFormula(lib, exprs[id], binding.value);
      if binding.None? {
        return None;
      }
      pass.visiting := pass.visiting[..|pass.visiting| - 1];
      assert pass.visiting == before;
      r := ApplyFormula(lib, exprs[id], binding.value);
      if r.Some? {
        pass.memo := pass.memo[id := r.value];
      }
    }

    /** The loop over the names of a formula: the values bound so far, or failure at the first
        name without a value, leaving the stack as that failure left it. */
    method EvalRefs(id: string, s: SimSensor, t: real, pass: EvalPass,
                    ghost m: Valuation, ghost rank: Ranking, ghost before: seq<string>)
      returns (r: Option<map<string, real>>)
      requires Valid() && RankedSolution(sim, At(t), m, rank)
      requires FindSensor(IterSensors(sim), id) == Some(s)
      requires pass.visiting == before + [id] && WaitsFor(m, rank, before, id)
      requires PassOk(sim, m, pass.memo, pass.visiting)
      modifies pass
      ensures PassOk(sim, m, pass.memo, pass.visiting)
      ensures r == Bindings(sim, At(t), m, s, lib.refs(s.formula))
      ensures r.Some? ==> pass.visiting == old(pass.visiting)
      ensures r.None? ==> before <= pass.visiting
      ensures r.None? && id !in m ==> forall a :: a in pass.visiting ==> a !in m
      decreases |SensorIds(sim)| - |pass.visiting|, 3
    {
      ghost var env := At(t);
      var names := lib.refs(s.formula);
      var binding: map<string, real> := map[];
      for i := 0 to |names|
        invariant PassOk(sim, m, pass.memo, pass.visiting) && pass.visiting == before + [id]
        invariant Bindings(sim, env, m, s, names[..i]) == Some(binding)
      {
        var name := names[i];
        BindingsSnoc(sim, env, m, s, names, i);
        var ref := ResolveName(sim, s, name);
        if ref != Ignored {
          if ref.SensorRef? {
            WaitsForDependency(sim, env, m, rank, before, id, s, name);
          }
          var v := ValueOf(ref, t, pass, m, rank);
          if v.None? {
            FailedName(sim, env, m, s, names, name);
            return None;
          }
          if name !in binding {
            binding := binding[name := v.value];
          }
        }
      }
      assert names[..|names|] == names;
      return Some(binding);
    }

    /** The value a reference stands for; a sensor is evaluated recursively. */
    method ValueOf(ref: Ref, t: real, pass: EvalPass, ghost m: Valuation, ghost rank: Ranking)
      returns (r: Option<real>)
      requires Valid() && RankedSolution(sim, At(t), m, rank) && ref != Ignored
      requires PassOk(sim, m, pass.memo, pass.visiting)
      requires ref.SensorRef? ==> WaitsFor(m, rank, pass.visiting, ref.id)
      modifies pass
      ensures PassOk(sim, m, pass.memo, pass.visiting)
      ensures r == RefValue(sim, At(t), m, ref)
      ensures ref.SensorRef? ==> StackAfter(m, r.Some?, old(pass.visiting), pass.visiting)
      ensures !ref.SensorRef? ==> pass.visiting == old(pass.visiting)
      decreases |SensorIds(sim)| - |pass.visiting|, 2
    {
      match ref
      case ControlRef(name) =>
        if FindControl(sim.controls, name).None? {
          return None;
        }
        r := Some(ControlValue(sim, controls, name));
      case TimeRef =>
        r := Some(t);
      case SensorRef(id) =>
        r := Eval(id, t, pass, m, rank);
      case Dangling =>
        r := None;
    }

    /** Evaluates every sensor with one shared table and one shared stack. */
    method EvalAll(t: real) returns (all: seq<(string, real)>)
      requires Valid()
      ensures all == Readout(IterSensors(sim), Meaning(sim, At(t)))
    {
      ghost var rank := MeaningIsRanked(sim, At(t));
      all := EvalEach(t, Meaning(sim, At(t)), rank);
    }

    method EvalEach(t: real, ghost m: Valuation, ghost rank: Ranking) returns (all: seq<(string, real)>)
      requires Valid() && RankedSolution(sim, At(t), m, rank)
      ensures all == Readout(IterSensors(sim), m)
    {
      var pass := new EvalPass();
      var sensors := IterSensors(sim);
      all := [];
      for i := 0 to |sensors|
        invariant PassOk(sim, m, pass.memo, pass.visiting)
        invariant forall a :: a in pass.visiting ==> a !in m
        invariant all == Readout(sensors[..i], m)
      {
        ReadoutSnoc(sensors, m, i);
        var v := Eval(sensors[i].sensorId, t, pass, m, rank);
        if v.Some? {
          all := all + [(sensors[i].sensorId, v.value)];
        }
      }
      assert sensors[..|sensors|] == sensors;
    }
  }
}
