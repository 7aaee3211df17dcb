/** What the value of a simulated sensor is, in terms of the configuration alone: the value of its
    formula, with each name standing for what the configuration says. */
module FormulaMeaning {
  import opened Common
  import opened Fixpoint
  import opened Placement
  import opened SimModel
  import opened SimRegisters
  import opened SimServer

  /** Control `k` is the first one of its name. */
  ghost predicate FirstControl(cfg: SimConfig, k: nat, name: string) {
    && k < |cfg.controls| && cfg.controls[k].name == name
    && forall j :: 0 <= j < k ==> cfg.controls[j].name != name
  }

  ghost predicate IsControl(cfg: SimConfig, name: string) {
    exists k :: 0 <= k < |cfg.controls| && cfg.controls[k].name == name
  }

  ghost predicate IsSensor(cfg: SimConfig, id: string) {
    exists k :: 0 <= k < |IterSensors(cfg)| && IterSensors(cfg)[k].sensorId == id
  }

  ghost predicate IsShortName(cfg: SimConfig, name: string) {
    exists k :: 0 <= k < |IterSensors(cfg)| && ShortName(IterSensors(cfg)[k].sensorId) == name
  }

  /** The value of a control: the one set, or else the initial one. */
  ghost predicate ControlIs(cfg: SimConfig, env: Env, name: string, v: real) {
    if name in env.controls then v == env.controls[name]
    else exists k: nat :: FirstControl(cfg, k, name) && v == cfg.controls[k].initial
  }

  /** An entry of a sensor's `inputs` names a control, the time or a sensor, in this priority. */
  ghost predicate TargetIs(cfg: SimConfig, env: Env, m: Valuation, target: string, v: real) {
    if IsControl(cfg, target) then ControlIs(cfg, env, target, v)
    else if target == "t" then v == env.t
    else IsSensor(cfg, target) && target in m && v == m[target]
  }

  /** The first sensor with that last segment. */
  ghost predicate ShortNameIs(cfg: SimConfig, m: Valuation, name: string, v: real) {
    exists k :: && 0 <= k < |IterSensors(cfg)| && ShortName(IterSensors(cfg)[k].sensorId) == name
                && (forall j :: 0 <= j < k ==> ShortName(IterSensors(cfg)[j].sensorId) != name)
                && IterSensors(cfg)[k].sensorId in m && v == m[IterSensors(cfg)[k].sensorId]
  }

  /** Names that stand for nothing are left to the expression library. */
  ghost predicate Matters(cfg: SimConfig, s: SimSensor, name: string) {
    name in s.inputs || IsControl(cfg, name) || name == "t" || IsShortName(cfg, name)
  }

  /** What a name of a formula stands for: an entry of `inputs`, a control, the time or a sensor's
      last segment, in this priority. */
  ghost predicate StandsFor(cfg: SimConfig, env: Env, m: Valuation, s: SimSensor, name: string, v: real) {
    if name in s.inputs then TargetIs(cfg, env, m, s.inputs[name], v)
    else if IsControl(cfg, name) then ControlIs(cfg, env, name, v)
    else if name == "t" then v == env.t
    else ShortNameIs(cfg, m, name, v)
  }

  /** `b` binds exactly the names that matter, each to what it stands for. */
  ghost predicate BindsNames(
    cfg: SimConfig, env: Env, m: Valuation, s: SimSensor, names: seq<string>, b: map<string, real>)
  {
    && (forall name :: name in names && Matters(cfg, s, name) ==> name in b && StandsFor(cfg, env, m, s, name, b[name]))
    && (forall name :: name in b ==> name in names && Matters(cfg, s, name))
  }

  // ----- Resolving names -----

  lemma {:induction false} FindControlFirst(cfg: SimConfig, name: string)
    ensures FindControl(cfg.controls, name).Some? <==> IsControl(cfg, name)
    ensures forall k: nat :: FirstControl(cfg, k, name) ==> FindControl(cfg.controls, name) == Some(cfg.controls[k])
    ensures IsControl(cfg, name) ==> exists k: nat :: FirstControl(cfg, k, name)
  {
    FindControlAt(cfg.controls, name);
  }

  lemma {:induction false} FindControlAt(controls: seq<SimControl>, name: string)
    ensures FindControl(controls, name).Some? ==>
              exists k :: 0 <= k < |controls| && controls[k] == FindControl(controls, name).value
                          && forall j :: 0 <= j < k ==> controls[j].name != name
  {
    if controls != [] && controls[0].name != name && FindControl(controls[1..], name).Some? {
      FindControlAt(controls[1..], name);
      var k :| 0 <= k < |controls[1..]| && controls[1..][k] == FindControl(controls[1..], name).value
               && forall j :: 0 <= j < k ==> controls[1..][j].name != name;
      assert controls[k + 1] == FindControl(controls, name).value;
      assert forall j :: 0 < j < k + 1 ==> controls[j] == controls[1..][j - 1];
    }
  }

  lemma {:induction false} ControlValueIs(cfg: SimConfig, env: Env, name: string, v: real)
    requires IsControl(cfg, name)
    ensures FindControl(cfg.controls, name).Some?
    ensures ControlIs(cfg, env, name, v) <==> v == ControlValue(cfg, env.controls, name)
  {
    FindControlFirst(cfg, name);
  }

  lemma {:induction false} FindSensorIff(cfg: SimConfig, id: string)
    ensures FindSensor(IterSensors(cfg), id).Some? <==> IsSensor(cfg, id)
  {
  }

  lemma {:induction false} TargetResolves(cfg: SimConfig, env: Env, m: Valuation, target: string, v: real)
    ensures ResolveTarget(cfg, target) != Ignored
    ensures TargetIs(cfg, env, m, target, v) <==> RefValue(cfg, env, m, ResolveTarget(cfg, target)) == Some(v)
  {
    FindControlFirst(cfg, target);
    FindSensorIff(cfg, target);
    if IsControl(cfg, target) {
      ControlValueIs(cfg, env, target, v);
    }
  }

  lemma {:induction false} ShortNameResolves(cfg: SimConfig, m: Valuation, name: string, v: real)
    ensures ResolveShort(IterSensors(cfg), name).Some? <==> IsShortName(cfg, name)
    ensures ShortNameIs(cfg, m, name, v) <==>
            var r := ResolveShort(IterSensors(cfg), name); r.Some? && r.value in m && v == m[r.value]
  {
    var sensors := IterSensors(cfg);
    if ResolveShort(sensors, name).None? {
      ResolveShortNone(sensors, name);
    } else {
      var k := FirstShort(sensors, name);
      ResolveShortIsFirst(sensors, name, k);
      forall j | 0 <= j < |sensors| && ShortName(sensors[j].sensorId) == name
                 && (forall i :: 0 <= i < j ==> ShortName(sensors[i].sensorId) != name)
        ensures j == k
      {
      }
    }
  }

  lemma {:induction false} FirstShort(sensors: seq<SimSensor>, name: string) returns (k: nat)
    requires ResolveShort(sensors, name).Some?
    ensures k < |sensors| && ShortName(sensors[k].sensorId) == name
    ensures forall j :: 0 <= j < k ==> ShortName(sensors[j].sensorId) != name
  {
    var s := FindSensor(sensors, ResolveShort(sensors, name).value).value;
    var some :| 0 <= some < |sensors| && sensors[some] == s;
    k := FirstShortUpTo(sensors, name, some);
  }

  lemma {:induction false} FirstShortUpTo(sensors: seq<SimSensor>, name: string, some: nat) returns (k: nat)
    requires some < |sensors| && ShortName(sensors[some].sensorId) == name
    ensures k <= some && ShortName(sensors[k].sensorId) == name
    ensures forall j :: 0 <= j < k ==> ShortName(sensors[j].sensorId) != name
    decreases some
  {
    if j :| 0 <= j < some && ShortName(sensors[j].sensorId) == name {
      k := FirstShortUpTo(sensors, name, j);
    } else {
      k := some;
    }
  }

  lemma {:induction false} NameResolves(cfg: SimConfig, env: Env, m: Valuation, s: SimSensor, name: string, v: real)
    ensures Matters(cfg, s, name) <==> ResolveName(cfg, s, name) != Ignored
    ensures Matters(cfg, s, name) ==>
              (StandsFor(cfg, env, m, s, name, v) <==> RefValue(cfg, env, m, ResolveName(cfg, s, name)) == Some(v))
  {
    FindControlFirst(cfg, name);
    if name in s.inputs {
      TargetResolves(cfg, env, m, s.inputs[name], v);
    } else if IsControl(cfg, name) {
      ControlValueIs(cfg, env, name, v);
    } else if name != "t" {
      ShortNameResolves(cfg, m, name, v);
    }
  }

  // ----- Bindings -----

  lemma {:induction false} BindsNamesSnoc(
    cfg: SimConfig, env: Env, m: Valuation, s: SimSensor, names: seq<string>, name: string,
    before: map<string, real>, v: real, b: map<string, real>)
    requires BindsNames(cfg, env, m, s, names, before)
    requires Matters(cfg, s, name) ==> StandsFor(cfg, env, m, s, name, v)
    requires b == if Matters(cfg, s, name) && name !in before then before[name := v] else before
    ensures BindsNames(cfg, env, m, s, names + [name], b)
  {
  }

  lemma {:induction false} BindingsBind(cfg: SimConfig, env: Env, m: Valuation, s: SimSensor, names: seq<string>)
    requires Bindings(cfg, env, m, s, names).Some?
    ensures BindsNames(cfg, env, m, s, names, Bindings(cfg, env, m, s, names).value)
  {
    if names != [] {
      var n := |names| - 1;
      var before, b := Bindings(cfg, env, m, s, names[..n]).value, Bindings(cfg, env, m, s, names).value;
      var r := RefValue(cfg, env, m, ResolveName(cfg, s, names[n]));
      var v := if r.Some? then r.value else 0.0;
      BindingsBind(cfg, env, m, s, names[..n]);
      NameResolves(cfg, env, m, s, names[n], v);
      BindsNamesSnoc(cfg, env, m, s, names[..n], names[n], before, v, b);
      assert names[..n] + [names[n]] == names;
    }
  }

  lemma {:induction false} NamesBound(
    cfg: SimConfig, env: Env, m: Valuation, s: SimSensor, names: seq<string>, b: map<string, real>)
    requires forall name :: name in names && Matters(cfg, s, name) ==>
                              name in b && StandsFor(cfg, env, m, s, name, b[name])
    ensures Bindings(cfg, env, m, s, names).Some?
  {
    if names != [] {
      var n := |names| - 1;
      assert forall name :: name in names[..n] ==> name in names;
      NamesBound(cfg, env, m, s, names[..n], b);
      NameResolves(cfg, env, m, s, names[n], if names[n] in b then b[names[n]] else 0.0);
    }
  }

  lemma {:induction false} BindingIsUnique(
    cfg: SimConfig, env: Env, m: Valuation, s: SimSensor, names: seq<string>,
    a: map<string, real>, b: map<string, real>)
    requires BindsNames(cfg, env, m, s, names, a) && BindsNames(cfg, env, m, s, names, b)
    ensures a == b
  {
    forall name | name in a ensures name in b && a[name] == b[name] {
      NameResolves(cfg, env, m, s, name, a[name]);
      NameResolves(cfg, env, m, s, name, b[name]);
    }
    assert a.Keys == b.Keys;
  }

  lemma {:induction false} BindingsIff(
    cfg: SimConfig, env: Env, m: Valuation, s: SimSensor, names: seq<string>, b: map<string, real>)
    ensures Bindings(cfg, env, m, s, names) == Some(b) <==> BindsNames(cfg, env, m, s, names, b)
  {
    if Bindings(cfg, env, m, s, names).Some? {
      BindingsBind(cfg, env, m, s, names);
    }
    if BindsNames(cfg, env, m, s, names, b) {
      NamesBound(cfg, env, m, s, names, b);
      BindingsBind(cfg, env, m, s, names);
      BindingIsUnique(cfg, env, m, s, names, Bindings(cfg, env, m, s, names).value, b);
    }
  }

  // ----- The value of a sensor -----

  /** Sensor `i` is the first one of its id. */
  ghost predicate FirstOfId(sensors: seq<SimSensor>, i: nat) {
    i < |sensors| && forall j :: 0 <= j < i ==> sensors[j].sensorId != sensors[i].sensorId
  }

  /** The formula compiled for an id: that of the last sensor with the id whose formula parses. */
  ghost predicate CompiledFrom(lib: Meval, sensors: seq<SimSensor>, j: nat) {
    && j < |sensors| && lib.parses(sensors[j].formula)
    && forall k :: j < k < |sensors| && sensors[k].sensorId == sensors[j].sensorId ==> !lib.parses(sensors[k].formula)
  }

  lemma {:induction false} FindFirst(sensors: seq<SimSensor>, i: nat)
    requires FirstOfId(sensors, i)
    ensures FindSensor(sensors, sensors[i].sensorId) == Some(sensors[i])
  {
    if i > 0 {
      assert sensors[1..][i - 1] == sensors[i];
      assert forall j :: 0 <= j < i - 1 ==> sensors[1..][j] == sensors[j + 1];
      FindFirst(sensors[1..], i - 1);
    }
  }

  lemma {:induction false} CompiledIs(lib: Meval, sensors: seq<SimSensor>, j: nat)
    requires CompiledFrom(lib, sensors, j)
    ensures sensors[j].sensorId in Exprs(lib, sensors) && Exprs(lib, sensors)[sensors[j].sensorId] == sensors[j].formula
  {
    var n := |sensors| - 1;
    if j < n {
      assert CompiledFrom(lib, sensors[..n], j);
      CompiledIs(lib, sensors[..n], j);
    }
  }

  lemma {:induction false} NotCompiled(lib: Meval, sensors: seq<SimSensor>, id: string)
    requires forall k :: 0 <= k < |sensors| && sensors[k].sensorId == id ==> !lib.parses(sensors[k].formula)
    ensures id !in Exprs(lib, sensors)
  {
    if sensors != [] {
      NotCompiled(lib, sensors[..|sensors| - 1], id);
    }
  }

  /** The binding under which a formula gives a finite value. */
  ghost predicate FormulaGives(lib: Meval, formula: string, b: map<string, real>, v: real) {
    lib.binds(formula, b.Keys) && lib.finite(formula, b) && lib.value(formula, b) == v
  }

  /** A sensor has the value `v` exactly when its compiled formula gives `v` under the binding of its
      names to what they stand for: settings of controls, the time and the values of other sensors. */
  lemma {:induction false} SensorMeansFormula(cfg: SimConfig, env: Env, i: nat, j: nat, v: real)
    requires FirstOfId(IterSensors(cfg), i) && CompiledFrom(env.lib, IterSensors(cfg), j)
    requires IterSensors(cfg)[i].sensorId == IterSensors(cfg)[j].sensorId
    ensures var s, m := IterSensors(cfg)[i], Meaning(cfg, env);
            (s.sensorId in m && m[s.sensorId] == v) <==>
            exists b :: BindsNames(cfg, env, m, s, env.lib.refs(s.formula), b)
                        && FormulaGives(env.lib, IterSensors(cfg)[j].formula, b, v)
  {
    var sensors, m := IterSensors(cfg), Meaning(cfg, env);
    var s, names := sensors[i], env.lib.refs(sensors[i].formula);
    MeaningSolves(cfg, env, s.sensorId);
    FindFirst(sensors, i);
    CompiledIs(env.lib, sensors, j);
    var found := Bindings(cfg, env, m, s, names);
    if found.Some? {
      BindingsIff(cfg, env, m, s, names, found.value);
      assert Equation(cfg, env, m, s.sensorId) == ApplyFormula(env.lib, sensors[j].formula, found.value);
    }
    forall b | BindsNames(cfg, env, m, s, names, b) ensures found == Some(b) {
      BindingsIff(cfg, env, m, s, names, b);
    }
  }

  /** And nothing else has a value. */
  lemma {:induction false} OnlySensorsMean(cfg: SimConfig, env: Env, id: string)
    requires forall k :: 0 <= k < |IterSensors(cfg)| && IterSensors(cfg)[k].sensorId == id ==>
                           !env.lib.parses(IterSensors(cfg)[k].formula)
    ensures id !in Meaning(cfg, env)
  {
    MeaningSolves(cfg, env, id);
    NotCompiled(env.lib, IterSensors(cfg), id);
  }

  // ----- From a written control to a sensor -----

  lemma {:induction false} CheckedSensor(lib: Meval, cfg: SimConfig, i: nat)
    requires ValidSim(lib, cfg) && i < |IterSensors(cfg)|
    ensures FirstOfId(IterSensors(cfg), i) && CompiledFrom(lib, IterSensors(cfg), i)
  {
    var sensors := IterSensors(cfg);
    forall j | 0 <= j < |sensors| && j != i ensures sensors[j].sensorId != sensors[i].sensorId {
      assert Ids(sensors)[j] != Ids(sensors)[i];
    }
    assert sensors[i] in sensors;
  }

  /** After an accepted write of a word to a control, a sensor whose formula refers only to that
      control has the formula's value at the word, limited to 100. */
  lemma {:induction false} WrittenControlReachesSensor(
    lib: Meval, cfg: SimConfig, controls: Controls, t: real, addr: u16, word: u16, i: nat)
    requires ValidSim(lib, cfg) && i < |IterSensors(cfg)|
    requires Refusal(cfg, Layout(HoldingItems(cfg)), addr).None?
    requires var s, c := IterSensors(cfg)[i], ControlAt(Layout(HoldingItems(cfg)), addr);
             && c !in s.inputs && lib.refs(s.formula) != []
             && (forall name :: name in lib.refs(s.formula) ==> name == c)
             && lib.binds(s.formula, {c}) && lib.finite(s.formula, map[c := (if word > 100 then 100 else word) as real])
    ensures var s, c := IterSensors(cfg)[i], ControlAt(Layout(HoldingItems(cfg)), addr);
            var after := Applied(Layout(HoldingItems(cfg)), controls, addr, [word], 1);
            var m := Meaning(cfg, Env(lib, after, t));
            && s.sensorId in m
            && m[s.sensorId] == lib.value(s.formula, map[c := (if word > 100 then 100 else word) as real])
  {
    var holding := Layout(HoldingItems(cfg));
    var s, c := IterSensors(cfg)[i], ControlAt(holding, addr);
    var env := Env(lib, Applied(holding, controls, addr, [word], 1), t);
    var duty := (if word > 100 then 100 else word) as real;
    var b := map[c := duty];
    assert WordAddress(addr, 0) == addr;
    WrittenControlHolds(holding, controls, addr, [word], 1, 0);
    FindControlFirst(cfg, c);
    assert IsControl(cfg, c) && ControlIs(cfg, env, c, duty);
    assert c in lib.refs(s.formula) by {
      assert lib.refs(s.formula)[0] in lib.refs(s.formula);
    }
    assert BindsNames(cfg, env, Meaning(cfg, env), s, lib.refs(s.formula), b);
    assert b.Keys == {c};
    CheckedSensor(lib, cfg, i);
    SensorMeansFormula(cfg, env, i, i, lib.value(s.formula, b));
  }
}
