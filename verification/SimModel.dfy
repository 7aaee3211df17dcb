/** The simulator's configuration, how the names of a formula are resolved, and the declarative
    meaning of a configuration: the least solution of its sensors' equations. */
module SimModel {
  import opened Common
  import opened Fixpoint

  datatype Storage = F32 | U16

  datatype Area = Input | Holding | Coils

  datatype SimControl = SimControl(name: string, initial: real, writable: bool, address: Option<u16>)

  datatype SimSensor = SimSensor(
    sensorId: string,
    name: string,
    formula: string,
    inputs: map<string, string>,
    address: Option<u16>,
    area: Area,
    storage: Storage,
    encode: Option<string>)

  datatype Side = Side(input: seq<SimSensor>, output: seq<SimSensor>, auxiliary: seq<SimSensor>)

  datatype SimConfig = SimConfig(
    controls: seq<SimControl>,
    sensors: seq<SimSensor>,
    pri: Option<Side>,
    sec: Option<Side>)

  /** What one pass sees: the control values and the time. */
  datatype Env = Env(lib: Meval, controls: map<string, real>, t: real)

  function SideSensors(side: Option<Side>): seq<SimSensor> {
    match side
    case None => []
    case Some(s) => s.input + s.output + s.auxiliary
  }

  /** All sensors, primary side first, then secondary side, then the ungrouped ones. */
  function IterSensors(cfg: SimConfig): seq<SimSensor> {
    SideSensors(cfg.pri) + SideSensors(cfg.sec) + cfg.sensors
  }

  function FindSensor(sensors: seq<SimSensor>, id: string): (r: Option<SimSensor>)
    ensures r.Some? ==> r.value in sensors && r.value.sensorId == id
    ensures r.None? ==> forall s :: s in sensors ==> s.sensorId != id
  {
    if sensors == [] then None
    else if sensors[0].sensorId == id then Some(sensors[0])
    else FindSensor(sensors[1..], id)
  }

  function FindControl(controls: seq<SimControl>, name: string): (r: Option<SimControl>)
    ensures r.Some? ==> r.value in controls && r.value.name == name
    ensures r.None? ==> forall c :: c in controls ==> c.name != name
  {
    if controls == [] then None
    else if controls[0].name == name then Some(controls[0])
    else FindControl(controls[1..], name)
  }

  /** The last segment of a dotted sensor id. */
  function ShortName(id: string): (r: string)
    ensures '.' !in r
    ensures r == id || exists i :: 0 <= i < |id| && id[i] == '.' && r == id[i + 1..]
    decreases |id|
  {
    if id == [] || id[|id| - 1] == '.' then []
    else
      var init, last := id[..|id| - 1], id[|id| - 1];
      var front := ShortName(init);
      assert init + [last] == id;
      assert forall i :: 0 <= i < |init| && init[i] == '.' ==> init[i + 1..] + [last] == id[i + 1..];
      front + [last]
  }

  /** The id of the first sensor with a short name. */
  function ResolveShort(sensors: seq<SimSensor>, name: string): (r: Option<string>)
    ensures r.Some? ==> ShortName(r.value) == name && FindSensor(sensors, r.value).Some?
  {
    if sensors == [] then None
    else if ShortName(sensors[0].sensorId) == name then Some(sensors[0].sensorId)
    else ResolveShort(sensors[1..], name)
  }

  /** The first sensor with that short name is taken, and none only if there is none. */
  lemma {:induction false} ResolveShortIsFirst(sensors: seq<SimSensor>, name: string, i: nat)
    requires i < |sensors| && ShortName(sensors[i].sensorId) == name
    requires forall j :: 0 <= j < i ==> ShortName(sensors[j].sensorId) != name
    ensures ResolveShort(sensors, name) == Some(sensors[i].sensorId)
  {
    if i > 0 {
      ResolveShortIsFirst(sensors[1..], name, i - 1);
    }
  }

  lemma {:induction false} ResolveShortNone(sensors: seq<SimSensor>, name: string)
    requires ResolveShort(sensors, name).None?
    ensures forall s :: s in sensors ==> ShortName(s.sensorId) != name
  {
    if sensors != [] {
      ResolveShortNone(sensors[1..], name);
    }
  }

  /** Compiled formulas by sensor id; formulas that do not parse are absent. */
  function Exprs(lib: Meval, sensors: seq<SimSensor>): map<string, string> {
    if sensors == [] then map[]
    else
      var front, s := Exprs(lib, sensors[..|sensors| - 1]), sensors[|sensors| - 1];
      if lib.parses(s.formula) then front[s.sensorId := s.formula] else front
  }

  /** What a name of a formula stands for. */
  datatype Ref = ControlRef(name: string) | TimeRef | SensorRef(id: string) | Dangling | Ignored

  function ResolveTarget(cfg: SimConfig, target: string): Ref {
    if FindControl(cfg.controls, target).Some? then ControlRef(target)
    else if target == "t" then TimeRef
    else if FindSensor(IterSensors(cfg), target).Some? then SensorRef(target)
    else Dangling
  }

  function ResolveName(cfg: SimConfig, s: SimSensor, name: string): Ref {
    if name in s.inputs then ResolveTarget(cfg, s.inputs[name])
    else if FindControl(cfg.controls, name).Some? then ControlRef(name)
    else if name == "t" then TimeRef
    else
      match ResolveShort(IterSensors(cfg), name)
      case Some(id) => SensorRef(id)
      case None => Ignored
  }

  function ControlValue(cfg: SimConfig, controls: map<string, real>, name: string): real
    requires FindControl(cfg.controls, name).Some?
  {
    if name in controls then controls[name] else FindControl(cfg.controls, name).value.initial
  }

  // ----- The declarative meaning: one equation per sensor, least solution -----

  /** The value of a reference, given the values of the sensors. */
  function RefValue(cfg: SimConfig, env: Env, vals: Valuation, r: Ref): Option<real> {
    match r
    case ControlRef(n) =>
      if FindControl(cfg.controls, n).Some? then Some(ControlValue(cfg, env.controls, n)) else None
    case TimeRef => Some(env.t)
    case SensorRef(id) => if id in vals then Some(vals[id]) else None
    case Dangling => None
    case Ignored => None
  }

  /** The binding of a list of names; `None` as soon as one that matters has no value. */
  function Bindings(cfg: SimConfig, env: Env, vals: Valuation, s: SimSensor, names: seq<string>)
    : Option<map<string, real>>
  {
    if names == [] then Some(map[])
    else
      var name := names[|names| - 1];
      match Bindings(cfg, env, vals, s, names[..|names| - 1])
      case None => None
      case Some(b) =>
        var r := ResolveName(cfg, s, name);
        if r == Ignored then Some(b)
        else
          match RefValue(cfg, env, vals, r)
          case None => None
          case Some(v) => Some(if name in b then b else b[name := v])
  }

  function ApplyFormula(lib: Meval, formula: string, b: map<string, real>): Option<real> {
    if lib.binds(formula, b.Keys) && lib.finite(formula, b) then Some(lib.value(formula, b)) else None
  }

  /** The right-hand side of the equation of sensor `id`. */
  function Equation(cfg: SimConfig, env: Env, vals: Valuation, id: string): Option<real> {
    var sensors := IterSensors(cfg);
    match FindSensor(sensors, id)
    case None => None
    case Some(s) =>
      if id !in Exprs(env.lib, sensors) then None
      else
        match Bindings(cfg, env, vals, s, env.lib.refs(s.formula))
        case None => None
        case Some(b) => ApplyFormula(env.lib, Exprs(env.lib, sensors)[id], b)
  }

  function SensorIds(cfg: SimConfig): set<string> {
    set s | s in IterSensors(cfg) :: s.sensorId
  }

  /** One round of evaluating every equation. */
  function EvalRound(cfg: SimConfig, env: Env, vals: Valuation): map<string, real> {
    map id | id in SensorIds(cfg) && Equation(cfg, env, vals, id).Some? :: Equation(cfg, env, vals, id).value
  }

  function Rounds(cfg: SimConfig, env: Env): Valuation -> Valuation {
    vals => EvalRound(cfg, env, vals)
  }

  /** The meaning of a configuration: the least solution of the sensors' equations. */
  function Meaning(cfg: SimConfig, env: Env): Valuation {
    Lfp(Rounds(cfg, env), SensorIds(cfg))
  }

  lemma {:induction false} BindingsMonotone(
    cfg: SimConfig, env: Env, a: Valuation, b: Valuation, s: SimSensor, names: seq<string>)
    requires Below(a, b)
    requires Bindings(cfg, env, a, s, names).Some?
    ensures Bindings(cfg, env, b, s, names) == Bindings(cfg, env, a, s, names)
  {
    if names != [] {
      BindingsMonotone(cfg, env, a, b, s, names[..|names| - 1]);
    }
  }

  lemma {:induction false} EquationMonotone(cfg: SimConfig, env: Env, a: Valuation, b: Valuation, id: string)
    requires Below(a, b) && Equation(cfg, env, a, id).Some?
    ensures Equation(cfg, env, b, id) == Equation(cfg, env, a, id)
  {
    var s := FindSensor(IterSensors(cfg), id).value;
    BindingsMonotone(cfg, env, a, b, s, env.lib.refs(s.formula));
  }

  lemma {:induction false} RoundsMonotone(cfg: SimConfig, env: Env)
    ensures Monotone(Rounds(cfg, env)) && Within(Rounds(cfg, env), SensorIds(cfg))
  {
    forall a: Valuation, b: Valuation | Below(a, b) ensures Below(EvalRound(cfg, env, a), EvalRound(cfg, env, b)) {
      forall id | id in EvalRound(cfg, env, a) ensures Equation(cfg, env, b, id) == Equation(cfg, env, a, id) {
        EquationMonotone(cfg, env, a, b, id);
      }
    }
  }

  /** A sensor has a value exactly when its formula has one under the values of the sensors,
      and then it is that one. */
  lemma {:induction false} MeaningSolves(cfg: SimConfig, env: Env, id: string)
    ensures id in Meaning(cfg, env) <==> Equation(cfg, env, Meaning(cfg, env), id).Some?
    ensures id in Meaning(cfg, env) ==> Equation(cfg, env, Meaning(cfg, env), id) == Some(Meaning(cfg, env)[id])
  {
    var m := Meaning(cfg, env);
    RoundsMonotone(cfg, env);
    LfpIsFixpoint(Rounds(cfg, env), SensorIds(cfg));
    assert EvalRound(cfg, env, m) == m;
    if Equation(cfg, env, m, id).Some? {
      assert FindSensor(IterSensors(cfg), id).value.sensorId in SensorIds(cfg);
    }
  }

  /** No solution of the equations has fewer values. */
  lemma {:induction false} MeaningIsLeast(cfg: SimConfig, env: Env, sol: Valuation)
    requires Below(EvalRound(cfg, env, sol), sol)
    ensures Below(Meaning(cfg, env), sol)
  {
    RoundsMonotone(cfg, env);
    IterateBelow(Rounds(cfg, env), |SensorIds(cfg)|, sol);
  }
}
