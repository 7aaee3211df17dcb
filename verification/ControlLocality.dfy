/** Which sensors a control can influence: only those whose dependency closure mentions it. */
module ControlLocality {
  import opened Common
  import opened Fixpoint
  import opened SimModel
  import opened SimEngine

  /** The formula of sensor `id` itself mentions a control of `changed`. */
  ghost predicate Mentions(cfg: SimConfig, lib: Meval, id: string, changed: set<string>) {
    var s := FindSensor(IterSensors(cfg), id);
    s.Some? && exists name :: name in lib.refs(s.value.formula)
                              && ResolveName(cfg, s.value, name).ControlRef?
                              && ResolveName(cfg, s.value, name).name in changed
  }

  /** A control of `changed` is mentioned at most `k` references away from sensor `id`. */
  ghost predicate DependsWithin(cfg: SimConfig, lib: Meval, k: nat, id: string, changed: set<string>) {
    || Mentions(cfg, lib, id, changed)
    || (k > 0 && exists dep :: Refers(cfg, lib, id, dep) && DependsWithin(cfg, lib, k - 1, dep, changed))
  }

  ghost predicate DependsOn(cfg: SimConfig, lib: Meval, id: string, changed: set<string>) {
    exists k: nat :: DependsWithin(cfg, lib, k, id, changed)
  }

  ghost predicate AgreeAt<V>(a: map<string, V>, b: map<string, V>, key: string) {
    (key in a <==> key in b) && (key in a ==> a[key] == b[key])
  }

  /** Two environments that differ at most in the controls of `changed`. */
  ghost predicate SameExcept(e: Env, f: Env, changed: set<string>) {
    e.lib == f.lib && e.t == f.t && forall c :: c !in changed ==> AgreeAt(e.controls, f.controls, c)
  }

  /** Two valuations that agree on every sensor independent of `changed`. */
  ghost predicate AgreeOutside(cfg: SimConfig, lib: Meval, a: Valuation, b: Valuation, changed: set<string>) {
    forall id :: !DependsOn(cfg, lib, id, changed) ==> AgreeAt(a, b, id)
  }

  lemma {:induction false} IndependentDependency(
    cfg: SimConfig, lib: Meval, id: string, dep: string, changed: set<string>)
    requires Refers(cfg, lib, id, dep) && !DependsOn(cfg, lib, id, changed)
    ensures !DependsOn(cfg, lib, dep, changed)
  {
    if DependsOn(cfg, lib, dep, changed) {
      var k: nat :| DependsWithin(cfg, lib, k, dep, changed);
      assert DependsWithin(cfg, lib, k + 1, id, changed);
    }
  }

  lemma {:induction false} SameReference(cfg: SimConfig, e: Env, f: Env, a: Valuation, b: Valuation,
                      id: string, s: SimSensor, name: string, changed: set<string>)
    requires SameExcept(e, f, changed) && !DependsOn(cfg, e.lib, id, changed)
    requires AgreeOutside(cfg, e.lib, a, b, changed)
    requires FindSensor(IterSensors(cfg), id) == Some(s) && name in e.lib.refs(s.formula)
    ensures RefValue(cfg, e, a, ResolveName(cfg, s, name)) == RefValue(cfg, f, b, ResolveName(cfg, s, name))
  {
    var r := ResolveName(cfg, s, name);
    if r.SensorRef? {
      assert Refers(cfg, e.lib, id, r.id);
      IndependentDependency(cfg, e.lib, id, r.id, changed);
    } else if r.ControlRef? {
      assert !DependsWithin(cfg, e.lib, 0, id, changed);
      assert AgreeAt(e.controls, f.controls, r.name);
    }
  }

  lemma {:induction false} SameBindings(cfg: SimConfig, e: Env, f: Env, a: Valuation, b: Valuation,
                                        s: SimSensor, names: seq<string>)
    requires forall name :: name in names ==>
                              RefValue(cfg, e, a, ResolveName(cfg, s, name))
                              == RefValue(cfg, f, b, ResolveName(cfg, s, name))
    ensures Bindings(cfg, e, a, s, names) == Bindings(cfg, f, b, s, names)
  {
    if names != [] {
      var front := names[..|names| - 1];
      assert forall name :: name in front ==> name in names;
      SameBindings(cfg, e, f, a, b, s, front);
    }
  }

  lemma {:induction false} SameEquation(
    cfg: SimConfig, e: Env, f: Env, a: Valuation, b: Valuation, id: string, changed: set<string>)
    requires SameExcept(e, f, changed) && !DependsOn(cfg, e.lib, id, changed)
    requires AgreeOutside(cfg, e.lib, a, b, changed)
    ensures Equation(cfg, e, a, id) == Equation(cfg, f, b, id)
  {
    var s := FindSensor(IterSensors(cfg), id);
    if s.Some? {
      forall name | name in e.lib.refs(s.value.formula)
        ensures RefValue(cfg, e, a, ResolveName(cfg, s.value, name))
                == RefValue(cfg, f, b, ResolveName(cfg, s.value, name))
      {
        SameReference(cfg, e, f, a, b, id, s.value, name, changed);
      }
      SameBindings(cfg, e, f, a, b, s.value, e.lib.refs(s.value.formula));
    }
  }

  lemma {:induction false} SameRound(cfg: SimConfig, e: Env, f: Env, a: Valuation, b: Valuation, changed: set<string>)
    requires SameExcept(e, f, changed) && AgreeOutside(cfg, e.lib, a, b, changed)
    ensures AgreeOutside(cfg, e.lib, EvalRound(cfg, e, a), EvalRound(cfg, f, b), changed)
  {
    forall id | !DependsOn(cfg, e.lib, id, changed) ensures AgreeAt(EvalRound(cfg, e, a), EvalRound(cfg, f, b), id) {
      SameEquation(cfg, e, f, a, b, id, changed);
    }
  }

  /** Changing controls changes no sensor whose dependency closure does not mention them:
      neither its value nor whether it has one. */
  lemma {:induction false} ControlWritesAreLocal(cfg: SimConfig, e: Env, f: Env, changed: set<string>, id: string)
    requires SameExcept(e, f, changed) && !DependsOn(cfg, e.lib, id, changed)
    ensures AgreeAt(Meaning(cfg, e), Meaning(cfg, f), id)
  {
    var related := (a: Valuation, b: Valuation) => AgreeOutside(cfg, e.lib, a, b, changed);
    forall a, b | related(a, b) ensures related(Rounds(cfg, e)(a), Rounds(cfg, f)(b)) {
      SameRound(cfg, e, f, a, b, changed);
    }
    IteratesRelated(Rounds(cfg, e), Rounds(cfg, f), related, |SensorIds(cfg)|);
    assert related(Meaning(cfg, e), Meaning(cfg, f));
  }
}
