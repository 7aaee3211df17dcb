/** When a commit loses what was stored before, over all interleavings of updates that each add
    something new. */
module LostUpdates {
  import opened HotReload

  /** The change adds exactly `x` to the ids of every configuration it succeeds on, and fails where
      `x` is already present. */
  ghost predicate Adds<C(!new), K>(ids: C -> set<K>, change: Change<C>, x: K) {
    forall c :: change(c).Some? ==> x !in ids(c) && ids(change(c).value) == ids(c) + {x}
  }

  /** An update in progress whose change succeeds. */
  predicate Live<C>(p: Updater<C>) {
    p.Changed? || p.Checked? || p.Locked? || (p.Copied? && p.change(p.copy).Some?)
  }

  ghost predicate NeverStored<C, K>(ids: C -> set<K>, history: seq<C>, x: K) {
    forall n :: 0 <= n < |history| ==> x !in ids(history[n])
  }

  /** What each updater is adding, given what is added at each step that takes a copy. */
  function Owners<C, K>(steps: seq<Step<C>>, names: seq<K>): map<nat, K>
    requires |names| == |steps|
  {
    if steps == [] then map[]
    else
      var n := |steps| - 1;
      var before := Owners(steps[..n], names[..n]);
      if steps[n].Copy? then before[steps[n].u := names[n]] else before
  }

  /** A copy is taken for a change that adds `x`.  If the change will succeed, `x` was never stored
      before and nobody else is adding it. */
  ghost predicate CopyAddsNew<C(!new), K>(ids: C -> set<K>, s: State<C>, own: map<nat, K>, change: Change<C>, x: K) {
    && Adds(ids, change, x)
    && (change(s.config).Some? ==>
          && NeverStored(ids, s.history, x)
          && forall v :: v in s.updaters && v in own && Live(s.updaters[v]) ==> own[v] != x)
  }

  /** Each update of an interleaving adds a new id. */
  ghost predicate AddsNewIds<C(!new), K>(
    ids: C -> set<K>, valid: C -> bool, init: State<C>, steps: seq<Step<C>>, names: seq<K>)
    requires |names| == |steps|
  {
    if steps == [] then true
    else
      var n := |steps| - 1;
      var before := After(valid, init, steps[..n]);
      && AddsNewIds(ids, valid, init, steps[..n], names[..n])
      && (steps[n].Copy? && before.Some? ==>
            CopyAddsNew(ids, before.value, Owners(steps[..n], names[..n]), steps[n].change, names[n]))
  }

  /** Commit `n` stored an id that was never stored before. */
  ghost predicate BringsNew<C, K>(ids: C -> set<K>, history: seq<C>, n: nat)
    requires n < |history|
  {
    exists x :: x in ids(history[n]) && NeverStored(ids, history[..n], x)
  }

  ghost predicate OwnerOk<C(!new), K>(ids: C -> set<K>, s: State<C>, own: map<nat, K>, u: nat)
    requires u in s.updaters
  {
    Live(s.updaters[u]) ==>
      u in own && Adds(ids, s.updaters[u].change, own[u]) && NeverStored(ids, s.history, own[u])
  }

  ghost predicate OwnersDiffer<C, K>(s: State<C>, own: map<nat, K>) {
    forall u, v :: (u in s.updaters && v in s.updaters && u != v && u in own && v in own
                    && Live(s.updaters[u]) && Live(s.updaters[v])) ==> own[u] != own[v]
  }

  ghost predicate OwnersOk<C(!new), K>(ids: C -> set<K>, s: State<C>, own: map<nat, K>) {
    && (forall u :: u in s.updaters ==> OwnerOk(ids, s, own, u))
    && OwnersDiffer(s, own)
    && (forall n :: 0 < n < |s.history| ==> BringsNew(ids, s.history, n))
  }

  lemma {:induction false} CopyKeepsOwners<C(!new), K>(
    ids: C -> set<K>, valid: C -> bool, s: State<C>, own: map<nat, K>, u: nat, change: Change<C>, x: K)
    requires OwnersOk(ids, s, own) && Enabled(s, Copy(u, change)) && CopyAddsNew(ids, s, own, change, x)
    ensures OwnersOk(ids, Do(valid, s, Copy(u, change)), own[u := x])
  {
    var t := Do(valid, s, Copy(u, change));
    forall v | v in t.updaters ensures OwnerOk(ids, t, own[u := x], v) {
      assert OwnerOk(ids, s, own, v);
    }
  }

  lemma {:induction false} WriteKeepsOwners<C(!new), K>(
    ids: C -> set<K>, valid: C -> bool, s: State<C>, own: map<nat, K>, u: nat)
    requires Inv(valid, s) && OwnersOk(ids, s, own) && Enabled(s, Write(u))
    ensures OwnersOk(ids, Do(valid, s, Write(u)), own)
  {
    var t := Do(valid, s, Write(u));
    var base := s.updaters[u].base;
    assert UpdaterOk(valid, s, u) && OwnerOk(ids, s, own, u);
    assert ids(t.config) == ids(s.history[base]) + {own[u]};
    forall v | v in t.updaters ensures OwnerOk(ids, t, own, v) {
      assert OwnerOk(ids, s, own, v);
    }
    forall n | 0 < n < |t.history| ensures BringsNew(ids, t.history, n) {
      if n < |s.history| {
        assert BringsNew(ids, s.history, n);
        assert t.history[..n] == s.history[..n];
      } else {
        assert t.history[..n] == s.history;
        assert own[u] in ids(t.history[n]) && NeverStored(ids, t.history[..n], own[u]);
      }
    }
  }

  lemma {:induction false} OtherStepKeepsOwners<C(!new), K>(
    ids: C -> set<K>, valid: C -> bool, s: State<C>, own: map<nat, K>, step: Step<C>)
    requires OwnersOk(ids, s, own) && Enabled(s, step) && !step.Copy? && !step.Write?
    ensures OwnersOk(ids, Do(valid, s, step), own)
  {
    var t := Do(valid, s, step);
    assert t.history == s.history && t.updaters.Keys == s.updaters.Keys;
    forall v | v in t.updaters
      ensures Live(t.updaters[v]) ==> Live(s.updaters[v]) && t.updaters[v].change == s.updaters[v].change
    {
    }
    forall v | v in t.updaters ensures OwnerOk(ids, t, own, v) {
      assert OwnerOk(ids, s, own, v);
    }
  }

  lemma {:induction false} ReachableOwners<C(!new), K>(
    ids: C -> set<K>, valid: C -> bool, init: State<C>, steps: seq<Step<C>>, names: seq<K>)
    requires Init(valid, init) && After(valid, init, steps).Some?
    requires |names| == |steps| && AddsNewIds(ids, valid, init, steps, names)
    ensures OwnersOk(ids, After(valid, init, steps).value, Owners(steps, names))
  {
    if steps != [] {
      var n := |steps| - 1;
      ReachableOwners(ids, valid, init, steps[..n], names[..n]);
      ReachableInv(valid, init, steps[..n]);
      var s, own := After(valid, init, steps[..n]).value, Owners(steps[..n], names[..n]);
      match steps[n]
      case Copy(u, change) => CopyKeepsOwners(ids, valid, s, own, u, change, names[n]);
      case Write(u) => WriteKeepsOwners(ids, valid, s, own, u);
      case _ => OtherStepKeepsOwners(ids, valid, s, own, steps[n]);
    }
  }

  lemma {:induction false} WriteKeepsIff<C(!new), K>(
    ids: C -> set<K>, valid: C -> bool, s: State<C>, own: map<nat, K>, u: nat)
    requires Inv(valid, s) && OwnersOk(ids, s, own) && Enabled(s, Write(u))
    ensures ids(s.config) <= ids(Do(valid, s, Write(u)).config) <==> s.updaters[u].base == s.Commits()
    ensures ids(Do(valid, s, Write(u)).config) == ids(s.history[s.updaters[u].base]) + {own[u]}
    ensures NeverStored(ids, s.history, own[u])
  {
    var base, last := s.updaters[u].base, s.Commits();
    assert UpdaterOk(valid, s, u) && OwnerOk(ids, s, own, u);
    if base < last {
      assert BringsNew(ids, s.history, last);
      var x :| x in ids(s.history[last]) && NeverStored(ids, s.history[..last], x);
      assert s.history[..last][base] == s.history[base];
      assert x !in ids(s.history[base]) + {own[u]};
    }
  }

  /** In every interleaving of updates that add new ids, a commit keeps what was stored before it
      exactly when nobody has committed since its copy was taken. */
  lemma {:induction false} CommitKeepsIff<C(!new), K>(
    ids: C -> set<K>, valid: C -> bool, init: State<C>, steps: seq<Step<C>>, names: seq<K>, u: nat)
    requires Init(valid, init) && After(valid, init, steps).Some?
    requires |names| == |steps| && AddsNewIds(ids, valid, init, steps, names)
    requires Enabled(After(valid, init, steps).value, Write(u))
    ensures var s := After(valid, init, steps).value;
            ids(s.config) <= ids(Do(valid, s, Write(u)).config) <==> s.updaters[u].base == s.Commits()
  {
    ReachableInv(valid, init, steps);
    ReachableOwners(ids, valid, init, steps, names);
    WriteKeepsIff(ids, valid, After(valid, init, steps).value, Owners(steps, names), u);
  }

  // ----- Whole interleavings -----

  /** No commit of the interleaving came between another one and its copy. */
  ghost predicate Undisturbed<C>(valid: C -> bool, init: State<C>, steps: seq<Step<C>>) {
    if steps == [] then true
    else
      var n := |steps| - 1;
      var before := After(valid, init, steps[..n]);
      && Undisturbed(valid, init, steps[..n])
      && (steps[n].Write? && before.Some? && Enabled(before.value, steps[n]) ==>
            before.value.updaters[steps[n].u].base == before.value.Commits())
  }

  /** Every id that was ever stored is stored now. */
  ghost predicate NothingLost<C, K>(ids: C -> set<K>, s: State<C>) {
    forall n :: 0 <= n < |s.history| ==> ids(s.history[n]) <= ids(s.config)
  }

  lemma {:induction false} NothingLostStep<C(!new), K>(
    ids: C -> set<K>, valid: C -> bool, s: State<C>, own: map<nat, K>, u: nat)
    requires Inv(valid, s) && OwnersOk(ids, s, own) && Enabled(s, Write(u))
    ensures NothingLost(ids, Do(valid, s, Write(u))) <==>
            NothingLost(ids, s) && s.updaters[u].base == s.Commits()
  {
    var t := Do(valid, s, Write(u));
    WriteKeepsIff(ids, valid, s, own, u);
    if NothingLost(ids, t) {
      assert ids(t.history[s.Commits()]) <= ids(t.config);
      forall n | 0 <= n < |s.history| ensures ids(s.history[n]) <= ids(s.config) {
        assert ids(t.history[n]) <= ids(t.config);
        assert own[u] !in ids(s.history[n]);
      }
    }
    if NothingLost(ids, s) && s.updaters[u].base == s.Commits() {
      forall n | 0 <= n < |t.history| ensures ids(t.history[n]) <= ids(t.config) {
        if n < |s.history| {
          assert ids(s.history[n]) <= ids(s.config);
        }
      }
    }
  }

  /** After any interleaving of updates that add new ids, everything ever stored is still there
      exactly when no commit came between another one and its copy. */
  lemma {:induction false} NothingLostIff<C(!new), K>(
    ids: C -> set<K>, valid: C -> bool, init: State<C>, steps: seq<Step<C>>, names: seq<K>)
    requires Init(valid, init) && After(valid, init, steps).Some?
    requires |names| == |steps| && AddsNewIds(ids, valid, init, steps, names)
    ensures NothingLost(ids, After(valid, init, steps).value) <==> Undisturbed(valid, init, steps)
  {
    if steps != [] {
      var n := |steps| - 1;
      var s := After(valid, init, steps[..n]).value;
      NothingLostIff(ids, valid, init, steps[..n], names[..n]);
      if steps[n].Write? {
        ReachableInv(valid, init, steps[..n]);
        ReachableOwners(ids, valid, init, steps[..n], names[..n]);
        NothingLostStep(ids, valid, s, Owners(steps[..n], names[..n]), steps[n].u);
      } else {
        assert Do(valid, s, steps[n]).history == s.history && Do(valid, s, steps[n]).config == s.config;
      }
    }
  }

  // ----- A simple way to add new ids -----

  /** The ids that the first steps add. */
  function Used<C, K>(steps: seq<Step<C>>, names: seq<K>): set<K>
    requires |names| == |steps|
  {
    set i | 0 <= i < |steps| && steps[i].Copy? :: names[i]
  }

  /** All updates add different ids, none of which is there at the start. */
  ghost predicate AllDifferent<C(!new), K>(ids: C -> set<K>, init: State<C>, steps: seq<Step<C>>, names: seq<K>)
    requires |names| == |steps|
  {
    && (forall i :: 0 <= i < |steps| && steps[i].Copy? ==>
          Adds(ids, steps[i].change, names[i]) && names[i] !in ids(init.config))
    && (forall i, j :: 0 <= i < j < |steps| && steps[i].Copy? && steps[j].Copy? ==> names[i] != names[j])
  }

  /** What is stored comes from the start or from an update. */
  ghost predicate StoredAmong<C, K>(ids: C -> set<K>, s: State<C>, all: set<K>) {
    forall n :: 0 <= n < |s.history| ==> ids(s.history[n]) <= all
  }

  lemma {:induction false} OwnersUsed<C, K>(steps: seq<Step<C>>, names: seq<K>)
    requires |names| == |steps|
    ensures forall u :: u in Owners(steps, names) ==> Owners(steps, names)[u] in Used(steps, names)
  {
    if steps != [] {
      var n := |steps| - 1;
      OwnersUsed(steps[..n], names[..n]);
      UsedGrows(steps, names);
    }
  }

  lemma {:induction false} UsedGrows<C, K>(steps: seq<Step<C>>, names: seq<K>)
    requires |names| == |steps| > 0
    ensures var n := |steps| - 1;
            Used(steps, names) == Used(steps[..n], names[..n]) + if steps[n].Copy? then {names[n]} else {}
  {
    var n := |steps| - 1;
    forall x | x in Used(steps, names)
      ensures x in Used(steps[..n], names[..n]) + if steps[n].Copy? then {names[n]} else {}
    {
      var i :| 0 <= i < |steps| && steps[i].Copy? && names[i] == x;
      assert i < n ==> steps[..n][i].Copy? && names[..n][i] == x;
    }
    forall x | x in Used(steps[..n], names[..n]) ensures x in Used(steps, names) {
      var i :| 0 <= i < n && steps[..n][i].Copy? && names[..n][i] == x;
      assert steps[i].Copy? && names[i] == x;
    }
  }

  lemma {:induction false} StepStoredAmong<C(!new), K>(
    ids: C -> set<K>, valid: C -> bool, s: State<C>, own: map<nat, K>, step: Step<C>, all: set<K>)
    requires Inv(valid, s) && OwnersOk(ids, s, own) && Enabled(s, step)
    requires StoredAmong(ids, s, all) && forall u :: u in own ==> own[u] in all
    ensures StoredAmong(ids, Do(valid, s, step), all)
  {
    if step.Write? {
      WriteKeepsIff(ids, valid, s, own, step.u);
      assert UpdaterOk(valid, s, step.u) && OwnerOk(ids, s, own, step.u);
    }
  }

  lemma {:induction false} AllDifferentAddsNew<C(!new), K>(
    ids: C -> set<K>, valid: C -> bool, init: State<C>, steps: seq<Step<C>>, names: seq<K>)
    requires Init(valid, init) && |names| == |steps| && AllDifferent(ids, init, steps, names)
    ensures AddsNewIds(ids, valid, init, steps, names)
    ensures After(valid, init, steps).Some? ==>
              StoredAmong(ids, After(valid, init, steps).value, ids(init.config) + Used(steps, names))
  {
    if steps != [] {
      var n := |steps| - 1;
      var before, used := After(valid, init, steps[..n]), ids(init.config) + Used(steps[..n], names[..n]);
      AllDifferentAddsNew(ids, valid, init, steps[..n], names[..n]);
      OwnersUsed(steps[..n], names[..n]);
      UsedGrows(steps, names);
      if steps[n].Copy? {
        forall x | x in Used(steps[..n], names[..n]) ensures x != names[n] {
          var i :| 0 <= i < n && steps[..n][i].Copy? && names[..n][i] == x;
          assert steps[i].Copy? && names[i] == x;
        }
      }
      if before.Some? && Enabled(before.value, steps[n]) {
        ReachableInv(valid, init, steps[..n]);
        ReachableOwners(ids, valid, init, steps[..n], names[..n]);
        StepStoredAmong(ids, valid, before.value, Owners(steps[..n], names[..n]), steps[n], used);
      }
    }
  }
}
