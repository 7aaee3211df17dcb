/** Run-time reconfiguration as interleaved small steps: updaters copy, change, check and commit
    the shared configuration under a write lock and count the commit in a lock-free revision;
    caches load the revision first and read the configuration second. */
module HotReload {
  import opened Common

  /** The revision is an unsigned 64-bit counter that wraps around. */
  const REVISIONS: int := 0x1_0000_0000_0000_0000

  type Change<!C> = C -> Option<C>

  /** An update in progress.  `base` is the number of commits when the copy was taken. */
  datatype Updater<!C> =
    | Idle
    | Copied(base: nat, copy: C, change: Change<C>)
    | Changed(base: nat, candidate: C, change: Change<C>)
    | Checked(base: nat, candidate: C, change: Change<C>)
    | Locked(base: nat, candidate: C, change: Change<C>)
    | Written
    | Counted

  predicate HoldsLock<C>(u: Updater<C>) {
    u.Locked? || u.Written? || u.Counted?
  }

  /** Where a cache is in a refresh.  `at` is the number of counted commits when the revision was
      loaded, `readAt` the number of commits when the configuration was read. */
  datatype Phase<C> =
    | Resting
    | Loaded(revision: nat, at: nat)
    | HasConfig(revision: nat, at: nat, config: C, readAt: nat)

  /** What a cache was built from, the revision it remembers, and when both were obtained. */
  datatype Cache<C> = Cache(phase: Phase<C>, revision: nat, loadedAt: nat, builtFrom: C, builtAt: nat)

  /** `history` lists every configuration stored so far, the initial one first. */
  datatype State<!C> = State(
    config: C,
    revision: nat,
    writer: Option<nat>,
    updaters: map<nat, Updater<C>>,
    caches: map<nat, Cache<C>>,
    history: seq<C>)
  {
    function Commits(): nat { if history == [] then 0 else |history| - 1 }
  }

  datatype Step<!C> =
    | Copy(u: nat, change: Change<C>)
    | Apply(u: nat)
    | Check(u: nat)
    | Lock(u: nat)
    | Write(u: nat)
    | Count(u: nat)
    | Unlock(u: nat)
    | Load(k: nat)
    | Read(k: nat)
    | Rebuild(k: nat)

  predicate Enabled<C>(s: State<C>, step: Step<C>) {
    match step
    case Copy(u, _) => u in s.updaters && s.updaters[u].Idle? && s.writer.None?
    case Apply(u) => u in s.updaters && s.updaters[u].Copied?
    case Check(u) => u in s.updaters && s.updaters[u].Changed?
    case Lock(u) => u in s.updaters && s.updaters[u].Checked? && s.writer.None?
    case Write(u) => u in s.updaters && s.updaters[u].Locked?
    case Count(u) => u in s.updaters && s.updaters[u].Written?
    case Unlock(u) => u in s.updaters && s.updaters[u].Counted?
    case Load(k) => k in s.caches && s.caches[k].phase.Resting?
    case Read(k) => k in s.caches && s.caches[k].phase.Loaded? && s.writer.None?
    case Rebuild(k) => k in s.caches && s.caches[k].phase.HasConfig?
  }

  /** The number of commits already counted in the revision. */
  function Counted<C>(s: State<C>): nat {
    match s.writer
    case Some(u) =>
      if u in s.updaters && s.updaters[u].Written? && s.Commits() > 0 then s.Commits() - 1 else s.Commits()
    case None => s.Commits()
  }

  function Do<C>(valid: C -> bool, s: State<C>, step: Step<C>): State<C>
    requires Enabled(s, step)
  {
    match step
    case Copy(u, change) =>
      s.(updaters := s.updaters[u := Copied(s.Commits(), s.config, change)])
    case Apply(u) =>
      var p := s.updaters[u];
      (match p.change(p.copy)
       case None => s.(updaters := s.updaters[u := Idle])
       case Some(c) => s.(updaters := s.updaters[u := Changed(p.base, c, p.change)]))
    case Check(u) =>
      var p := s.updaters[u];
      s.(updaters := s.updaters[u := if valid(p.candidate) then Checked(p.base, p.candidate, p.change) else Idle])
    case Lock(u) =>
      var p := s.updaters[u];
      s.(updaters := s.updaters[u := Locked(p.base, p.candidate, p.change)], writer := Some(u))
    case Write(u) =>
      var p := s.updaters[u];
      s.(updaters := s.updaters[u := Written], config := p.candidate, history := s.history + [p.candidate])
    case Count(u) =>
      s.(updaters := s.updaters[u := Updater.Counted], revision := (s.revision + 1) % REVISIONS)
    case Unlock(u) =>
      s.(updaters := s.updaters[u := Idle], writer := None)
    case Load(k) =>
      if s.revision == s.caches[k].revision then s
      else s.(caches := s.caches[k := s.caches[k].(phase := Loaded(s.revision, Counted(s)))])
    case Read(k) =>
      var p := s.caches[k].phase;
      s.(caches := s.caches[k := s.caches[k].(phase := HasConfig(p.revision, p.at, s.config, s.Commits()))])
    case Rebuild(k) =>
      var p := s.caches[k].phase;
      s.(caches := s.caches[k := Cache(Resting, p.revision, p.at, p.config, p.readAt)])
  }

  // ----- The invariant -----

  ghost predicate StoreOk<C>(valid: C -> bool, s: State<C>) {
    && s.history != []
    && s.config == s.history[s.Commits()]
    && (forall i :: 0 <= i < |s.history| ==> valid(s.history[i]))
    && s.revision == Counted(s) % REVISIONS
  }

  ghost predicate UpdaterOk<C>(valid: C -> bool, s: State<C>, u: nat)
    requires u in s.updaters
  {
    var p := s.updaters[u];
    && (HoldsLock(p) <==> s.writer == Some(u))
    && (p.Copied? ==> p.base < |s.history| && s.history[p.base] == p.copy)
    && (p.Changed? || p.Checked? || p.Locked? ==>
          p.base < |s.history| && p.change(s.history[p.base]) == Some(p.candidate))
    && (p.Checked? || p.Locked? ==> valid(p.candidate))
    && (p.Written? ==> s.Commits() > 0)
  }

  ghost predicate CacheOk<C>(s: State<C>, k: nat)
    requires k in s.caches
  {
    var c := s.caches[k];
    && c.loadedAt <= Counted(s) && c.loadedAt <= c.builtAt < |s.history|
    && c.revision == c.loadedAt % REVISIONS
    && c.builtFrom == s.history[c.builtAt]
    && (c.phase.Loaded? || c.phase.HasConfig? ==>
          c.phase.at <= Counted(s) && c.phase.revision == c.phase.at % REVISIONS)
    && (c.phase.HasConfig? ==>
          c.phase.at <= c.phase.readAt < |s.history| && c.phase.config == s.history[c.phase.readAt])
  }

  ghost predicate Inv<C>(valid: C -> bool, s: State<C>) {
    && StoreOk(valid, s)
    && (s.writer.Some? ==> s.writer.value in s.updaters)
    && (forall u :: u in s.updaters ==> UpdaterOk(valid, s, u))
    && (forall k :: k in s.caches ==> CacheOk(s, k))
  }

  /** At the start: a valid configuration, nobody active, every cache built from it. */
  ghost predicate Init<C>(valid: C -> bool, s: State<C>) {
    && valid(s.config)
    && s.revision == 0
    && s.writer == None
    && s.history == [s.config]
    && (forall u :: u in s.updaters ==> s.updaters[u] == Idle)
    && (forall k :: k in s.caches ==> s.caches[k] == Cache(Resting, 0, 0, s.config, 0))
  }

  lemma {:induction false} InitInv<C>(valid: C -> bool, s: State<C>)
    requires Init(valid, s)
    ensures Inv(valid, s)
  {
  }

  /** The steps of an updater that leave the stored configuration alone. */
  lemma {:induction false} PrepareInv<C>(valid: C -> bool, s: State<C>, step: Step<C>)
    requires Inv(valid, s) && Enabled(s, step)
    requires step.Copy? || step.Apply? || step.Check?
    ensures Inv(valid, Do(valid, s, step))
  {
    var t := Do(valid, s, step);
    assert UpdaterOk(valid, s, step.u);
    assert t.writer == s.writer && Counted(t) == Counted(s);
    forall k | k in t.caches ensures CacheOk(t, k) {
      assert CacheOk(s, k);
    }
    forall u | u in t.updaters ensures UpdaterOk(valid, t, u) {
      assert UpdaterOk(valid, s, u);
    }
  }

  lemma {:induction false} LockInv<C>(valid: C -> bool, s: State<C>, step: Step<C>)
    requires Inv(valid, s) && Enabled(s, step)
    requires step.Lock? || step.Unlock?
    ensures Inv(valid, Do(valid, s, step))
  {
    var t := Do(valid, s, step);
    assert UpdaterOk(valid, s, step.u);
    assert Counted(t) == Counted(s);
    forall k | k in t.caches ensures CacheOk(t, k) {
      assert CacheOk(s, k);
    }
    forall u | u in t.updaters ensures UpdaterOk(valid, t, u) {
      assert UpdaterOk(valid, s, u);
    }
  }

  lemma {:induction false} WriteInv<C>(valid: C -> bool, s: State<C>, u: nat)
    requires Inv(valid, s) && Enabled(s, Write(u))
    ensures Inv(valid, Do(valid, s, Write(u)))
  {
    var t := Do(valid, s, Write(u));
    assert UpdaterOk(valid, s, u);
    assert Counted(t) == Counted(s);
    forall k | k in t.caches ensures CacheOk(t, k) {
      assert CacheOk(s, k);
    }
    forall v | v in t.updaters ensures UpdaterOk(valid, t, v) {
      assert UpdaterOk(valid, s, v);
    }
  }

  lemma {:induction false} NextRevision(n: nat)
    ensures (n % REVISIONS + 1) % REVISIONS == (n + 1) % REVISIONS
  {
  }

  lemma {:induction false} CountInv<C>(valid: C -> bool, s: State<C>, u: nat)
    requires Inv(valid, s) && Enabled(s, Count(u))
    ensures Inv(valid, Do(valid, s, Count(u)))
  {
    var t := Do(valid, s, Count(u));
    assert UpdaterOk(valid, s, u);
    assert Counted(t) == Counted(s) + 1;
    NextRevision(Counted(s));
    forall k | k in t.caches ensures CacheOk(t, k) {
      assert CacheOk(s, k);
    }
    forall v | v in t.updaters ensures UpdaterOk(valid, t, v) {
      assert UpdaterOk(valid, s, v);
    }
  }

  lemma {:induction false} CacheStepInv<C>(valid: C -> bool, s: State<C>, step: Step<C>)
    requires Inv(valid, s) && Enabled(s, step)
    requires step.Load? || step.Read? || step.Rebuild?
    ensures Inv(valid, Do(valid, s, step))
  {
    var t := Do(valid, s, step);
    assert CacheOk(s, step.k);
    assert Counted(t) == Counted(s);
    forall k | k in t.caches ensures CacheOk(t, k) {
      assert CacheOk(s, k);
    }
    forall u | u in t.updaters ensures UpdaterOk(valid, t, u) {
      assert UpdaterOk(valid, s, u);
    }
  }

  /** Every step of every process keeps the invariant. */
  lemma {:induction false} StepInv<C>(valid: C -> bool, s: State<C>, step: Step<C>)
    requires Inv(valid, s) && Enabled(s, step)
    ensures Inv(valid, Do(valid, s, step))
  {
    match step
    case Write(u) => WriteInv(valid, s, u);
    case Count(u) => CountInv(valid, s, u);
    case Load(_) => CacheStepInv(valid, s, step);
    case Read(_) => CacheStepInv(valid, s, step);
    case Rebuild(_) => CacheStepInv(valid, s, step);
    case Lock(_) => LockInv(valid, s, step);
    case Unlock(_) => LockInv(valid, s, step);
    case _ => PrepareInv(valid, s, step);
  }

  // ----- Runs -----

  /** The state after an interleaving, if each of its steps is enabled when it is taken. */
  function After<C>(valid: C -> bool, init: State<C>, steps: seq<Step<C>>): Option<State<C>> {
    if steps == [] then Some(init)
    else
      match After(valid, init, steps[..|steps| - 1])
      case None => None
      case Some(s) => if Enabled(s, steps[|steps| - 1]) then Some(Do(valid, s, steps[|steps| - 1])) else None
  }

  lemma {:induction false} ReachableInv<C>(valid: C -> bool, init: State<C>, steps: seq<Step<C>>)
    requires Init(valid, init) && After(valid, init, steps).Some?
    ensures Inv(valid, After(valid, init, steps).value)
  {
    if steps == [] {
      InitInv(valid, init);
    } else {
      var front := steps[..|steps| - 1];
      ReachableInv(valid, init, front);
      StepInv(valid, After(valid, init, front).value, steps[|steps| - 1]);
    }
  }

  /** In every reachable state the stored configuration is valid, and the revision counts the
      commits, except between the write of a commit and its count. */
  lemma {:induction false} StoredConfigIsValid<C>(valid: C -> bool, init: State<C>, steps: seq<Step<C>>)
    requires Init(valid, init) && After(valid, init, steps).Some?
    ensures var s := After(valid, init, steps).value;
            && valid(s.config)
            && (s.writer.None? ==> s.revision == s.Commits() % REVISIONS)
            && (forall u :: u in s.updaters && s.updaters[u].Written? ==> s.revision == (s.Commits() - 1) % REVISIONS)
  {
    ReachableInv(valid, init, steps);
    var s := After(valid, init, steps).value;
    forall u | u in s.updaters && s.updaters[u].Written? ensures Counted(s) == s.Commits() - 1 {
      assert UpdaterOk(valid, s, u);
    }
  }

  lemma {:induction false} SameRevision(a: nat, b: nat)
    requires a <= b < a + REVISIONS && a % REVISIONS == b % REVISIONS
    ensures a == b
  {
    var d := b - a;
    assert b / REVISIONS * REVISIONS - a / REVISIONS * REVISIONS == d;
    assert d == (b / REVISIONS - a / REVISIONS) * REVISIONS;
  }

  /** Whenever no commit is in progress, a cache at rest that remembers the current revision was
      built from the current configuration, unless 2^64 commits passed since it loaded it. */
  lemma {:induction false} CurrentRevisionIsCurrentConfig<C>(
    valid: C -> bool, init: State<C>, steps: seq<Step<C>>, k: nat)
    requires Init(valid, init) && After(valid, init, steps).Some?
    requires var s := After(valid, init, steps).value;
             && k in s.caches && s.caches[k].phase.Resting? && s.caches[k].revision == s.revision
             && s.writer.None? && s.Commits() - s.caches[k].loadedAt < REVISIONS
    ensures var s := After(valid, init, steps).value; s.caches[k].builtFrom == s.config
  {
    ReachableInv(valid, init, steps);
    var s := After(valid, init, steps).value;
    assert CacheOk(s, k);
    SameRevision(s.caches[k].loadedAt, s.Commits());
  }

  /** Every cache holds a configuration that was valid and once stored. */
  lemma {:induction false} CachedConfigIsValid<C>(valid: C -> bool, init: State<C>, steps: seq<Step<C>>, k: nat)
    requires Init(valid, init) && After(valid, init, steps).Some? && k in After(valid, init, steps).value.caches
    ensures var s := After(valid, init, steps).value;
            valid(s.caches[k].builtFrom) && s.caches[k].builtFrom in s.history
  {
    ReachableInv(valid, init, steps);
    assert CacheOk(After(valid, init, steps).value, k);
  }

  /** Even during a commit such a cache is at most that one commit behind. */
  lemma {:induction false} AtMostOneCommitBehind<C>(
    valid: C -> bool, init: State<C>, steps: seq<Step<C>>, k: nat)
    requires Init(valid, init) && After(valid, init, steps).Some?
    requires var s := After(valid, init, steps).value;
             && k in s.caches && s.caches[k].revision == s.revision
             && s.Commits() - s.caches[k].loadedAt < REVISIONS
    ensures var s := After(valid, init, steps).value;
            && s.Commits() - 1 <= s.caches[k].builtAt < |s.history|
            && s.caches[k].builtFrom == s.history[s.caches[k].builtAt]
  {
    ReachableInv(valid, init, steps);
    var s := After(valid, init, steps).value;
    assert CacheOk(s, k);
    SameRevision(s.caches[k].loadedAt, Counted(s));
  }

  /** A refresh during which nothing commits leaves the cache with the current configuration. */
  lemma {:induction false} QuietRefreshCatchesUp<C>(
    valid: C -> bool, init: State<C>, steps: seq<Step<C>>, k: nat)
    requires Init(valid, init) && After(valid, init, steps).Some?
    requires var s := After(valid, init, steps).value;
             && k in s.caches && s.caches[k].phase.Resting? && s.writer.None?
             && s.Commits() - s.caches[k].loadedAt < REVISIONS
    ensures var s := After(valid, init, steps).value;
            var loaded := Do(valid, s, Load(k));
            if loaded.caches[k].phase.Resting? then loaded.caches[k].builtFrom == s.config
            else
              && Enabled(loaded, Read(k))
              && var read := Do(valid, loaded, Read(k));
                 && Enabled(read, Rebuild(k))
                 && var done := Do(valid, read, Rebuild(k));
                    done.caches[k].builtFrom == done.config == s.config && done.caches[k].revision == done.revision
  {
    var s := After(valid, init, steps).value;
    if s.revision == s.caches[k].revision {
      CurrentRevisionIsCurrentConfig(valid, init, steps, k);
    }
  }

  // ----- What an update applies to -----

  /** A commit stores the change applied to the configuration its copy was taken from; if no other
      commit came between, that is the configuration it replaces. */
  lemma {:induction false} CommitAppliesChange<C>(valid: C -> bool, init: State<C>, steps: seq<Step<C>>, u: nat)
    requires Init(valid, init) && After(valid, init, steps).Some?
    requires Enabled(After(valid, init, steps).value, Write(u))
    ensures var s := After(valid, init, steps).value;
            var p := s.updaters[u];
            && p.base < |s.history|
            && p.change(s.history[p.base]) == Some(Do(valid, s, Write(u)).config)
            && (p.base == s.Commits() ==> p.change(s.config) == Some(Do(valid, s, Write(u)).config))
  {
    ReachableInv(valid, init, steps);
    var s := After(valid, init, steps).value;
    assert UpdaterOk(valid, s, u);
  }

  lemma {:induction false} AfterOneMore<C>(valid: C -> bool, init: State<C>, steps: seq<Step<C>>, n: nat)
    requires n < |steps| && After(valid, init, steps[..n]).Some?
    requires Enabled(After(valid, init, steps[..n]).value, steps[n])
    ensures After(valid, init, steps[..n + 1]) == Some(Do(valid, After(valid, init, steps[..n]).value, steps[n]))
  {
    assert steps[..n + 1][..n] == steps[..n];
  }

  /** An interleaving of two updates: both copy before either commits. */
  function RacingUpdates<C>(u: nat, v: nat, a: Change<C>, b: Change<C>): seq<Step<C>> {
    [Copy(u, a), Copy(v, b), Apply(u), Apply(v), Check(u), Check(v),
     Lock(u), Write(u), Count(u), Unlock(u), Lock(v), Write(v), Count(v), Unlock(v)]
  }

  ghost predicate IsRace<C>(steps: seq<Step<C>>, u: nat, v: nat, a: Change<C>, b: Change<C>) {
    && |steps| == 14
    && steps[0] == Copy(u, a) && steps[1] == Copy(v, b)
    && steps[2] == Apply(u) && steps[3] == Apply(v)
    && steps[4] == Check(u) && steps[5] == Check(v)
    && steps[6] == Lock(u) && steps[7] == Write(u) && steps[8] == Count(u) && steps[9] == Unlock(u)
    && steps[10] == Lock(v) && steps[11] == Write(v) && steps[12] == Count(v) && steps[13] == Unlock(v)
  }

  lemma {:induction false} RaceSteps<C>(u: nat, v: nat, a: Change<C>, b: Change<C>)
    ensures IsRace(RacingUpdates(u, v, a, b), u, v, a, b)
  {
  }

  /** Two changes that both succeed on a configuration, with valid results. */
  ghost predicate Rivals<C>(valid: C -> bool, config: C, a: Change<C>, b: Change<C>, ca: C, cb: C) {
    a(config) == Some(ca) && valid(ca) && b(config) == Some(cb) && valid(cb)
  }

  /** A state in the race: nobody holds the lock, the two updates are where given. */
  ghost predicate RaceState<C>(s: State<C>, u: nat, v: nat, one: Updater<C>, two: Updater<C>, history: seq<C>) {
    && u != v
    && u in s.updaters && s.updaters[u] == one
    && v in s.updaters && s.updaters[v] == two
    && s.writer == None && s.history == history && history != [] && s.config == history[|history| - 1]
  }

  lemma {:induction false} BothCopy<C>(
    valid: C -> bool, init: State<C>, u: nat, v: nat, a: Change<C>, b: Change<C>, steps: seq<Step<C>>)
    requires RaceState(init, u, v, Idle, Idle, [init.config]) && IsRace(steps, u, v, a, b)
    ensures var s := After(valid, init, steps[..2]);
            s.Some? && RaceState(s.value, u, v, Copied(0, init.config, a), Copied(0, init.config, b), [init.config])
  {
    assert After(valid, init, steps[..0]) == Some(init);
    AfterOneMore(valid, init, steps, 0);
    AfterOneMore(valid, init, steps, 1);
  }

  lemma {:induction false} BothApply<C>(
    valid: C -> bool, init: State<C>, u: nat, v: nat, a: Change<C>, b: Change<C>, c: C, ca: C, cb: C,
    steps: seq<Step<C>>)
    requires IsRace(steps, u, v, a, b) && Rivals(valid, c, a, b, ca, cb)
    requires After(valid, init, steps[..2]).Some?
    requires RaceState(After(valid, init, steps[..2]).value, u, v, Copied(0, c, a), Copied(0, c, b), [c])
    ensures var s := After(valid, init, steps[..4]);
            s.Some? && RaceState(s.value, u, v, Changed(0, ca, a), Changed(0, cb, b), [c])
  {
    AfterOneMore(valid, init, steps, 2);
    AfterOneMore(valid, init, steps, 3);
  }

  lemma {:induction false} BothCheck<C>(
    valid: C -> bool, init: State<C>, u: nat, v: nat, a: Change<C>, b: Change<C>, c: C, ca: C, cb: C,
    steps: seq<Step<C>>)
    requires IsRace(steps, u, v, a, b) && Rivals(valid, c, a, b, ca, cb)
    requires After(valid, init, steps[..4]).Some?
    requires RaceState(After(valid, init, steps[..4]).value, u, v, Changed(0, ca, a), Changed(0, cb, b), [c])
    ensures var s := After(valid, init, steps[..6]);
            s.Some? && RaceState(s.value, u, v, Checked(0, ca, a), Checked(0, cb, b), [c])
  {
    AfterOneMore(valid, init, steps, 4);
    AfterOneMore(valid, init, steps, 5);
  }

  /** An undisturbed commit of a checked update stores its candidate. */
  lemma {:induction false} UndisturbedCommit<C>(valid: C -> bool, s: State<C>, u: nat)
    requires Enabled(s, Lock(u))
    ensures var locked := Do(valid, s, Lock(u));
            && Enabled(locked, Write(u))
            && var written := Do(valid, locked, Write(u));
               && Enabled(written, Count(u))
               && var counted := Do(valid, written, Count(u));
                  && Enabled(counted, Unlock(u))
                  && var t := Do(valid, counted, Unlock(u));
                     && t.config == s.updaters[u].candidate && t.history == s.history + [t.config]
                     && t.writer == None && t.updaters.Keys == s.updaters.Keys
                     && t.updaters[u] == Idle
                     && (forall v :: v in s.updaters && v != u ==> t.updaters[v] == s.updaters[v])
  {
  }

  lemma {:induction false} CommitInRun<C>(valid: C -> bool, init: State<C>, steps: seq<Step<C>>, n: nat, u: nat)
    requires n + 4 <= |steps|
    requires steps[n] == Lock(u) && steps[n + 1] == Write(u) && steps[n + 2] == Count(u) && steps[n + 3] == Unlock(u)
    requires After(valid, init, steps[..n]).Some? && Enabled(After(valid, init, steps[..n]).value, Lock(u))
    ensures var s := After(valid, init, steps[..n]).value;
            && After(valid, init, steps[..n + 4]).Some?
            && var t := After(valid, init, steps[..n + 4]).value;
               && t.config == s.updaters[u].candidate && t.history == s.history + [t.config]
               && t.writer == None && t.updaters.Keys == s.updaters.Keys
               && t.updaters[u] == Idle && (forall v :: v in s.updaters && v != u ==> t.updaters[v] == s.updaters[v])
  {
    UndisturbedCommit(valid, After(valid, init, steps[..n]).value, u);
    AfterOneMore(valid, init, steps, n);
    AfterOneMore(valid, init, steps, n + 1);
    AfterOneMore(valid, init, steps, n + 2);
    AfterOneMore(valid, init, steps, n + 3);
  }

  lemma {:induction false} FirstCommits<C>(
    valid: C -> bool, init: State<C>, u: nat, v: nat, a: Change<C>, b: Change<C>, c: C, ca: C, cb: C,
    steps: seq<Step<C>>)
    requires IsRace(steps, u, v, a, b) && After(valid, init, steps[..6]).Some?
    requires RaceState(After(valid, init, steps[..6]).value, u, v, Checked(0, ca, a), Checked(0, cb, b), [c])
    ensures var s := After(valid, init, steps[..10]);
            s.Some? && RaceState(s.value, u, v, Idle, Checked(0, cb, b), [c, ca])
  {
    CommitInRun(valid, init, steps, 6, u);
  }

  lemma {:induction false} SecondCommits<C>(
    valid: C -> bool, init: State<C>, u: nat, v: nat, a: Change<C>, b: Change<C>, c: C, ca: C, cb: C,
    steps: seq<Step<C>>)
    requires IsRace(steps, u, v, a, b) && After(valid, init, steps[..10]).Some?
    requires RaceState(After(valid, init, steps[..10]).value, u, v, Idle, Checked(0, cb, b), [c, ca])
    ensures var s := After(valid, init, steps);
            s.Some? && s.value.history == [c, ca, cb] && s.value.config == cb
  {
    CommitInRun(valid, init, steps, 10, v);
    assert steps[..14] == steps;
  }

  /** Two updates of which both take a copy before either commits: both succeed, and the second
      replaces the first.  What is stored in the end is the second change of the configuration that
      both started from. */
  lemma {:induction false} UpdatesMayBeLost<C>(
    valid: C -> bool, init: State<C>, u: nat, v: nat, a: Change<C>, b: Change<C>, ca: C, cb: C)
    requires Init(valid, init) && u in init.updaters && v in init.updaters && u != v
    requires Rivals(valid, init.config, a, b, ca, cb)
    ensures var s := After(valid, init, RacingUpdates(u, v, a, b));
            s.Some? && s.value.history == [init.config, ca, cb] && s.value.config == cb
  {
    var c, steps := init.config, RacingUpdates(u, v, a, b);
    RaceSteps(u, v, a, b);
    BothCopy(valid, init, u, v, a, b, steps);
    BothApply(valid, init, u, v, a, b, c, ca, cb, steps);
    BothCheck(valid, init, u, v, a, b, c, ca, cb, steps);
    FirstCommits(valid, init, u, v, a, b, c, ca, cb, steps);
    SecondCommits(valid, init, u, v, a, b, c, ca, cb, steps);
  }
}
