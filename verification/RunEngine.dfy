/** `_RunEngine`: the object whose methods build, skip and fingerprint one node after another. What it
    does with a single worker is a run of the step system, so everything proved of runs holds of it. */
module RunEngine {
  import opened Common
  import opened Names
  import opened RunModel
  import opened Dag
  import opened Packing
  import opened Scheduler
  import opened CachedRuns
  import CacheStore

  class Engine {
    const project: Project
    const mode: Mode
    const force: set<Name>
    const failFast: bool
    const eval: Eval
    const raises: map<Name, Debris>
    const cache: CacheStore.FingerprintCache<Fp>
    var computedFps: map<Name, Fp>
    var warehouse: map<Name, Table>

    /** `raises` holds the models that fail this time, or whose hooks do, with what they leave behind. */
    constructor (project: Project, mode: Mode, force: set<Name>, failFast: bool, eval: Eval, raises: map<Name, Debris>,
                 cache: CacheStore.FingerprintCache<Fp>, warehouse: map<Name, Table>)
      ensures this.project == project && this.mode == mode && this.force == force && this.failFast == failFast
      ensures this.eval == eval && this.raises == raises
      ensures this.cache == cache && this.warehouse == warehouse && computedFps == map[]
    {
      this.project, this.mode, this.force, this.failFast := project, mode, force, failFast;
      this.eval, this.raises := eval, raises;
      this.cache, this.warehouse, this.computedFps := cache, warehouse, map[];
    }

    ghost function Cfg(levels: seq<seq<Name>>): Config
      reads cache
    {
      Config(project, levels, mode, force, failFast, cache.entries, eval)
    }

    /** The object is where the step system is. */
    ghost predicate Mirrors(s: State)
      reads this
    {
      s.wh == warehouse && s.computed == computedFps
    }

    /** Once the dependencies are rightly fingerprinted, the candidate is the current fingerprint. */
    method MaybeFingerprint(n: Name) returns (fp: Fp)
      requires n in project.g
      ensures fp == Candidate(project, computedFps, cache.entries, n)
      ensures fp.Fp? && fp.kind == project.kind(n) && fp.node == n && fp.relation == RelationFor(n) &&
              fp.text == project.text(n) && fp.env == project.env && forall d :: d in fp.deps <==> d in project.g[n]
      ensures forall d | d in project.g[n] && d in computedFps :: fp.deps[d] == computedFps[d]
      ensures forall d | d in project.g[n] && d !in computedFps ::
                if d in cache.entries then fp.deps[d] == cache.entries[d] else fp.deps[d] == NoFp
      ensures ValidProject(project) &&
              (forall d | d in project.g[n] :: d in computedFps && computedFps[d] == TrueFp(project, d)) ==>
                fp == TrueFp(project, n)
    {
      fp := Candidate(project, computedFps, cache.entries, n);
      if ValidProject(project) &&
         forall d | d in project.g[n] :: d in computedFps && computedFps[d] == TrueFp(project, d) {
        CandidateIsTrue(project, computedFps, cache.entries, n);
      }
    }

    /** Decides the skip and, when skipping, records the fingerprint all the same. An ephemeral model has
        no relation to look for; a model without a fingerprint is never skipped. */
    method ShouldSkipNode(n: Name, fp: Option<Fp>, ephemeral: bool) returns (skip: bool)
      modifies this`computedFps
      ensures skip <==> fp.Some? && (mode == RW || mode == RO) && n in cache.entries && cache.entries[n] == fp.value &&
                        (ephemeral || RelationFor(n) in warehouse)
      ensures fp.Some? && !ephemeral ==> skip == CanSkip(mode, cache.entries, warehouse, n, fp.value)
      ensures computedFps == if skip then old(computedFps)[n := fp.value] else old(computedFps)
    {
      if fp.None? {
        return false;
      }
      var maySkip := mode == RW || mode == RO;
      if !maySkip {
        return false;
      }
      if !(n in cache.entries && cache.entries[n] == fp.value) {
        return false;
      }
      if !ephemeral && RelationFor(n) !in warehouse {
        return false;
      }
      StoreFingerprint(n, fp.value);
      return true;
    }

    method StoreFingerprint(n: Name, fp: Fp)
      modifies this`computedFps
      ensures computedFps == old(computedFps)[n := fp]
    {
      computedFps := computedFps[n := fp];
    }

    /** The model's inputs exist and it does not raise. */
    predicate Runs(n: Name)
      requires n in project.g
      reads this
    {
      n !in raises && Buildable(project, warehouse, n)
    }

    /** What a failing model leaves in its relation; a missing input is noticed before anything is written. */
    function Remains(n: Name): Debris {
      if n in raises then raises[n] else Untouched
    }

    /** The model with its hooks: its table in its relation, or whatever the failure left there. */
    method RunModel(n: Name) returns (ok: bool)
      requires n in project.g
      modifies this`warehouse
      ensures ok == old(Runs(n))
      ensures ok <==> n !in raises && forall d | d in project.g[n] :: RelationFor(d) in old(warehouse)
      ensures ok ==> warehouse == old(warehouse)[RelationFor(n) := Compute(eval, project, old(warehouse), n)]
      ensures !ok ==> warehouse == Litter(old(warehouse), RelationFor(n), Remains(n))
      ensures !ok && n !in raises ==> warehouse == old(warehouse)
      ensures !ok && n in raises ==> warehouse == Litter(old(warehouse), RelationFor(n), raises[n])
    {
      ok := n !in raises && forall d | d in project.g[n] :: RelationFor(d) in warehouse;
      if ok {
        warehouse := warehouse[RelationFor(n) := Compute(eval, project, warehouse, n)];
      } else {
        warehouse := Litter(warehouse, RelationFor(n), Remains(n));
      }
    }

    /** `_run_node_force_rebuild`: built first, fingerprinted afterwards. */
    method RunForced(n: Name) returns (ok: bool)
      requires n in project.g
      modifies this`computedFps, this`warehouse
      ensures ok == old(Runs(n))
      ensures ok ==> warehouse == old(warehouse)[RelationFor(n) := Compute(eval, project, old(warehouse), n)]
      ensures ok ==> computedFps == old(computedFps)[n := Candidate(project, old(computedFps), cache.entries, n)]
      ensures !ok ==> warehouse == Litter(old(warehouse), RelationFor(n), Remains(n)) && computedFps == old(computedFps)
    {
      ok := RunModel(n);
      if ok {
        var fp := MaybeFingerprint(n);
        StoreFingerprint(n, fp);
      }
    }

    /** The node is not forced and its cached fingerprint is the candidate one, over an existing relation. */
    predicate Skips(n: Name)
      requires n in project.g
      reads this, cache
    {
      n !in force && CanSkip(mode, cache.entries, warehouse, n, Candidate(project, computedFps, cache.entries, n))
    }

    /** A forced node is built, then fingerprinted; another one is fingerprinted, then skipped or built. */
    method RunNode(n: Name) returns (ok: bool)
      requires n in project.g
      modifies this`computedFps, this`warehouse
      ensures ok <==> old(Skips(n)) || old(Runs(n))
      ensures ok ==> warehouse == if old(Skips(n)) then old(warehouse)
                                  else old(warehouse)[RelationFor(n) := Compute(eval, project, old(warehouse), n)]
      ensures ok ==> computedFps == old(computedFps)[n := Candidate(project, old(computedFps), cache.entries, n)]
      ensures !ok ==> warehouse == Litter(old(warehouse), RelationFor(n), Remains(n)) && computedFps == old(computedFps)
    {
      if n in force {
        ok := RunForced(n);
        return;
      }
      var fp := MaybeFingerprint(n);
      var skip := ShouldSkipNode(n, Some(fp), false);
      if skip {
        return true;
      }
      ok := RunModel(n);
      if ok {
        StoreFingerprint(n, fp);
      }
    }

    // ---------- schedule with one worker ----------

    /** One node of a level: the step system gets where the object gets. */
    method RunNext(levels: seq<seq<Name>>, ghost s: State, n: Name, ghost batch: seq<Name>, ghost i: nat)
      returns (ok: bool, ghost t: State)
      requires n in project.g && Mirrors(s) && AtNode(s, batch, i) && batch[i] == n
      modifies this`computedFps, this`warehouse
      ensures LeadsTo(Cfg(levels), s, t) && Mirrors(t)
      ensures ok ==> t == Stored(s, batch, i, warehouse, computedFps)
      ensures !ok ==> t == Broken(s, batch, i, warehouse) && (n in raises || !Buildable(project, old(warehouse), n))
      ensures !ok && n !in raises ==> warehouse == old(warehouse)
    {
      ghost var c := Cfg(levels);
      ok := RunNode(n);
      if ok {
        NodeSucceeds(c, s, batch, i, warehouse);
        t := Stored(s, batch, i, warehouse, computedFps);
      } else {
        NodeFails(c, s, batch, i, Remains(n));
        t := Broken(s, batch, i, warehouse);
      }
    }

    /** One level, which `--jobs 1` makes a single batch: in order until node `at` fails, which is then the
        only failure recorded. With a truthful cache only a model that raises fails. */
    method RunLevel(levels: seq<seq<Name>>, k: nat, ghost wh0: map<Name, Table>, ghost s: State)
      returns (ok: bool, ghost t: State, ghost at: nat)
      requires k < |levels| && levels[k] != [] && ValidConfig(Cfg(levels))
      requires LeadsTo(Cfg(levels), Start(wh0), s) && Mirrors(s) && s.level == k && !s.open && s.failed == {}
      modifies this`computedFps, this`warehouse
      ensures LeadsTo(Cfg(levels), Start(wh0), t) && Mirrors(t)
      ensures ok ==> t.level == k + 1 && !t.open && t.failed == {}
      ensures !ok ==> Halted(t) && t.level == k && FailedAt(t, levels[k], at)
      ensures !ok ==> levels[k][at] in raises || (levels[k][at] in project.g && !Runs(levels[k][at]))
      ensures !ok && ValidRun(Cfg(levels), wh0) ==> levels[k][at] in raises
    {
      ghost var c := Cfg(levels);
      at := 0;
      var names := levels[k];
      OpensLevel(c, s, names);
      t := DoOpen(s, [names]);
      LeadsOn(c, Start(wh0), s, t);
      ok := true;
      for i := 0 to |names|
        invariant LeadsTo(c, Start(wh0), t) && Mirrors(t) && c == Cfg(levels)
        invariant t.open && t.level == k && t.failed == {} && t.observed == {} && Waits(t, names, i)
      {
        assert At(levels, k, names[i]);
        ghost var before := t;
        ok, t := RunNext(levels, before, names[i], names, i);
        LeadsOn(c, Start(wh0), before, t);
        if !ok {
          if ValidRun(c, wh0) && names[i] !in raises { InputsExist(c, wh0, before, names, i); }
          HaltsAfter(c, t, names, i);
          LeadsOn(c, Start(wh0), t, DoObserve(t, 0));
          t, at := DoObserve(t, 0), i;
          OnlyFailure(c, wh0, t, names, i);
          return;
        }
      }
      ClosesLevel(c, t, names);
      LeadsOn(c, Start(wh0), t, LevelClosed(t));
      t := LevelClosed(t);
    }

    /** `schedule` with one worker: level after level, until a node fails, which is then the only failure
        recorded. What it does is a run, so with a truthful cache a complete run leaves the warehouse rebuilt,
        whatever was skipped, and only a model that raises can stop it. */
    method Schedule(levels: seq<seq<Name>>) returns (ok: bool, ghost t: State)
      requires ValidProject(project) && Tidy(levels) && ByLongestChain(project.g, levels) && computedFps == map[]
      modifies this`computedFps, this`warehouse
      ensures LeadsTo(Cfg(levels), Start(old(warehouse)), t) && Mirrors(t)
      ensures if ok then Complete(Cfg(levels), t) else Halted(t) && t.level < |levels|
      ensures !ok ==> exists at: nat :: FailedAt(t, levels[t.level], at) && var n := levels[t.level][at];
                        (n in raises || (n in project.g && !Runs(n))) &&
                        (ValidRun(Cfg(levels), old(warehouse)) ==> n in raises)
      ensures ValidRun(Cfg(levels), old(warehouse)) && ok ==> Rebuilt(Cfg(levels), old(warehouse), t)
    {
      ghost var c, wh0 := Cfg(levels), warehouse;
      LevelsGiveValidConfig(c);
      t := Start(warehouse);
      assert Run(c, t, [], t);
      for k := 0 to |levels|
        invariant LeadsTo(c, Start(wh0), t) && Mirrors(t) && c == Cfg(levels)
        invariant t.level == k && !t.open && t.failed == {}
      {
        ghost var at;
        ok, t, at := RunLevel(levels, k, wh0, t);
        if !ok { return; }
      }
      ok := true;
      if ValidRun(c, wh0) {
        var steps :| Run(c, Start(wh0), steps, t);
        CachedRunIsRebuild(c, wh0, steps, t);
      }
    }

    /** The cache is written only after a run without failures, and only in a writing mode. */
    method PersistOnSuccess(failed: set<Key>)
      modifies cache
      ensures cache.entries == Persisted(mode, failed, old(cache.entries), computedFps)
      ensures cache.entries == if failed == {} && (mode == RW || mode == WO) then old(cache.entries) + computedFps
                               else old(cache.entries)
      ensures cache.disk == if failed == {} && (mode == RW || mode == WO)
                            then CacheStore.File(cache.version, cache.engine, cache.profile, cache.entries)
                            else old(cache.disk)
    {
      if failed == {} && (mode == RW || mode == WO) {
        cache.UpdateMany(computedFps);
        cache.Save();
      }
    }
  }

  // ---------- The steps behind the methods ----------

  ghost predicate Waits(s: State, batch: seq<Name>, i: nat) {
    |s.workers| == 1 && s.workers[0].batch == batch && s.workers[0].pos == i &&
    (s.workers[0].phase.Queued? || s.workers[0].phase.Idle?)
  }

  /** The only worker is about to begin node `i` of its batch. */
  ghost predicate AtNode(s: State, batch: seq<Name>, i: nat) {
    Waits(s, batch, i) && i < |batch|
  }

  /** The node has succeeded. */
  ghost function Stored(s: State, batch: seq<Name>, i: nat, wh: map<Name, Table>, computed: map<Name, Fp>): State
    requires i < |batch|
  {
    s.(workers := [Worker(batch, i + 1, Idle)], wh := wh, computed := computed, timed := s.timed + {batch[i]},
       log := s.log + [Started(batch[i])] + [Succeeded(batch[i])])
  }

  /** The node has failed. */
  ghost function Broken(s: State, batch: seq<Name>, i: nat, wh: map<Name, Table>): State
    requires i < |batch|
  {
    s.(workers := [Worker(batch, i, Crashed)], wh := wh, timed := s.timed + {batch[i]},
       log := s.log + [Started(batch[i])] + [Failed(batch[i])])
  }

  /** The node is running and at this stage. */
  ghost function Begun(s: State, batch: seq<Name>, i: nat, stage: Stage): State
    requires i < |batch|
  {
    s.(workers := [Worker(batch, i, Running(stage))], log := s.log + [Started(batch[i])])
  }

  lemma {:induction false} BeginsNode(c: Config, s: State, batch: seq<Name>, i: nat)
    requires AtNode(s, batch, i)
    ensures CanBegin(s, 0) && DoBegin(s, 0) == Begun(s, batch, i, Stage.Begun)
  {
    assert s.workers == [s.workers[0]];
  }

  lemma {:induction false} StoresNode(c: Config, s: State, batch: seq<Name>, i: nat, wh: map<Name, Table>, fp: Fp)
    requires i < |batch| && batch[i] in c.project.g
    ensures LeadsTo(c, Begun(s, batch, i, ToStore(fp)).(wh := wh), Stored(s, batch, i, wh, s.computed[batch[i] := fp]))
  {
    var mid := Begun(s, batch, i, ToStore(fp)).(wh := wh);
    var end := Stored(s, batch, i, wh, s.computed[batch[i] := fp]);
    assert DoStore(c, mid, 0).workers == end.workers;
    assert Run(c, end, [], end);
    OneStep(c, mid, Store(0), end);
  }

  lemma {:induction false} BuildsNode(c: Config, s: State, batch: seq<Name>, i: nat, fp: Fp, wh: map<Name, Table>)
    requires i < |batch| && batch[i] in c.project.g && Buildable(c.project, s.wh, batch[i])
    requires fp == Candidate(c.project, s.computed, c.cache, batch[i])
    requires wh == s.wh[RelationFor(batch[i]) := Compute(c.eval, c.project, s.wh, batch[i])]
    ensures batch[i] !in c.force ==>
              LeadsTo(c, Begun(s, batch, i, ToBuild(fp)), Stored(s, batch, i, wh, s.computed[batch[i] := fp]))
    ensures batch[i] in c.force ==>
              LeadsTo(c, Begun(s, batch, i, Stage.Begun), Stored(s, batch, i, wh, s.computed[batch[i] := fp]))
  {
    var end := Stored(s, batch, i, wh, s.computed[batch[i] := fp]);
    var built := Begun(s, batch, i, ToStore(fp)).(wh := wh);
    StoresNode(c, s, batch, i, wh, fp);
    if batch[i] in c.force {
      var mid, forced := Begun(s, batch, i, Stage.Begun), Begun(s, batch, i, ForceBuilt).(wh := wh);
      assert DoBuild(c, mid, 0).workers == forced.workers;
      assert DoRefingerprint(c, forced, 0).workers == built.workers;
      OneStep(c, forced, Refingerprint(0), end);
      OneStep(c, mid, Build(0), end);
    } else {
      var mid := Begun(s, batch, i, ToBuild(fp));
      assert DoBuild(c, mid, 0).workers == built.workers;
      OneStep(c, mid, Build(0), end);
    }
  }

  ghost predicate SkipsNow(c: Config, s: State, n: Name)
    requires n in c.project.g
  {
    n !in c.force && CanSkip(c.mode, c.cache, s.wh, n, Candidate(c.project, s.computed, c.cache, n))
  }

  lemma {:induction false} NodeSucceeds(c: Config, s: State, batch: seq<Name>, i: nat, wh: map<Name, Table>)
    requires AtNode(s, batch, i) && batch[i] in c.project.g
    requires SkipsNow(c, s, batch[i]) || Buildable(c.project, s.wh, batch[i])
    requires wh == if SkipsNow(c, s, batch[i]) then s.wh
                   else s.wh[RelationFor(batch[i]) := Compute(c.eval, c.project, s.wh, batch[i])]
    ensures var fp := Candidate(c.project, s.computed, c.cache, batch[i]);
            LeadsTo(c, s, Stored(s, batch, i, wh, s.computed[batch[i] := fp]))
  {
    var fp := Candidate(c.project, s.computed, c.cache, batch[i]);
    var end := Stored(s, batch, i, wh, s.computed[batch[i] := fp]);
    var begun := Begun(s, batch, i, Stage.Begun);
    BeginsNode(c, s, batch, i);
    if batch[i] in c.force {
      BuildsNode(c, s, batch, i, fp, wh);
    } else {
      var next := Begun(s, batch, i, if SkipsNow(c, s, batch[i]) then ToStore(fp) else ToBuild(fp));
      assert DoCheck(c, begun, 0).workers == next.workers;
      if SkipsNow(c, s, batch[i]) { StoresNode(c, s, batch, i, wh, fp); } else { BuildsNode(c, s, batch, i, fp, wh); }
      OneStep(c, begun, Check(0), end);
    }
    OneStep(c, s, Begin(0), end);
  }

  lemma {:induction false} NodeFails(c: Config, s: State, batch: seq<Name>, i: nat, debris: Debris)
    requires AtNode(s, batch, i)
    ensures LeadsTo(c, s, Broken(s, batch, i, Litter(s.wh, RelationFor(batch[i]), debris)))
  {
    var end := Broken(s, batch, i, Litter(s.wh, RelationFor(batch[i]), debris));
    var begun := Begun(s, batch, i, Stage.Begun);
    BeginsNode(c, s, batch, i);
    assert DoCrash(begun, 0, debris).workers == end.workers;
    assert Run(c, end, [], end);
    OneStep(c, begun, Crash(0, debris), end);
    OneStep(c, s, Begin(0), end);
  }

  /** In a sound run the inputs of a node that begins exist. */
  lemma {:induction false} InputsExist(c: Config, wh0: map<Name, Table>, s: State, batch: seq<Name>, i: nat)
    requires ValidRun(c, wh0) && LeadsTo(c, Start(wh0), s) && AtNode(s, batch, i)
    ensures batch[i] in c.project.g && Buildable(c.project, s.wh, batch[i])
  {
    var steps :| Run(c, Start(wh0), steps, s);
    BeginsNode(c, s, batch, i);
    AnyRunIsSound(c, wh0, steps, s);
    StepKeepsInv(c, s, Begin(0));
    StepKeepsContent(c, s, wh0, Begin(0));
    DepsRight(c, DoBegin(s, 0), wh0, 0);
    ComputeIsRebuild(c, DoBegin(s, 0), batch[i]);
  }

  lemma {:induction false} OpensLevel(c: Config, s: State, names: seq<Name>)
    requires !s.open && s.failed == {} && s.level < |c.levels| && c.levels[s.level] == names
    ensures LeadsTo(c, s, DoOpen(s, [names])) && DoOpen(s, [names]).workers == [Worker(names, 0, Queued)]
  {
    assert Flatten([names]) == names + Flatten([]) == names;
    var end := DoOpen(s, [names]);
    assert Run(c, end, [], end);
    OneStep(c, s, Open([names]), end);
  }

  /** The collecting thread sees the failure. */
  lemma {:induction false} HaltsAfter(c: Config, s: State, names: seq<Name>, i: nat)
    requires s.open && s.observed == {} && i < |names| && s.workers == [Worker(names, i, Crashed)]
    ensures LeadsTo(c, s, DoObserve(s, 0)) && Halted(DoObserve(s, 0))
    ensures DoObserve(s, 0).workers == s.workers && DoObserve(s, 0).level == s.level
  {
    var end := DoObserve(s, 0);
    assert NodeKey(names[i]) in Outcomes(s, 0);
    assert Run(c, end, [], end);
    OneStep(c, s, Observe(0), end);
  }

  /** Node `at` of the level is the only one recorded as failed: those before it succeeded, those after it
      were not started. */
  ghost predicate FailedAt(t: State, names: seq<Name>, at: nat) {
    at < |names| && t.failed == {NodeKey(names[at])} && Failed(names[at]) in t.log &&
    (forall i | 0 <= i < at :: Succeeded(names[i]) in t.log) &&
    forall i | at < i < |names| :: Started(names[i]) !in t.log
  }

  lemma {:induction false} OnlyFailure(c: Config, wh0: map<Name, Table>, t: State, names: seq<Name>, i: nat)
    requires ValidConfig(c) && LeadsTo(c, Start(wh0), t) && Halted(t)
    requires i < |names| && t.workers == [Worker(names, i, Crashed)]
    ensures FailedAt(t, names, i)
  {
    var steps :| Run(c, Start(wh0), steps, t);
    LevelAccounting(c, wh0, steps, t);
    StartInv(c, wh0);
    RunKeepsInv(c, Start(wh0), steps, t);
    OnlyFailureRecorded(c, t, names, i);
  }

  lemma {:induction false} OnlyFailureRecorded(c: Config, t: State, names: seq<Name>, i: nat)
    requires Inv(c, t) && LevelOver(t) && t.level < |c.levels| && Scheduler.Balanced(c, t)
    requires i < |names| && t.workers == [Worker(names, i, Crashed)]
    ensures FailedAt(t, names, i)
  {
    CrashedBatch(c, t, names, i);
    forall key | key in t.failed ensures key == NodeKey(names[i]) { OnlyKey(c, t, names, i, key); }
    assert NodeKey(names[i]) in t.failed;
  }

  lemma {:induction false} CrashedBatch(c: Config, t: State, names: seq<Name>, i: nat)
    requires Inv(c, t) && i < |names| && t.workers == [Worker(names, i, Crashed)]
    ensures Failed(names[i]) in t.log && forall k | 0 <= k < i :: Succeeded(names[k]) in t.log
    ensures forall k | i < k < |names| :: Started(names[k]) !in t.log
    ensures forall k | 0 <= k < |names| && Failed(names[k]) in t.log :: k == i
  {
    assert WorkerOk(c, t.log, t.workers[0]);
  }

  lemma {:induction false} OnlyKey(c: Config, t: State, names: seq<Name>, i: nat, key: Key)
    requires Inv(c, t) && LevelOver(t) && t.level < |c.levels| && Scheduler.Balanced(c, t) && key in t.failed
    requires i < |names| && t.workers == [Worker(names, i, Crashed)]
    ensures key == NodeKey(names[i])
  {
    assert key.NodeKey? && Failed(key.n) in t.log;
    assert At(c.levels, t.level, key.n);
    var j: nat :| j < |t.workers| && key.n in t.workers[j].batch;
    var k :| 0 <= k < |names| && names[k] == key.n;
    CrashedBatch(c, t, names, i);
  }

  ghost function LevelClosed(s: State): State
    requires |s.workers| == 1
  {
    DoClose(SetPhase(s, 0, Finished).(observed := s.observed + {0}))
  }

  lemma {:induction false} ClosesLevel(c: Config, s: State, names: seq<Name>)
    requires s.open && s.observed == {} && s.failed == {} && s.level < |c.levels| && Waits(s, names, |names|)
    ensures LeadsTo(c, s, LevelClosed(s))
  {
    var end := LevelClosed(s);
    var finished := SetPhase(s, 0, Finished);
    var seen := DoObserve(finished, 0);
    assert Outcomes(finished, 0) == {};
    assert seen.failed == {};
    assert Run(c, end, [], end);
    OneStep(c, seen, Close, end);
    OneStep(c, finished, Observe(0), end);
    OneStep(c, s, End(0), end);
  }
}
