/** Runs that skip nodes leave the same warehouse as a rebuild, whatever the interleaving. */
module CachedRuns {
  import opened Names
  import opened Graphs
  import opened RunModel
  import opened Dag
  import opened Scheduler
  import opened Packing

  /** No two of the names are stored in the same relation. */
  ghost predicate InjectiveRelations(names: set<Name>) {
    forall a, b | a in names && b in names && RelationFor(a) == RelationFor(b) :: a == b
  }

  /** Two selected names collide iff one is another one followed by ".ff". */
  lemma {:induction false} InjectiveRelationsIff(names: set<Name>)
    ensures InjectiveRelations(names) <==> forall a, b | a in names && b in names :: !Suffixed(a, b)
  {
    forall a, b | a in names && b in names && a != b
      ensures RelationFor(a) == RelationFor(b) <==> Suffixed(a, b) || Suffixed(b, a)
    {
      SharedRelationIff(a, b);
    }
    forall a ensures !Suffixed(a, a) { assert |a.text + ".ff"| != |a.text|; }
  }

  /** Every cached fingerprint stands for what its relation holds, if the relation exists. */
  ghost predicate Agrees(eval: Eval, cache: map<Name, Fp>, wh: map<Name, Table>) {
    forall n | n in cache && RelationFor(n) in wh :: wh[RelationFor(n)] == Denote(eval, cache[n])
  }

  /** What a run needs from its surroundings. The agreement only matters if nodes may be skipped. */
  ghost predicate ValidRun(c: Config, wh0: map<Name, Table>) {
    ValidConfig(c) && InjectiveRelations(c.project.g.Keys) &&
    (c.mode == RW || c.mode == RO ==> Agrees(c.eval, c.cache, wh0))
  }

  ghost predicate Same(wh: map<Name, Table>, wh0: map<Name, Table>, r: Name) {
    (r in wh <==> r in wh0) && (r in wh ==> wh[r] == wh0[r])
  }

  ghost predicate Built(c: Config, wh: map<Name, Table>, n: Name)
    requires ValidProject(c.project)
  {
    n in c.project.g && RelationFor(n) in wh && wh[RelationFor(n)] == Rebuild(c.eval, c.project, n)
  }

  ghost predicate DoneRight(c: Config, s: State, n: Name)
    requires ValidProject(c.project)
  {
    Built(c, s.wh, n) && n in s.computed && s.computed[n] == TrueFp(c.project, n)
  }

  ghost predicate StageRight(c: Config, wh: map<Name, Table>, wh0: map<Name, Table>, n: Name, stage: Stage)
    requires ValidProject(c.project)
  {
    n in c.project.g &&
    match stage
    case Begun => Same(wh, wh0, RelationFor(n))
    case ToBuild(fp) => fp == TrueFp(c.project, n)
    case ToStore(fp) => fp == TrueFp(c.project, n) && Built(c, wh, n)
    case ForceBuilt => Built(c, wh, n)
  }

  ghost predicate Touched(log: seq<Event>, r: Name) {
    exists n :: Started(n) in log && RelationFor(n) == r
  }

  ghost predicate Content(c: Config, s: State, wh0: map<Name, Table>)
    requires ValidProject(c.project)
  {
    (forall n | Succeeded(n) in s.log :: DoneRight(c, s, n)) &&
    (forall n | n in s.computed :: Succeeded(n) in s.log) &&
    (forall j: nat | IsRunning(s, j) :: StageRight(c, s.wh, wh0, Current(s, j), s.workers[j].phase.stage)) &&
    forall r | !Touched(s.log, r) :: Same(s.wh, wh0, r)
  }

  // ---------- The current node and the others ----------

  /** The facts about the node worker `j` is running. */
  lemma {:induction false} CurrentFacts(c: Config, s: State, j: nat)
    requires ValidConfig(c) && Inv(c, s) && IsRunning(s, j)
    ensures var n := Current(s, j);
            n in c.project.g && Started(n) in s.log && Succeeded(n) !in s.log && Failed(n) !in s.log &&
            (forall d | d in c.project.g[n] :: Succeeded(d) in s.log) &&
            forall k: nat | IsRunning(s, k) && k != j :: Current(s, k) != n
  {
    var w := s.workers[j];
    assert WorkerOk(c, s.log, w);
    BatchFacts(c, s, j, w.pos);
    forall d | d in c.project.g[w.batch[w.pos]] ensures Succeeded(d) in s.log {
      assert Before(c.levels, s.level, d);
      var i :| i < s.level && At(c.levels, i, d);
    }
    forall k: nat | IsRunning(s, k) && k != j ensures Current(s, k) != Current(s, j) {
      assert Current(s, k) in s.workers[k].batch && Current(s, j) in s.workers[j].batch;
    }
  }

  /** With all dependencies rightly fingerprinted, the candidate is the true fingerprint ... */
  lemma {:induction false} CandidateIsTrue(p: Project, computed: map<Name, Fp>, cache: map<Name, Fp>, n: Name)
    requires ValidProject(p) && n in p.g
    requires forall d | d in p.g[n] :: d in computed && computed[d] == TrueFp(p, d)
    ensures Candidate(p, computed, cache, n) == TrueFp(p, n)
  {
    assert (map d | d in p.g[n] :: DepFp(computed, cache, d)) == map d | d in p.g[n] :: TrueFp(p, d);
  }

  /** ... and the table a model computes is the rebuilt one. */
  lemma {:induction false} ComputeIsRebuild(c: Config, s: State, n: Name)
    requires ValidProject(c.project) && n in c.project.g
    requires forall d | d in c.project.g[n] :: DoneRight(c, s, d)
    ensures Buildable(c.project, s.wh, n)
    ensures Compute(c.eval, c.project, s.wh, n) == Rebuild(c.eval, c.project, n)
  {
    var p := c.project;
    forall d | d in p.g[n] ensures Built(c, s.wh, d) { assert DoneRight(c, s, d); }
    assert (map d | d in p.g[n] :: s.wh[RelationFor(d)]) == map d | d in p.g[n] :: Rebuild(c.eval, p, d);
  }

  /** A skipped node's relation is the rebuilt one. */
  lemma {:induction false} SkipIsSound(c: Config, wh: map<Name, Table>, wh0: map<Name, Table>, n: Name)
    requires ValidRun(c, wh0) && n in c.project.g && Same(wh, wh0, RelationFor(n))
    requires CanSkip(c.mode, c.cache, wh, n, TrueFp(c.project, n))
    ensures Built(c, wh, n)
  {
    TrueFpDenotesRebuild(c.eval, c.project, n);
  }

  // ---------- Steps ----------

  /** A step that only moves worker `j` to another stage. */
  lemma {:induction false} StageStep(c: Config, s: State, wh0: map<Name, Table>, j: nat, stage: Stage)
    requires ValidConfig(c) && Content(c, s, wh0) && IsRunning(s, j)
    requires StageRight(c, s.wh, wh0, Current(s, j), stage)
    ensures Content(c, SetPhase(s, j, Running(stage)), wh0)
  {
    var t := SetPhase(s, j, Running(stage));
    forall k: nat | IsRunning(t, k) ensures StageRight(c, t.wh, wh0, Current(t, k), t.workers[k].phase.stage) {
      if k != j { assert IsRunning(s, k); }
    }
    forall n | Succeeded(n) in t.log ensures DoneRight(c, t, n) { assert DoneRight(c, s, n); }
  }

  /** Writing the relation of a started node that is not done concerns nobody else. */
  lemma {:induction false} WriteKeepsOthers(c: Config, s: State, wh0: map<Name, Table>, wh: map<Name, Table>, n: Name,
                                            m: Name)
    requires ValidRun(c, wh0) && n in c.project.g && m in c.project.g && m != n
    requires forall r | r != RelationFor(n) :: Same(wh, s.wh, r)
    ensures Same(wh, s.wh, RelationFor(m))
  {
    assert n in c.project.g.Keys && m in c.project.g.Keys;
  }

  /** The warehouse part of a step: only the current node's relation is written. */
  lemma {:induction false} WriteStep(c: Config, s: State, wh0: map<Name, Table>, j: nat, wh: map<Name, Table>,
                                     phase: Phase)
    requires ValidRun(c, wh0) && Inv(c, s) && Content(c, s, wh0) && IsRunning(s, j)
    requires forall r | r != RelationFor(Current(s, j)) :: Same(wh, s.wh, r)
    requires phase.Running? ==> StageRight(c, wh, wh0, Current(s, j), phase.stage)
    ensures Content(c, SetPhase(s, j, phase).(wh := wh), wh0)
  {
    var n, t := Current(s, j), SetPhase(s, j, phase).(wh := wh);
    CurrentFacts(c, s, j);
    forall m | Succeeded(m) in t.log ensures DoneRight(c, t, m) {
      assert DoneRight(c, s, m);
      WriteKeepsOthers(c, s, wh0, wh, n, m);
    }
    forall k: nat | IsRunning(t, k) ensures StageRight(c, wh, wh0, Current(t, k), t.workers[k].phase.stage) {
      if k != j {
        assert IsRunning(s, k);
        WriteKeepsOthers(c, s, wh0, wh, n, Current(s, k));
      }
    }
    forall r | !Touched(t.log, r) ensures Same(wh, wh0, r) {
      assert r != RelationFor(n);
      assert Same(s.wh, wh0, r) && Same(wh, s.wh, r);
    }
  }

  lemma {:induction false} DepsRight(c: Config, s: State, wh0: map<Name, Table>, j: nat)
    requires ValidConfig(c) && Inv(c, s) && Content(c, s, wh0) && IsRunning(s, j)
    ensures Current(s, j) in c.project.g
    ensures forall d | d in c.project.g[Current(s, j)] :: DoneRight(c, s, d)
  {
    CurrentFacts(c, s, j);
  }

  lemma {:induction false} CheckRight(c: Config, s: State, wh0: map<Name, Table>, j: nat)
    requires ValidRun(c, wh0) && Inv(c, s) && Content(c, s, wh0) && CanCheck(c, s, j)
    ensures Content(c, DoCheck(c, s, j), wh0)
  {
    var n := Current(s, j);
    DepsRight(c, s, wh0, j);
    assert forall d | d in c.project.g[n] :: DoneRight(c, s, d);
    CandidateIsTrue(c.project, s.computed, c.cache, n);
    assert StageRight(c, s.wh, wh0, n, s.workers[j].phase.stage);
    var fp := TrueFp(c.project, n);
    if CanSkip(c.mode, c.cache, s.wh, n, fp) {
      SkipIsSound(c, s.wh, wh0, n);
      StageStep(c, s, wh0, j, ToStore(fp));
    } else {
      StageStep(c, s, wh0, j, ToBuild(fp));
    }
  }

  lemma {:induction false} RefingerprintRight(c: Config, s: State, wh0: map<Name, Table>, j: nat)
    requires ValidRun(c, wh0) && Inv(c, s) && Content(c, s, wh0) && CanRefingerprint(c, s, j)
    ensures Content(c, DoRefingerprint(c, s, j), wh0)
  {
    var n := Current(s, j);
    DepsRight(c, s, wh0, j);
    assert forall d | d in c.project.g[n] :: DoneRight(c, s, d);
    CandidateIsTrue(c.project, s.computed, c.cache, n);
    assert StageRight(c, s.wh, wh0, n, s.workers[j].phase.stage);
    StageStep(c, s, wh0, j, ToStore(TrueFp(c.project, n)));
  }

  lemma {:induction false} BuildRight(c: Config, s: State, wh0: map<Name, Table>, j: nat)
    requires ValidRun(c, wh0) && Inv(c, s) && Content(c, s, wh0) && CanBuild(c, s, j)
    ensures Content(c, DoBuild(c, s, j), wh0)
  {
    var n := Current(s, j);
    DepsRight(c, s, wh0, j);
    ComputeIsRebuild(c, s, n);
    assert StageRight(c, s.wh, wh0, n, s.workers[j].phase.stage);
    var wh, phase := s.wh[RelationFor(n) := Compute(c.eval, c.project, s.wh, n)], DoBuild(c, s, j).workers[j].phase;
    assert Built(c, wh, n) && StageRight(c, wh, wh0, n, phase.stage);
    WriteStep(c, s, wh0, j, wh, phase);
  }

  lemma {:induction false} CrashRight(c: Config, s: State, wh0: map<Name, Table>, j: nat, debris: Debris)
    requires ValidRun(c, wh0) && Inv(c, s) && Content(c, s, wh0) && IsRunning(s, j)
    ensures Content(c, DoCrash(s, j, debris), wh0)
  {
    var n, t := Current(s, j), DoCrash(s, j, debris);
    var mid := SetPhase(s, j, Crashed).(wh := t.wh);
    WriteStep(c, s, wh0, j, t.wh, Crashed);
    LogRight(c, mid, wh0, Failed(n));
    TimedIsNoContent(c, mid.(log := t.log), wh0, t.timed);
  }

  lemma {:induction false} TimedIsNoContent(c: Config, s: State, wh0: map<Name, Table>, timed: set<Name>)
    requires ValidConfig(c) && Content(c, s, wh0)
    ensures Content(c, s.(timed := timed), wh0)
  {
    IdleRight(c, s, wh0, s.(timed := timed));
  }

  lemma {:induction false} TouchedGrows(log: seq<Event>, e: Event)
    ensures forall r | Touched(log, r) :: Touched(log + [e], r)
  {
    forall r | Touched(log, r) ensures Touched(log + [e], r) {
      var n :| Started(n) in log && RelationFor(n) == r;
      assert Started(n) in log + [e];
    }
  }

  /** An event other than a success, about a node that was started before or starts now. */
  lemma {:induction false} LogRight(c: Config, s: State, wh0: map<Name, Table>, e: Event)
    requires ValidConfig(c) && Content(c, s, wh0) && !e.Succeeded?
    ensures Content(c, s.(log := s.log + [e]), wh0)
  {
    var t := s.(log := s.log + [e]);
    forall n | Succeeded(n) in t.log ensures DoneRight(c, t, n) { assert DoneRight(c, s, n); }
    TouchedGrows(s.log, e);
    forall j: nat | IsRunning(t, j) ensures StageRight(c, t.wh, wh0, Current(t, j), t.workers[j].phase.stage) {
      assert IsRunning(s, j);
    }
  }

  lemma {:induction false} StoreRight(c: Config, s: State, wh0: map<Name, Table>, j: nat)
    requires ValidRun(c, wh0) && Inv(c, s) && Content(c, s, wh0) && CanStore(c, s, j)
    ensures Content(c, DoStore(c, s, j), wh0)
  {
    var n, t := Current(s, j), DoStore(c, s, j);
    assert StageRight(c, s.wh, wh0, n, s.workers[j].phase.stage);
    forall m | Succeeded(m) in t.log ensures DoneRight(c, t, m) { StoreDone(c, s, wh0, j, m); }
    assert forall r | !Touched(t.log, r) :: Same(t.wh, wh0, r) by { TouchedGrows(s.log, Succeeded(n)); }
    forall k: nat | IsRunning(t, k) ensures StageRight(c, t.wh, wh0, Current(t, k), t.workers[k].phase.stage) {
      StoreOthers(c, s, j, k);
    }
  }

  lemma {:induction false} StoreDone(c: Config, s: State, wh0: map<Name, Table>, j: nat, m: Name)
    requires ValidConfig(c) && Content(c, s, wh0) && CanStore(c, s, j)
    requires StageRight(c, s.wh, wh0, Current(s, j), s.workers[j].phase.stage)
    requires Succeeded(m) in DoStore(c, s, j).log
    ensures DoneRight(c, DoStore(c, s, j), m)
  {
    if m != Current(s, j) { assert DoneRight(c, s, m); }
  }

  lemma {:induction false} StoreOthers(c: Config, s: State, j: nat, k: nat)
    requires CanStore(c, s, j) && IsRunning(DoStore(c, s, j), k)
    ensures IsRunning(s, k) && DoStore(c, s, j).workers[k] == s.workers[k]
  {
  }

  /** The node that starts has not been written: its relation is as it was before the run. */
  lemma {:induction false} BeginRight(c: Config, s: State, wh0: map<Name, Table>, j: nat)
    requires ValidRun(c, wh0) && Inv(c, s) && Content(c, s, wh0) && CanBegin(s, j)
    ensures Content(c, DoBegin(s, j), wh0)
  {
    var w := s.workers[j];
    var n, t := w.batch[w.pos], DoBegin(s, j);
    BatchFacts(c, s, j, w.pos);
    assert n in c.project.g && Started(n) !in s.log by { assert WorkerOk(c, s.log, w); }
    assert !Touched(s.log, RelationFor(n)) by {
      forall m | Started(m) in s.log ensures RelationFor(m) != RelationFor(n) {
        assert m in c.project.g.Keys && n in c.project.g.Keys;
      }
    }
    assert Same(s.wh, wh0, RelationFor(n));
    var mid := SetPhase(s, j, Running(Begun));
    forall k: nat | IsRunning(mid, k) ensures StageRight(c, mid.wh, wh0, Current(mid, k), mid.workers[k].phase.stage) {
      if k != j { assert IsRunning(s, k); }
    }
    forall m | Succeeded(m) in mid.log ensures DoneRight(c, mid, m) { assert DoneRight(c, s, m); }
    LogRight(c, mid, wh0, Started(n));
  }

  /** Steps that change neither the log, nor the warehouse, nor a running node. */
  lemma {:induction false} IdleRight(c: Config, s: State, wh0: map<Name, Table>, t: State)
    requires ValidConfig(c) && Content(c, s, wh0)
    requires t.wh == s.wh && t.log == s.log && t.computed == s.computed
    requires forall k: nat | IsRunning(t, k) :: IsRunning(s, k) && t.workers[k] == s.workers[k]
    ensures Content(c, t, wh0)
  {
    forall n | Succeeded(n) in t.log ensures DoneRight(c, t, n) { assert DoneRight(c, s, n); }
  }

  lemma {:induction false} StepKeepsContent(c: Config, s: State, wh0: map<Name, Table>, step: Step)
    requires ValidRun(c, wh0) && Inv(c, s) && Content(c, s, wh0) && Enabled(c, s, step)
    ensures Content(c, Do(c, s, step), wh0)
  {
    match step
    case Begin(j) => BeginRight(c, s, wh0, j);
    case Check(j) => CheckRight(c, s, wh0, j);
    case Build(j) => BuildRight(c, s, wh0, j);
    case Refingerprint(j) => RefingerprintRight(c, s, wh0, j);
    case Store(j) => StoreRight(c, s, wh0, j);
    case Crash(j, debris) => CrashRight(c, s, wh0, j, debris);
    case _ => IdleStep(c, s, wh0, step);
  }

  lemma {:induction false} IdleStep(c: Config, s: State, wh0: map<Name, Table>, step: Step)
    requires ValidConfig(c) && Content(c, s, wh0) && Enabled(c, s, step)
    requires step.Open? || step.End? || step.Cancel? || step.Observe? || step.Close?
    ensures Content(c, Do(c, s, step), wh0)
  {
    IdleRight(c, s, wh0, Do(c, s, step));
  }

  lemma {:induction false} StartContent(c: Config, wh0: map<Name, Table>)
    requires ValidConfig(c)
    ensures Content(c, Start(wh0), wh0)
  {
  }

  lemma {:induction false} RunKeepsContent(c: Config, s: State, wh0: map<Name, Table>, steps: seq<Step>, t: State)
    requires ValidRun(c, wh0) && Inv(c, s) && Content(c, s, wh0) && Run(c, s, steps, t)
    ensures Inv(c, t) && Content(c, t, wh0)
    decreases |steps|
  {
    if steps != [] {
      StepKeepsInv(c, s, steps[0]);
      StepKeepsContent(c, s, wh0, steps[0]);
      RunKeepsContent(c, Do(c, s, steps[0]), wh0, steps[1..], t);
    }
  }

  /** Every run, also one that fails or is still going on: what succeeded is right, and what has not
      been started is as it was. */
  lemma {:induction false} AnyRunIsSound(c: Config, wh0: map<Name, Table>, steps: seq<Step>, t: State)
    requires ValidRun(c, wh0) && Run(c, Start(wh0), steps, t)
    ensures Inv(c, t) && Content(c, t, wh0)
  {
    StartInv(c, wh0);
    StartContent(c, wh0);
    RunKeepsContent(c, Start(wh0), wh0, steps, t);
  }

  /** Nor do other workers, whatever they do or leave, prevent a model from being built. */
  lemma {:induction false} BuildIsNotPrevented(c: Config, s: State, wh0: map<Name, Table>, a: Step, j: nat)
    requires ValidRun(c, wh0) && Inv(c, s) && Content(c, s, wh0) && CanBuild(c, s, j)
    requires Enabled(c, s, a) && !a.Open? && !a.Close? && a.j != j
    ensures CanBuild(c, Do(c, s, a), j)
  {
    var t := Do(c, s, a);
    StepKeepsInv(c, s, a);
    StepKeepsContent(c, s, wh0, a);
    assert t.workers[j] == s.workers[j];
    InputsAreThere(c, t, wh0, j);
  }

  lemma {:induction false} InputsAreThere(c: Config, s: State, wh0: map<Name, Table>, j: nat)
    requires ValidRun(c, wh0) && Inv(c, s) && Content(c, s, wh0) && IsRunning(s, j)
    ensures AtStage(c, s, j) && Buildable(c.project, s.wh, Current(s, j))
  {
    DepsRight(c, s, wh0, j);
    ComputeIsRebuild(c, s, Current(s, j));
  }

  // ---------- Complete runs ----------

  /** A relation that belongs to no model of the project. */
  ghost predicate Foreign(p: Project, r: Name) {
    forall n | n in p.g :: RelationFor(n) != r
  }

  /** A finished run: every selected relation is rebuilt, everything else is as before. */
  ghost predicate Rebuilt(c: Config, wh0: map<Name, Table>, t: State)
    requires ValidProject(c.project)
  {
    (forall n | n in c.project.g :: Built(c, t.wh, n)) &&
    (forall r | Foreign(c.project, r) :: Same(t.wh, wh0, r)) &&
    t.timed == t.computed.Keys == c.project.g.Keys &&
    forall n | n in c.project.g :: t.computed[n] == TrueFp(c.project, n)
  }

  lemma {:induction false} CompleteMeansDone(c: Config, s: State)
    requires ValidConfig(c) && Inv(c, s) && Complete(c, s)
    ensures forall n | n in c.project.g :: Succeeded(n) in s.log
    ensures s.timed == c.project.g.Keys
  {
    forall n | n in c.project.g ensures Succeeded(n) in s.log {
      assert Placed(c.levels, n);
      var i :| At(c.levels, i, n);
    }
  }

  /** Whichever nodes are skipped and however the workers interleave, an error-free run ends with
      exactly what a rebuild from scratch gives. */
  lemma {:induction false} CachedRunIsRebuild(c: Config, wh0: map<Name, Table>, steps: seq<Step>, t: State)
    requires ValidRun(c, wh0) && Run(c, Start(wh0), steps, t) && Complete(c, t)
    ensures Rebuilt(c, wh0, t)
  {
    AnyRunIsSound(c, wh0, steps, t);
    CompleteMeansDone(c, t);
    forall n | n in c.project.g ensures DoneRight(c, t, n) { }
    assert t.computed.Keys == c.project.g.Keys by {
      forall n | n in t.computed ensures n in c.project.g { assert DoneRight(c, t, n); }
    }
    forall r | Foreign(c.project, r) ensures Same(t.wh, wh0, r) {
      assert !Touched(t.log, r);
    }
  }

  lemma {:induction false} RebuiltIsUnique(c1: Config, c2: Config, wh0: map<Name, Table>, t1: State, t2: State)
    requires c1.project == c2.project && c1.eval == c2.eval && ValidProject(c1.project)
    requires Rebuilt(c1, wh0, t1) && Rebuilt(c2, wh0, t2)
    ensures t1.wh == t2.wh && t1.computed == t2.computed && t1.timed == t2.timed
  {
    forall r ensures Same(t1.wh, t2.wh, r) {
      if Foreign(c1.project, r) {
        assert Same(t1.wh, wh0, r) && Same(t2.wh, wh0, r);
      } else {
        var n :| n in c1.project.g && RelationFor(n) == r;
        assert Built(c1, t1.wh, n) && Built(c2, t2.wh, n);
      }
    }
    assert t1.wh == t2.wh by {
      assert forall r | r in t1.wh :: Same(t1.wh, t2.wh, r);
      assert forall r | r in t2.wh :: Same(t1.wh, t2.wh, r);
    }
  }

  /** Confluence: two error-free runs of one project from one warehouse end alike, whatever their
      batches, interleavings, cache modes, caches, forced models and fail policies. */
  lemma {:induction false} Confluence(c1: Config, c2: Config, wh0: map<Name, Table>,
                                      steps1: seq<Step>, t1: State, steps2: seq<Step>, t2: State)
    requires c1.project == c2.project && c1.eval == c2.eval
    requires ValidRun(c1, wh0) && Run(c1, Start(wh0), steps1, t1) && Complete(c1, t1)
    requires ValidRun(c2, wh0) && Run(c2, Start(wh0), steps2, t2) && Complete(c2, t2)
    ensures t1.wh == t2.wh && t1.computed == t2.computed && t1.timed == t2.timed
  {
    CachedRunIsRebuild(c1, wh0, steps1, t1);
    CachedRunIsRebuild(c2, wh0, steps2, t2);
    RebuiltIsUnique(c1, c2, wh0, t1, t2);
  }

  // ---------- Which models are built ----------

  /** The run writes the table of `n`. */
  ghost predicate Builds(c: Config, s: State, steps: seq<Step>, n: Name)
    decreases |steps|
  {
    steps != [] && Enabled(c, s, steps[0]) &&
    ((steps[0].Build? && Current(s, steps[0].j) == n) || Builds(c, Do(c, s, steps[0]), steps[1..], n))
  }

  /** Known before the run: the model is forced, or may not be skipped. */
  ghost predicate MustBuild(c: Config, wh0: map<Name, Table>, n: Name)
    requires ValidProject(c.project) && n in c.project.g
  {
    n in c.force || !CanSkip(c.mode, c.cache, wh0, n, TrueFp(c.project, n))
  }

  /** A model on its way to being built must be. */
  ghost predicate Decided(c: Config, s: State, wh0: map<Name, Table>)
    requires ValidProject(c.project)
  {
    forall j: nat | IsRunning(s, j) && s.workers[j].phase.stage.ToBuild? ::
      Current(s, j) in c.project.g && MustBuild(c, wh0, Current(s, j))
  }

  /** The model is past the point where it would have been built. */
  ghost predicate Past(s: State, n: Name) {
    Succeeded(n) in s.log ||
    exists j: nat :: IsRunning(s, j) && Current(s, j) == n &&
                     (s.workers[j].phase.stage.ToStore? || s.workers[j].phase.stage.ForceBuilt?)
  }

  lemma {:induction false} CheckDecides(c: Config, s: State, wh0: map<Name, Table>, j: nat)
    requires ValidRun(c, wh0) && Inv(c, s) && Content(c, s, wh0) && CanCheck(c, s, j)
    ensures Current(s, j) !in c.force
    ensures DoCheck(c, s, j).workers ==
            s.workers[j := s.workers[j].(phase := Running(if MustBuild(c, wh0, Current(s, j))
                                                          then ToBuild(TrueFp(c.project, Current(s, j)))
                                                          else ToStore(TrueFp(c.project, Current(s, j)))))]
  {
    var n := Current(s, j);
    DepsRight(c, s, wh0, j);
    assert forall d | d in c.project.g[n] :: DoneRight(c, s, d);
    CandidateIsTrue(c.project, s.computed, c.cache, n);
    assert StageRight(c, s.wh, wh0, n, s.workers[j].phase.stage);
  }

  lemma {:induction false} StepKeepsDecided(c: Config, s: State, wh0: map<Name, Table>, step: Step)
    requires ValidRun(c, wh0) && Inv(c, s) && Content(c, s, wh0) && Decided(c, s, wh0) && Enabled(c, s, step)
    ensures Decided(c, Do(c, s, step), wh0)
  {
    var t := Do(c, s, step);
    if step.Check? { CheckDecides(c, s, wh0, step.j); }
    forall j: nat | IsRunning(t, j) && t.workers[j].phase.stage.ToBuild?
      ensures Current(t, j) in c.project.g && MustBuild(c, wh0, Current(t, j))
    {
      if step.Check? && step.j == j { assert Current(t, j) == Current(s, j); } else { OtherWorker(c, s, step, j); }
    }
  }

  /** Only a check sends a model to be built. */
  lemma {:induction false} OtherWorker(c: Config, s: State, step: Step, j: nat)
    requires Enabled(c, s, step) && IsRunning(Do(c, s, step), j) && Do(c, s, step).workers[j].phase.stage.ToBuild?
    requires step.Check? ==> step.j != j
    ensures IsRunning(s, j) && Do(c, s, step).workers[j] == s.workers[j]
  {
  }

  /** A model that must be built gets past that point only by being built. */
  lemma {:induction false} GettingPast(c: Config, s: State, wh0: map<Name, Table>, step: Step, n: Name)
    requires ValidRun(c, wh0) && Inv(c, s) && Content(c, s, wh0) && Enabled(c, s, step)
    requires n in c.project.g && MustBuild(c, wh0, n) && Past(Do(c, s, step), n)
    ensures Past(s, n) || (step.Build? && Current(s, step.j) == n)
  {
    var t := Do(c, s, step);
    if Succeeded(n) in t.log {
      NewlySucceeded(c, s, step, n);
    } else {
      var j: nat :| IsRunning(t, j) && Current(t, j) == n &&
                    (t.workers[j].phase.stage.ToStore? || t.workers[j].phase.stage.ForceBuilt?);
      NewlyPast(c, s, step, j);
      if step.Check? && step.j == j { CheckDecides(c, s, wh0, j); }
    }
  }

  lemma {:induction false} NewlySucceeded(c: Config, s: State, step: Step, n: Name)
    requires Enabled(c, s, step) && Succeeded(n) in Do(c, s, step).log
    ensures Past(s, n)
  {
  }

  lemma {:induction false} NewlyPast(c: Config, s: State, step: Step, j: nat)
    requires Enabled(c, s, step) && IsRunning(Do(c, s, step), j)
    ensures Do(c, s, step).workers[j].phase.stage.Begun? || (IsRunning(s, j) &&
              Current(Do(c, s, step), j) == Current(s, j) &&
              (Do(c, s, step).workers[j].phase == s.workers[j].phase ||
               (!step.Open? && !step.Close? && step.j == j &&
                (step.Check? || step.Build? || (step.Refingerprint? && s.workers[j].phase.stage.ForceBuilt?)))))
  {
  }

  lemma {:induction false} BuiltMustBeBuilt(c: Config, s: State, wh0: map<Name, Table>, steps: seq<Step>, t: State,
                                            n: Name)
    requires ValidRun(c, wh0) && Inv(c, s) && Content(c, s, wh0) && Decided(c, s, wh0) && Run(c, s, steps, t)
    requires n in c.project.g && Builds(c, s, steps, n)
    ensures MustBuild(c, wh0, n)
    decreases |steps|
  {
    if !(steps[0].Build? && Current(s, steps[0].j) == n) {
      StepKeepsInv(c, s, steps[0]);
      StepKeepsContent(c, s, wh0, steps[0]);
      StepKeepsDecided(c, s, wh0, steps[0]);
      BuiltMustBeBuilt(c, Do(c, s, steps[0]), wh0, steps[1..], t, n);
    }
  }

  lemma {:induction false} PastWasBuilt(c: Config, s: State, wh0: map<Name, Table>, steps: seq<Step>, t: State,
                                        n: Name)
    requires ValidRun(c, wh0) && Inv(c, s) && Content(c, s, wh0) && Run(c, s, steps, t)
    requires n in c.project.g && MustBuild(c, wh0, n) && Past(t, n)
    ensures Past(s, n) || Builds(c, s, steps, n)
    decreases |steps|
  {
    if steps != [] {
      StepKeepsInv(c, s, steps[0]);
      StepKeepsContent(c, s, wh0, steps[0]);
      PastWasBuilt(c, Do(c, s, steps[0]), wh0, steps[1..], t, n);
      if Past(Do(c, s, steps[0]), n) { GettingPast(c, s, wh0, steps[0], n); }
    }
  }

  /** Which models a run builds is decided before it starts: a model that succeeded was built iff it was forced
      or its current fingerprint, the mode, the cache and the warehouse did not allow to skip it. */
  lemma {:induction false} BuiltIff(c: Config, wh0: map<Name, Table>, steps: seq<Step>, t: State, n: Name)
    requires ValidRun(c, wh0) && Run(c, Start(wh0), steps, t) && Succeeded(n) in t.log
    ensures n in c.project.g && (Builds(c, Start(wh0), steps, n) <==> MustBuild(c, wh0, n))
  {
    StartInv(c, wh0);
    StartContent(c, wh0);
    AnyRunIsSound(c, wh0, steps, t);
    assert DoneRight(c, t, n);
    if Builds(c, Start(wh0), steps, n) { BuiltMustBeBuilt(c, Start(wh0), wh0, steps, t, n); }
    if MustBuild(c, wh0, n) { PastWasBuilt(c, Start(wh0), wh0, steps, t, n); }
  }

  // ---------- Persisting, and runs one after the other ----------

  /** `persist_on_success`, with `update_many`: computed fingerprints override the cached ones. */
  function Persisted(mode: Mode, failed: set<Key>, cache: map<Name, Fp>, computed: map<Name, Fp>): map<Name, Fp> {
    if failed == {} && (mode == RW || mode == WO) then cache + computed else cache
  }

  /** No cached name that is not selected stands for a relation of the selection. (Entries are never
      deleted, so the cache may still hold names that are no longer models.) */
  ghost predicate RetiredApart(c: Config) {
    forall n | n in c.cache && n !in c.project.g :: Foreign(c.project, RelationFor(n))
  }

  /** After a run that writes the cache, cache and warehouse agree again. */
  lemma {:induction false} PersistRestoresAgreement(c: Config, wh0: map<Name, Table>, steps: seq<Step>, t: State)
    requires ValidRun(c, wh0) && RetiredApart(c) && Agrees(c.eval, c.cache, wh0) && (c.mode == RW || c.mode == WO)
    requires Run(c, Start(wh0), steps, t) && Complete(c, t)
    ensures Agrees(c.eval, Persisted(c.mode, t.failed, c.cache, t.computed), t.wh)
  {
    CachedRunIsRebuild(c, wh0, steps, t);
    var cache := c.cache + t.computed;
    forall n | n in cache && RelationFor(n) in t.wh ensures t.wh[RelationFor(n)] == Denote(c.eval, cache[n]) {
      if n in c.project.g { SelectedStands(c, t.wh, n); } else { assert Same(t.wh, wh0, RelationFor(n)); }
    }
  }

  lemma {:induction false} SelectedStands(c: Config, wh: map<Name, Table>, n: Name)
    requires ValidProject(c.project) && Built(c, wh, n)
    ensures wh[RelationFor(n)] == Denote(c.eval, TrueFp(c.project, n))
  {
    TrueFpDenotesRebuild(c.eval, c.project, n);
  }

  // ---------- Runs that do not write the cache ----------

  /** The cached fingerprint of `n`, if any, stands for what its relation holds, if it exists. */
  ghost predicate EntryHolds(c: Config, wh: map<Name, Table>, n: Name) {
    n in c.cache && RelationFor(n) in wh ==> wh[RelationFor(n)] == Denote(c.eval, c.cache[n])
  }

  /** The cached fingerprint of `n`, if any, stands for the table the current one stands for. */
  ghost predicate SameMeaning(c: Config, n: Name)
    requires ValidProject(c.project)
  {
    n in c.project.g && n in c.cache ==> Denote(c.eval, c.cache[n]) == Denote(c.eval, TrueFp(c.project, n))
  }

  /** The cached fingerprint of `n`, if any, is the current one: nothing upstream was edited. */
  ghost predicate Unedited(c: Config, n: Name)
    requires ValidProject(c.project)
  {
    n in c.project.g && n in c.cache ==> c.cache[n] == TrueFp(c.project, n)
  }

  /** At any point of any run, what the nodes have done to the agreement with the old cache. */
  lemma {:induction false} EntryHoldsIff(c: Config, wh0: map<Name, Table>, s: State, n: Name)
    requires ValidRun(c, wh0) && RetiredApart(c) && Agrees(c.eval, c.cache, wh0)
    requires Inv(c, s) && Content(c, s, wh0)
    ensures Succeeded(n) in s.log ==> (EntryHolds(c, s.wh, n) <==> SameMeaning(c, n))
    ensures Started(n) !in s.log ==> EntryHolds(c, s.wh, n)
  {
    if Succeeded(n) in s.log {
      assert DoneRight(c, s, n);
      SelectedStands(c, s.wh, n);
    } else if Started(n) !in s.log && n in c.cache {
      UnstartedIsUntouched(c, s, n);
      assert Same(s.wh, wh0, RelationFor(n));
    }
  }

  lemma {:induction false} UnstartedIsUntouched(c: Config, s: State, n: Name)
    requires InjectiveRelations(c.project.g.Keys) && RetiredApart(c) && Inv(c, s)
    requires n in c.cache && Started(n) !in s.log
    ensures !Touched(s.log, RelationFor(n))
  {
    forall m | Started(m) in s.log ensures RelationFor(m) != RelationFor(n) {
      assert m in c.project.g.Keys && m != n;
      assert n in c.project.g ==> n in c.project.g.Keys;
    }
  }

  ghost predicate MeaningKept(c: Config, t: State)
    requires ValidProject(c.project)
  {
    forall n | Succeeded(n) in t.log :: SameMeaning(c, n)
  }

  ghost predicate SourcesKept(c: Config, t: State)
    requires ValidProject(c.project)
  {
    forall n | Succeeded(n) in t.log :: Unedited(c, n)
  }

  /** What a failed node left in its relation, if anything, is what its cached fingerprint stands for. */
  ghost predicate DebrisHarmless(c: Config, t: State) {
    forall n | Failed(n) in t.log :: EntryHolds(c, t.wh, n)
  }

  /** A run that has returned, complete or failed, in any mode, and whose fingerprints are not saved keeps
      the agreement exactly when no cached node that it built or skipped has changed meaning and no failed
      node left other rows. An unchanged fingerprint is enough, and also necessary if different inputs give
      different tables. */
  lemma {:induction false} UnsavedRunKeepsAgreementIff(c: Config, wh0: map<Name, Table>, steps: seq<Step>, t: State)
    requires ValidRun(c, wh0) && RetiredApart(c) && Agrees(c.eval, c.cache, wh0)
    requires Run(c, Start(wh0), steps, t) && Stopped(c, t)
    ensures Agrees(c.eval, c.cache, t.wh) <==> MeaningKept(c, t) && DebrisHarmless(c, t)
    ensures SourcesKept(c, t) ==> MeaningKept(c, t)
    ensures Telling(c.eval) && OwnEntries(c.cache) ==> (SourcesKept(c, t) <==> MeaningKept(c, t))
  {
    AnyRunIsSound(c, wh0, steps, t);
    StoppedAgreesIff(c, wh0, t);
    if Telling(c.eval) && OwnEntries(c.cache) {
      forall n ensures Unedited(c, n) <==> SameMeaning(c, n) { UneditedIff(c, n); }
    }
  }

  lemma {:induction false} StoppedAgreesIff(c: Config, wh0: map<Name, Table>, t: State)
    requires ValidRun(c, wh0) && RetiredApart(c) && Agrees(c.eval, c.cache, wh0)
    requires Inv(c, t) && Content(c, t, wh0) && Stopped(c, t)
    ensures Agrees(c.eval, c.cache, t.wh) <==> MeaningKept(c, t) && DebrisHarmless(c, t)
  {
    forall n { StoppedEntry(c, wh0, t, n); }
    AgreesEntryByEntry(c, t.wh);
    KeptEntryByEntry(c, t);
  }

  ghost predicate EntryKept(c: Config, t: State, n: Name)
    requires ValidProject(c.project)
  {
    (Succeeded(n) in t.log ==> SameMeaning(c, n)) && (Failed(n) in t.log ==> EntryHolds(c, t.wh, n))
  }

  lemma {:induction false} StoppedEntry(c: Config, wh0: map<Name, Table>, t: State, n: Name)
    requires ValidRun(c, wh0) && RetiredApart(c) && Agrees(c.eval, c.cache, wh0)
    requires Inv(c, t) && Content(c, t, wh0) && Stopped(c, t)
    ensures EntryHolds(c, t.wh, n) <==> EntryKept(c, t, n)
  {
    EntryHoldsIff(c, wh0, t, n);
    StoppedMeansDecided(c, t, n);
  }

  lemma {:induction false} KeptEntryByEntry(c: Config, t: State)
    requires ValidProject(c.project)
    ensures (forall n :: EntryKept(c, t, n)) <==> MeaningKept(c, t) && DebrisHarmless(c, t)
  {
    if forall n :: EntryKept(c, t, n) {
      forall n | Succeeded(n) in t.log ensures SameMeaning(c, n) { assert EntryKept(c, t, n); }
      forall n | Failed(n) in t.log ensures EntryHolds(c, t.wh, n) { assert EntryKept(c, t, n); }
    }
  }

  lemma {:induction false} AgreesEntryByEntry(c: Config, wh: map<Name, Table>)
    ensures Agrees(c.eval, c.cache, wh) <==> forall n :: EntryHolds(c, wh, n)
  {
    if forall n :: EntryHolds(c, wh, n) {
      forall n | n in c.cache && RelationFor(n) in wh ensures wh[RelationFor(n)] == Denote(c.eval, c.cache[n]) {
        assert EntryHolds(c, wh, n);
      }
    }
  }

  // ---------- Fingerprints that tell ----------

  /** Different kinds, texts, environments or inputs give different tables. */
  ghost predicate Telling(eval: Eval) {
    forall k1, t1, e1, m1, k2, t2, e2, m2 | eval(k1, t1, e1, m1) == eval(k2, t2, e2, m2) ::
      k1 == k2 && t1 == t2 && e1 == e2 && m1 == m2
  }

  /** A fingerprint of `n`, over fingerprints of its dependencies. */
  ghost predicate Own(f: Fp, n: Name) {
    f.Fp? && f.node == n && f.relation == RelationFor(n) && forall d | d in f.deps :: Own(f.deps[d], d)
  }

  ghost predicate OwnEntries(cache: map<Name, Fp>) {
    forall n | n in cache :: Own(cache[n], n)
  }

  lemma {:induction false} TrueFpIsOwn(p: Project, n: Name)
    requires ValidProject(p) && n in p.g
    ensures Own(TrueFp(p, n), n)
    decreases RankOf(p.g)[n]
  {
    var deps := map d | d in p.g[n] :: TrueFp(p, d);
    forall d | d in deps ensures Own(deps[d], d) { TrueFpIsOwn(p, d); }
    assert TrueFp(p, n).deps == deps;
  }

  /** Two fingerprints of a node that stand for one table are equal. */
  lemma {:induction false} DenoteInjective(eval: Eval, f1: Fp, f2: Fp, n: Name)
    requires Telling(eval) && Own(f1, n) && Own(f2, n) && Denote(eval, f1) == Denote(eval, f2)
    ensures f1 == f2
    decreases f1
  {
    SameTableSameInputs(eval, f1, f2);
    forall d | d in f1.deps ensures f1.deps[d] == f2.deps[d] { DenoteInjective(eval, f1.deps[d], f2.deps[d], d); }
    assert f1.deps == f2.deps;
  }

  lemma {:induction false} SameTableSameInputs(eval: Eval, f1: Fp, f2: Fp)
    requires Telling(eval) && f1.Fp? && f2.Fp? && Denote(eval, f1) == Denote(eval, f2)
    ensures f1.kind == f2.kind && f1.text == f2.text && f1.env == f2.env && f1.deps.Keys == f2.deps.Keys
    ensures forall d | d in f1.deps :: Denote(eval, f1.deps[d]) == Denote(eval, f2.deps[d])
  {
    var m1, m2 := map d | d in f1.deps :: Denote(eval, f1.deps[d]), map d | d in f2.deps :: Denote(eval, f2.deps[d]);
    assert f1.kind == f2.kind && f1.text == f2.text && f1.env == f2.env && m1 == m2;
    assert f1.deps.Keys == m1.Keys == m2.Keys == f2.deps.Keys;
    forall d | d in f1.deps ensures Denote(eval, f1.deps[d]) == Denote(eval, f2.deps[d]) { assert m1[d] == m2[d]; }
  }

  lemma {:induction false} UneditedIff(c: Config, n: Name)
    requires ValidProject(c.project) && Telling(c.eval) && OwnEntries(c.cache)
    ensures Unedited(c, n) <==> SameMeaning(c, n)
  {
    if n in c.project.g && n in c.cache && SameMeaning(c, n) {
      TrueFpIsOwn(c.project, n);
      DenoteInjective(c.eval, c.cache[n], TrueFp(c.project, n), n);
    }
  }

  /** Every cache that runs have written holds fingerprints of its own nodes. */
  lemma {:induction false} RunsKeepOwnEntries(c: Config, wh0: map<Name, Table>, steps: seq<Step>, t: State)
    requires ValidRun(c, wh0) && OwnEntries(c.cache) && Run(c, Start(wh0), steps, t)
    ensures OwnEntries(Persisted(c.mode, t.failed, c.cache, t.computed))
  {
    AnyRunIsSound(c, wh0, steps, t);
    forall n | n in t.computed ensures Own(t.computed[n], n) {
      assert DoneRight(c, t, n);
      TrueFpIsOwn(c.project, n);
    }
  }

  /** For a complete run this is a question about sources alone: was a cached model of the selection, or
      anything upstream of it, edited? */
  lemma {:induction false} UnsavedCompleteRunKeepsAgreementIff(c: Config, wh0: map<Name, Table>, steps: seq<Step>,
                                                               t: State)
    requires ValidRun(c, wh0) && RetiredApart(c) && Agrees(c.eval, c.cache, wh0)
    requires Run(c, Start(wh0), steps, t) && Complete(c, t) && Telling(c.eval) && OwnEntries(c.cache)
    ensures Agrees(c.eval, c.cache, t.wh)
            <==> forall n | n in c.project.g && n in c.cache :: c.cache[n] == TrueFp(c.project, n)
  {
    UnsavedRunKeepsAgreementIff(c, wh0, steps, t);
    AnyRunIsSound(c, wh0, steps, t);
    CompleteMeansDone(c, t);
    forall n ensures Failed(n) !in t.log { StoppedMeansDecided(c, t, n); }
    assert SourcesKept(c, t) <==> forall n | n in c.project.g && n in c.cache :: Unedited(c, n);
  }

  // ---------- Runs one after the other ----------

  /** The cache a run leaves: `persist_on_success` may not be reached, as after a budget error or when a hook
      at the end of the run raises. */
  function LeftCache(c: Config, t: State, persists: bool): map<Name, Fp> {
    if persists then Persisted(c.mode, t.failed, c.cache, t.computed) else c.cache
  }

  datatype Invocation = Invocation(config: Config, steps: seq<Step>, end: State, persists: bool)

  ghost predicate Saves(r: Invocation) {
    r.persists && Complete(r.config, r.end) && (r.config.mode == RW || r.config.mode == WO)
  }

  /** A run that has returned and that saved its fingerprints, or did no harm without saving them. */
  ghost predicate Leaves(r: Invocation)
    requires ValidProject(r.config.project)
  {
    Stopped(r.config, r.end) && (Saves(r) || (MeaningKept(r.config, r.end) && DebrisHarmless(r.config, r.end)))
  }

  /** Runs one after the other; each reads the cache the previous one left. Projects, selections, levels,
      modes and policies may change from run to run. */
  ghost predicate History(eval: Eval, cache: map<Name, Fp>, wh: map<Name, Table>, runs: seq<Invocation>)
    decreases |runs|
  {
    runs == [] ||
    var r := runs[0];
    r.config.cache == cache && r.config.eval == eval && ValidConfig(r.config) &&
    InjectiveRelations(r.config.project.g.Keys) && RetiredApart(r.config) &&
    Run(r.config, Start(wh), r.steps, r.end) && Leaves(r) &&
    History(eval, LeftCache(r.config, r.end, r.persists), r.end.wh, runs[1..])
  }

  /** In such a history every complete run leaves its selection rebuilt. */
  lemma {:induction false} HistoryRebuilds(eval: Eval, cache: map<Name, Fp>, wh: map<Name, Table>,
                                           runs: seq<Invocation>, i: nat)
    requires Agrees(eval, cache, wh) && History(eval, cache, wh, runs) && i < |runs|
    ensures ValidProject(runs[i].config.project)
    ensures Complete(runs[i].config, runs[i].end) ==>
              forall n | n in runs[i].config.project.g :: Built(runs[i].config, runs[i].end.wh, n)
    decreases |runs|
  {
    var r := runs[0];
    if i > 0 {
      RunLeavesAgreement(wh, r);
      HistoryRebuilds(eval, LeftCache(r.config, r.end, r.persists), r.end.wh, runs[1..], i - 1);
      assert runs[i] == runs[1..][i - 1];
    } else if Complete(r.config, r.end) {
      CachedRunIsRebuild(r.config, wh, r.steps, r.end);
    }
  }

  lemma {:induction false} RunLeavesAgreement(wh: map<Name, Table>, r: Invocation)
    requires ValidConfig(r.config) && InjectiveRelations(r.config.project.g.Keys) && RetiredApart(r.config)
    requires Agrees(r.config.eval, r.config.cache, wh) && Run(r.config, Start(wh), r.steps, r.end) && Leaves(r)
    ensures Agrees(r.config.eval, LeftCache(r.config, r.end, r.persists), r.end.wh)
  {
    if Saves(r) {
      PersistRestoresAgreement(r.config, wh, r.steps, r.end);
    } else {
      NothingSaved(r);
      UnsavedRunKeepsAgreementIff(r.config, wh, r.steps, r.end);
    }
  }

  lemma {:induction false} NothingSaved(r: Invocation)
    requires Stopped(r.config, r.end) && !Saves(r)
    ensures LeftCache(r.config, r.end, r.persists) == r.config.cache
  {
  }

  lemma {:induction false} EmptyCacheAgrees(eval: Eval, wh: map<Name, Table>)
    ensures Agrees(eval, map[], wh)
  {
  }

  /** The first run of a project finds no cache; the warehouse may hold anything. */
  lemma {:induction false} FirstHistoryRebuilds(eval: Eval, wh: map<Name, Table>, runs: seq<Invocation>, i: nat)
    requires History(eval, map[], wh, runs) && i < |runs|
    ensures ValidProject(runs[i].config.project)
    ensures Complete(runs[i].config, runs[i].end) ==>
              forall n | n in runs[i].config.project.g :: Built(runs[i].config, runs[i].end.wh, n)
  {
    EmptyCacheAgrees(eval, wh);
    HistoryRebuilds(eval, map[], wh, runs, i);
  }

  // ---------- Runs of a single model ----------

  /** A project with the single model `m`, whose table is its own text. */
  function OneModel(m: Name, text: string): Project {
    Project(map[m := []], _ => Sql, _ => text, "")
  }

  function OneModelRun(m: Name, text: string, mode: Mode, cache: map<Name, Fp>): Config {
    Config(OneModel(m, text), [[m]], mode, {}, true, cache, (_, t, _, _) => Table([t]))
  }

  function OneFp(m: Name, text: string): Fp {
    Fp(Sql, m, RelationFor(m), text, "", map[])
  }

  lemma {:induction false} OneModelFacts(m: Name, text: string, mode: Mode, cache: map<Name, Fp>)
    ensures var c := OneModelRun(m, text, mode, cache);
            ValidConfig(c) && InjectiveRelations(c.project.g.Keys) &&
            TrueFp(c.project, m) == OneFp(m, text) && Rebuild(c.eval, c.project, m) == Table([text])
  {
    var c := OneModelRun(m, text, mode, cache);
    var rank: map<Name, nat> := map[m := 0];
    assert Ranked(c.project.g, rank);
    RankedGraphIsAcyclic(c.project.g, rank);
    assert At(c.levels, 0, m);
    assert TrueFp(c.project, m).deps == map[];
  }

  lemma {:induction false} RunCons(c: Config, s: State, step: Step, steps: seq<Step>, t: State)
    requires Enabled(c, s, step) && Run(c, Do(c, s, step), steps, t)
    ensures Run(c, s, [step] + steps, t)
  {
    assert ([step] + steps)[1..] == steps;
  }

  /** From the moment the only node is ready to be stored, the run completes. */
  lemma {:induction false} OneModelEnds(c: Config, m: Name, s: State, fp: Fp) returns (steps: seq<Step>, t: State)
    requires c.levels == [[m]] && m in c.project.g
    requires s.level == 0 && s.open && s.observed == {} && s.failed == {}
    requires s.workers == [Worker([m], 0, Running(ToStore(fp)))]
    ensures Run(c, s, steps, t) && Complete(c, t) && t.wh == s.wh
  {
    var s1 := DoStore(c, s, 0);
    assert s1.workers == [Worker([m], 1, Idle)];
    var s2 := SetPhase(s1, 0, Finished);
    assert s2.workers == [Worker([m], 1, Finished)];
    var s3 := DoObserve(s2, 0);
    assert s3.failed == {};
    t := DoClose(s3);
    RunCons(c, s3, Close, [], t);
    RunCons(c, s2, Observe(0), [Close], t);
    RunCons(c, s1, End(0), [Observe(0)] + [Close], t);
    steps := [Store(0)] + ([End(0)] + ([Observe(0)] + [Close]));
    RunCons(c, s, Store(0), [End(0)] + ([Observe(0)] + [Close]), t);
  }

  /** The only node has started and nothing else has happened. */
  ghost predicate JustBegun(m: Name, s: State, wh: map<Name, Table>) {
    s.level == 0 && s.open && s.observed == {} && s.failed == {} && s.computed == map[] && s.wh == wh &&
    s.workers == [Worker([m], 0, Running(Begun))]
  }

  lemma {:induction false} OneModelBegins(c: Config, m: Name, wh: map<Name, Table>) returns (s: State)
    requires c.levels == [[m]]
    ensures JustBegun(m, s, wh)
    ensures forall steps, t | Run(c, s, steps, t) :: Run(c, Start(wh), [Open([[m]]), Begin(0)] + steps, t)
  {
    var s0 := Start(wh);
    assert Flatten([[m]]) == [m] by { assert Flatten([[m]]) == [m] + Flatten([]); }
    var s1 := DoOpen(s0, [[m]]);
    assert s1.workers == [Worker([m], 0, Queued)];
    s := DoBegin(s1, 0);
    assert s.workers == [Worker([m], 0, Running(Begun))];
    forall steps, t | Run(c, s, steps, t) ensures Run(c, s0, [Open([[m]]), Begin(0)] + steps, t) {
      RunCons(c, s1, Begin(0), steps, t);
      RunCons(c, s0, Open([[m]]), [Begin(0)] + steps, t);
      assert [Open([[m]])] + ([Begin(0)] + steps) == [Open([[m]]), Begin(0)] + steps;
    }
  }

  lemma {:induction false} OneModelContinues(m: Name, text: string, mode: Mode, cache: map<Name, Fp>, s: State,
                                             wh: map<Name, Table>)
    returns (steps: seq<Step>, t: State)
    requires JustBegun(m, s, wh)
    ensures var c := OneModelRun(m, text, mode, cache);
            Run(c, s, steps, t) && Complete(c, t) &&
            t.wh == if CanSkip(mode, cache, wh, m, OneFp(m, text)) then wh else wh[RelationFor(m) := Table([text])]
  {
    var c := OneModelRun(m, text, mode, cache);
    assert Candidate(c.project, s.computed, c.cache, m) == OneFp(m, text);
    var s3 := DoCheck(c, s, 0);
    if CanSkip(mode, cache, wh, m, OneFp(m, text)) {
      assert s3.workers == [Worker([m], 0, Running(ToStore(OneFp(m, text))))];
      steps, t := OneModelEnds(c, m, s3, OneFp(m, text));
    } else {
      assert s3.workers == [Worker([m], 0, Running(ToBuild(OneFp(m, text))))];
      var s4 := DoBuild(c, s3, 0);
      assert s4.workers == [Worker([m], 0, Running(ToStore(OneFp(m, text))))];
      steps, t := OneModelEnds(c, m, s4, OneFp(m, text));
      RunCons(c, s3, Build(0), steps, t);
      steps := [Build(0)] + steps;
    }
    RunCons(c, s, Check(0), steps, t);
    steps := [Check(0)] + steps;
  }

  lemma {:induction false} OneModelCompletes(m: Name, text: string, mode: Mode, cache: map<Name, Fp>,
                                             wh: map<Name, Table>)
    returns (steps: seq<Step>, t: State)
    ensures var c := OneModelRun(m, text, mode, cache);
            Run(c, Start(wh), steps, t) && Complete(c, t) &&
            t.wh == if CanSkip(mode, cache, wh, m, OneFp(m, text)) then wh else wh[RelationFor(m) := Table([text])]
  {
    var s := OneModelBegins(OneModelRun(m, text, mode, cache), m, wh);
    steps, t := OneModelContinues(m, text, mode, cache, s, wh);
    steps := [Open([[m]]), Begin(0)] + steps;
  }

  const USERS := Name("users")
  const USERS_FF := Name("users.ff")

  /** The first run of the model `users.ff` writes the relation `users`; there is no relation `users.ff`. */
  lemma {:induction false} UsersRunWritesUsers(text: string) returns (steps: seq<Step>, t: State)
    ensures var c := OneModelRun(USERS_FF, text, RW, map[]);
            ValidRun(c, map[]) && Run(c, Start(map[]), steps, t) && Complete(c, t)
    ensures t.wh == map[USERS := Table([text])] && USERS_FF !in t.wh
  {
    OneModelFacts(USERS_FF, text, RW, map[]);
    RelationDropsSuffix("users");
    assert "users.ff" == "users" + ".ff";
    steps, t := OneModelCompletes(USERS_FF, text, RW, map[], map[]);
    assert |USERS.text| == 5 && |USERS_FF.text| == 8;
  }

  // ---------- A stale skip ----------

  const A := Name("a")

  lemma {:induction false} PlainName()
    ensures RelationFor(A) == A
  {
    RelationCases(A);
    assert |A.text| == 1;
  }

  lemma {:induction false} OldIsNotNew()
    ensures OneFp(A, "old") != OneFp(A, "new") && Table(["old"]) != Table(["new"])
  {
    assert "old"[0] == 'o' && "new"[0] == 'n';
    assert OneFp(A, "old").text != OneFp(A, "new").text && Table(["old"]).rows[0] != Table(["new"]).rows[0];
  }

  /** `c2` is the model before an edit, run with what `c1`, the edited one, left behind: the run completes
      over a table that is not the model's. */
  ghost predicate StaleSkip(c1: Config, t1: State, persists: bool, c2: Config, steps2: seq<Step>, t2: State) {
    c2.mode == RW && ValidConfig(c2) && c2.eval == c1.eval && c2.cache == LeftCache(c1, t1, persists) &&
    Run(c2, Start(t1.wh), steps2, t2) && Complete(c2, t2) && A in c2.project.g && !Built(c2, t2.wh, A)
  }

  const OLD_CACHE := map[A := OneFp(A, "old")]
  const OLD_WAREHOUSE := map[A := Table(["old"])]

  /** The edited model, run where the old one was built and cached. */
  function EditedRun(mode: Mode): Config {
    OneModelRun(A, "new", mode, OLD_CACHE)
  }

  lemma {:induction false} EditedRunIsValid(mode: Mode)
    ensures ValidRun(EditedRun(mode), OLD_WAREHOUSE) && Agrees(EditedRun(mode).eval, OLD_CACHE, OLD_WAREHOUSE)
    ensures RelationFor(A) == A && !CanSkip(mode, OLD_CACHE, OLD_WAREHOUSE, A, OneFp(A, "new"))
  {
    PlainName();
    OneModelFacts(A, "new", mode, OLD_CACHE);
    OldIsNotNew();
  }

  lemma {:induction false} UndoneEditIsSkipped(mode: Mode, t1: State, persists: bool)
    returns (rw: Config, steps2: seq<Step>, t2: State)
    requires LeftCache(EditedRun(mode), t1, persists) == OLD_CACHE && t1.wh == OLD_WAREHOUSE[A := Table(["new"])]
    ensures StaleSkip(EditedRun(mode), t1, persists, rw, steps2, t2)
  {
    rw := OneModelRun(A, "old", RW, OLD_CACHE);
    PlainName();
    OneModelFacts(A, "old", RW, OLD_CACHE);
    OldIsNotNew();
    steps2, t2 := OneModelCompletes(A, "old", RW, OLD_CACHE, t1.wh);
  }

  /** A read-only run of an edited model builds the new table but keeps the old fingerprint; once the edit
      is undone, the next run skips over the wrong table. */
  lemma {:induction false} ReadOnlyRunCanMakeASkipStale()
    returns (steps1: seq<Step>, t1: State, rw: Config, steps2: seq<Step>, t2: State)
    ensures ValidRun(EditedRun(RO), OLD_WAREHOUSE) && Agrees(EditedRun(RO).eval, OLD_CACHE, OLD_WAREHOUSE)
    ensures Run(EditedRun(RO), Start(OLD_WAREHOUSE), steps1, t1) && Complete(EditedRun(RO), t1)
    ensures StaleSkip(EditedRun(RO), t1, true, rw, steps2, t2)
  {
    EditedRunIsValid(RO);
    steps1, t1 := OneModelCompletes(A, "new", RO, OLD_CACHE, OLD_WAREHOUSE);
    rw, steps2, t2 := UndoneEditIsSkipped(RO, t1, true);
  }

  /** A complete writing run of an edited model that ends with a budget error, before the cache is written. */
  lemma {:induction false} UnsavedRunCanMakeASkipStale()
    returns (steps1: seq<Step>, t1: State, rw: Config, steps2: seq<Step>, t2: State)
    ensures ValidRun(EditedRun(RW), OLD_WAREHOUSE) && Agrees(EditedRun(RW).eval, OLD_CACHE, OLD_WAREHOUSE)
    ensures Run(EditedRun(RW), Start(OLD_WAREHOUSE), steps1, t1) && Complete(EditedRun(RW), t1)
    ensures StaleSkip(EditedRun(RW), t1, false, rw, steps2, t2)
  {
    EditedRunIsValid(RW);
    steps1, t1 := OneModelCompletes(A, "new", RW, OLD_CACHE, OLD_WAREHOUSE);
    rw, steps2, t2 := UndoneEditIsSkipped(RW, t1, false);
  }

  /** The model builds its table and fails after that, as when a hook after the model raises. */
  lemma {:induction false} OneModelFails(m: Name, text: string, cache: map<Name, Fp>, s: State, wh: map<Name, Table>)
    returns (steps: seq<Step>, t: State)
    requires JustBegun(m, s, wh) && !CanSkip(RW, cache, wh, m, OneFp(m, text))
    ensures Run(OneModelRun(m, text, RW, cache), s, steps, t) && Halted(t)
    ensures t.wh == wh[RelationFor(m) := Table([text])]
  {
    var c := OneModelRun(m, text, RW, cache);
    assert Candidate(c.project, s.computed, c.cache, m) == OneFp(m, text);
    var s1 := DoCheck(c, s, 0);
    assert s1.workers == [Worker([m], 0, Running(ToBuild(OneFp(m, text))))];
    var s2 := DoBuild(c, s1, 0);
    assert s2.workers == [Worker([m], 0, Running(ToStore(OneFp(m, text))))];
    var s3 := DoCrash(s2, 0, Untouched);
    assert s3.workers == [Worker([m], 0, Crashed)];
    t := DoObserve(s3, 0);
    assert Outcomes(s3, 0) == {NodeKey(m)};
    assert NodeKey(m) in t.failed;
    RunCons(c, s3, Observe(0), [], t);
    RunCons(c, s2, Crash(0, Untouched), [Observe(0)], t);
    RunCons(c, s1, Build(0), [Crash(0, Untouched)] + [Observe(0)], t);
    steps := [Check(0)] + ([Build(0)] + ([Crash(0, Untouched)] + [Observe(0)]));
    RunCons(c, s, Check(0), [Build(0)] + ([Crash(0, Untouched)] + [Observe(0)]), t);
  }

  /** A writing run that builds an edited model and then fails saves nothing; once the edit is undone, the
      next run skips over the wrong table. */
  lemma {:induction false} FailedRunCanMakeASkipStale()
    returns (steps1: seq<Step>, t1: State, rw: Config, steps2: seq<Step>, t2: State)
    ensures ValidRun(EditedRun(RW), OLD_WAREHOUSE) && Agrees(EditedRun(RW).eval, OLD_CACHE, OLD_WAREHOUSE)
    ensures Run(EditedRun(RW), Start(OLD_WAREHOUSE), steps1, t1) && Halted(t1)
    ensures StaleSkip(EditedRun(RW), t1, true, rw, steps2, t2)
  {
    EditedRunIsValid(RW);
    var s := OneModelBegins(EditedRun(RW), A, OLD_WAREHOUSE);
    steps1, t1 := OneModelFails(A, "new", OLD_CACHE, s, OLD_WAREHOUSE);
    steps1 := [Open([[A]]), Begin(0)] + steps1;
    rw, steps2, t2 := UndoneEditIsSkipped(RW, t1, true);
  }
}
