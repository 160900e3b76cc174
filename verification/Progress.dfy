/** Runs end, and they end only by completing or by stopping at a level with a failure. */
module Progress {
  import opened Names
  import opened RunModel
  import opened Packing
  import opened Scheduler
  import opened CachedRuns

  // ---------- No deadlock ----------

  /** A step of worker `j`, or the collection of its future; not a crash. */
  ghost predicate OwnStep(step: Step, j: nat) {
    !step.Open? && !step.Close? && !step.Crash? && step.j == j
  }

  lemma {:induction false} WaitingGoesOn(c: Config, s: State, j: nat) returns (step: Step)
    requires ValidConfig(c) && Inv(c, s) && Waiting(s, j)
    ensures Enabled(c, s, step) && OwnStep(step, j)
  {
    assert WorkerOk(c, s.log, s.workers[j]);
    step := if s.workers[j].pos < |s.workers[j].batch| then Begin(j) else End(j);
  }

  lemma {:induction false} RunningGoesOn(c: Config, s: State, wh0: map<Name, Table>, j: nat) returns (step: Step)
    requires ValidRun(c, wh0) && Inv(c, s) && Content(c, s, wh0) && IsRunning(s, j)
    ensures Enabled(c, s, step) && OwnStep(step, j)
  {
    DepsRight(c, s, wh0, j);
    ComputeIsRebuild(c, s, Current(s, j));
    match s.workers[j].phase.stage
    case Begun => step := if Current(s, j) in c.force then Build(j) else Check(j);
    case ToBuild(_) => step := Build(j);
    case ToStore(_) => step := Store(j);
    case ForceBuilt => step := Refingerprint(j);
  }

  lemma {:induction false} WorkerGoesOn(c: Config, s: State, wh0: map<Name, Table>, j: nat) returns (step: Step)
    requires ValidRun(c, wh0) && Inv(c, s) && Content(c, s, wh0) && j < |s.workers| && j !in s.observed
    ensures Enabled(c, s, step) && OwnStep(step, j)
  {
    assert WorkerOk(c, s.log, s.workers[j]);
    if Over(s.workers[j]) {
      step := Observe(j);
    } else if s.workers[j].phase.Running? {
      step := RunningGoesOn(c, s, wh0, j);
    } else {
      step := WaitingGoesOn(c, s, j);
    }
  }

  lemma {:induction false} GoesOn(c: Config, s: State, wh0: map<Name, Table>) returns (step: Step)
    requires ValidRun(c, wh0) && Inv(c, s) && Content(c, s, wh0)
    requires !Complete(c, s) && !Halted(s)
    ensures Enabled(c, s, step) && !step.Crash?
  {
    if !s.open {
      assert s.failed == {};
      step := Open([c.levels[s.level]]);
      assert Flatten([c.levels[s.level]]) == c.levels[s.level] + Flatten([]) == c.levels[s.level];
    } else if AllObserved(s) {
      step := Close;
    } else {
      var j: nat :| j < |s.workers| && j !in s.observed;
      step := WorkerGoesOn(c, s, wh0, j);
    }
  }

  /** As long as a run has neither completed nor halted, some step other than a crash is possible;
      in particular every model whose turn it is finds its inputs. */
  lemma {:induction false} NoDeadlock(c: Config, wh0: map<Name, Table>, steps: seq<Step>, t: State)
    returns (step: Step)
    requires ValidRun(c, wh0) && Run(c, Start(wh0), steps, t) && !Complete(c, t) && !Halted(t)
    ensures Enabled(c, t, step) && !step.Crash?
  {
    StartInv(c, wh0);
    RunKeepsInv(c, Start(wh0), steps, t);
    AnyRunIsSound(c, wh0, steps, t);
    step := GoesOn(c, t, wh0);
  }

  /** At any moment every future that is not collected has a step of its own to take, whatever the others are
      doing; none ever waits for another. */
  lemma {:induction false} EveryWorkerGoesOn(c: Config, wh0: map<Name, Table>, steps: seq<Step>, t: State, j: nat)
    returns (step: Step)
    requires ValidRun(c, wh0) && Run(c, Start(wh0), steps, t) && j < |t.workers| && j !in t.observed
    ensures Enabled(c, t, step) && OwnStep(step, j)
  {
    StartInv(c, wh0);
    RunKeepsInv(c, Start(wh0), steps, t);
    AnyRunIsSound(c, wh0, steps, t);
    step := WorkerGoesOn(c, t, wh0, j);
  }

  // ---------- No endless run ----------

  function PhaseWork(phase: Phase): nat {
    match phase
    case Running(Begun) => 4
    case Running(ToBuild(_)) => 3
    case Running(ForceBuilt) => 3
    case Running(ToStore(_)) => 2
    case _ => 5
  }

  function Work(w: Worker): nat {
    if Over(w) then 0 else PhaseWork(w.phase) + if w.pos < |w.batch| then 5 * (|w.batch| - w.pos) else 0
  }

  function TotalWork(ws: seq<Worker>): nat {
    if ws == [] then 0 else Work(ws[0]) + TotalWork(ws[1..])
  }

  lemma {:induction false} TotalWorkUpdate(ws: seq<Worker>, j: nat, w: Worker)
    requires j < |ws|
    ensures TotalWork(ws[j := w]) == TotalWork(ws) - Work(ws[j]) + Work(w)
  {
    if j == 0 {
      assert ws[j := w][1..] == ws[1..];
    } else {
      TotalWorkUpdate(ws[1..], j - 1, w);
      assert ws[j := w][1..] == ws[1..][j - 1 := w];
    }
  }

  ghost function Unseen(s: State): set<nat> {
    set j: nat | 0 <= j < |s.workers| && j !in s.observed
  }

  ghost predicate StepsTo(c: Config, s: State, t: State) {
    exists step :: Enabled(c, s, step) && Do(c, s, step) == t
  }

  lemma {:induction false} WaitingShrinks(w: Worker, w': Worker)
    requires (w.phase.Queued? || w.phase.Idle?) && w' == w.(phase := Running(Begun))
    ensures Work(w') < Work(w)
  {
  }

  lemma {:induction false} StageShrinks(w: Worker, w': Worker)
    requires w.phase.Running? && w'.phase.Running? && w' == w.(phase := w'.phase)
    requires PhaseWork(w'.phase) < PhaseWork(w.phase)
    ensures Work(w') < Work(w)
  {
  }

  lemma {:induction false} StoreShrinks(w: Worker, w': Worker)
    requires w.phase.Running? && w.pos < |w.batch| && w' == w.(phase := Idle, pos := w.pos + 1)
    ensures Work(w') < Work(w)
  {
  }

  lemma {:induction false} OverShrinks(w: Worker, w': Worker)
    requires !Over(w) && Over(w')
    ensures Work(w') < Work(w)
  {
  }

  /** Every step of a worker uses up some of its work. */
  lemma {:induction false} StepShrinksWork(c: Config, s: State, step: Step)
    requires Inv(c, s) && Enabled(c, s, step) && !step.Open? && !step.Close? && !step.Observe?
    ensures step.j < |s.workers| == |Do(c, s, step).workers|
    ensures Work(Do(c, s, step).workers[step.j]) < Work(s.workers[step.j])
  {
    if step.Check? || step.Build? || step.Refingerprint? {
      StageStepShrinksWork(c, s, step);
    } else {
      assert WorkerOk(c, s.log, s.workers[step.j]);
      match step
      case Begin(j) => WaitingShrinks(s.workers[j], DoBegin(s, j).workers[j]);
      case Store(j) => StoreShrinks(s.workers[j], DoStore(c, s, j).workers[j]);
      case Crash(j, debris) => OverShrinks(s.workers[j], DoCrash(s, j, debris).workers[j]);
      case End(j) => OverShrinks(s.workers[j], SetPhase(s, j, Finished).workers[j]);
      case Cancel(j) => OverShrinks(s.workers[j], SetPhase(s, j, Cancelled).workers[j]);
    }
  }

  lemma {:induction false} StageStepShrinksWork(c: Config, s: State, step: Step)
    requires Enabled(c, s, step) && (step.Check? || step.Build? || step.Refingerprint?)
    ensures step.j < |s.workers| == |Do(c, s, step).workers|
    ensures Work(Do(c, s, step).workers[step.j]) < Work(s.workers[step.j])
  {
    match step
    case Check(j) => StageShrinks(s.workers[j], DoCheck(c, s, j).workers[j]);
    case Build(j) => StageShrinks(s.workers[j], DoBuild(c, s, j).workers[j]);
    case Refingerprint(j) => StageShrinks(s.workers[j], DoRefingerprint(c, s, j).workers[j]);
  }

  /** Inside an open level every step uses up work or collects a future. */
  lemma {:induction false} StepUsesWork(c: Config, s: State, step: Step)
    requires Inv(c, s) && Enabled(c, s, step) && !step.Open? && !step.Close?
    ensures var t := Do(c, s, step);
            s.open && t.open && t.level == s.level &&
            (TotalWork(t.workers) < TotalWork(s.workers) ||
             (TotalWork(t.workers) == TotalWork(s.workers) && Unseen(t) < Unseen(s)))
  {
    var t := Do(c, s, step);
    if step.Observe? {
      assert step.j in Unseen(s);
    } else {
      var j := step.j;
      StepShrinksWork(c, s, step);
      TotalWorkUpdate(s.workers, j, t.workers[j]);
      assert t.workers == s.workers[j := t.workers[j]];
    }
  }

  /** What the lexicographic measure of termination compares. */
  ghost predicate Nearer(c: Config, s: State, t: State) {
    t.level <= |c.levels| &&
    (t.level > s.level ||
     (t.level == s.level &&
      ((t.open && !s.open) ||
       (t.open == s.open &&
        (TotalWork(t.workers) < TotalWork(s.workers) ||
         (TotalWork(t.workers) == TotalWork(s.workers) && Unseen(t) < Unseen(s)))))))
  }

  lemma {:induction false} StepGetsNearer(c: Config, s: State, t: State)
    requires ValidConfig(c) && Inv(c, s) && StepsTo(c, s, t)
    ensures Inv(c, t) && Nearer(c, s, t)
  {
    var step :| Enabled(c, s, step) && Do(c, s, step) == t;
    StepKeepsInv(c, s, step);
    if !step.Open? && !step.Close? { StepUsesWork(c, s, step); }
  }

  lemma {:induction false} StopsAfter(c: Config, f: nat -> State, i: nat) returns (k: nat, goesOn: bool)
    requires ValidConfig(c) && Inv(c, f(i))
    ensures goesOn == StepsTo(c, f(k), f(k + 1)) && !goesOn
    decreases |c.levels| - f(i).level, !f(i).open, TotalWork(f(i).workers), Unseen(f(i))
  {
    k, goesOn := i, StepsTo(c, f(i), f(i + 1));
    if goesOn {
      StepGetsNearer(c, f(i), f(i + 1));
      k, goesOn := StopsAfter(c, f, i + 1);
    }
  }

  /** No infinite sequence of states is a run: some state in it is not reached by a step. */
  lemma {:induction false} RunsEnd(c: Config, wh: map<Name, Table>, f: nat -> State) returns (k: nat)
    requires ValidConfig(c) && f(0) == Start(wh)
    ensures !StepsTo(c, f(k), f(k + 1))
  {
    StartInv(c, wh);
    var goesOn;
    k, goesOn := StopsAfter(c, f, 0);
  }
}
