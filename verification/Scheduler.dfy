/** `schedule` and `_run_level` as a step system: one step is one atomic action of one worker thread
    or of the thread that collects the futures. Every interleaving of the steps is a run. */
module Scheduler {
  import opened Names
  import opened Graphs
  import opened Dag
  import opened RunModel
  import opened Packing

  datatype Mode = OFF | RW | RO | WO

  datatype Config = Config(
    project: Project, levels: seq<seq<Name>>, mode: Mode, force: set<Name>, failFast: bool,
    cache: map<Name, Fp>, eval: Eval)

  /** Where a worker is inside `run_node`. */
  datatype Stage = Begun | ToBuild(fp: Fp) | ToStore(fp: Fp) | ForceBuilt

  datatype Phase = Queued | Idle | Running(stage: Stage) | Finished | Crashed | Cancelled

  /** One future: its batch, how many of its nodes are complete, and what it is doing. */
  datatype Worker = Worker(batch: seq<Name>, pos: nat, phase: Phase)

  /** Keys of the `failed` dictionary: a node, or the synthetic entry for a level. */
  datatype Key = NodeKey(n: Name) | LevelKey(level: nat)

  datatype Event = Started(n: Name) | Succeeded(n: Name) | Failed(n: Name)

  datatype State = State(
    level: nat, open: bool, workers: seq<Worker>, observed: set<nat>,
    computed: map<Name, Fp>, wh: map<Name, Table>, timed: set<Name>, failed: set<Key>, log: seq<Event>)

  function Start(wh: map<Name, Table>): State {
    State(0, false, [], {}, map[], wh, {}, {}, [])
  }

  /** What a model that raises leaves behind in its own relation. */
  datatype Debris = Untouched | Dropped | Left(table: Table)

  datatype Step =
    | Open(groups: seq<seq<Name>>)
    | Begin(j: nat)
    | Check(j: nat)
    | Build(j: nat)
    | Refingerprint(j: nat)
    | Store(j: nat)
    | Crash(j: nat, debris: Debris)
    | End(j: nat)
    | Cancel(j: nat)
    | Observe(j: nat)
    | Close

  // ---------- run_node, piece by piece ----------

  /** `computed_fps.get(d) or cache.get(d) or ""` */
  function DepFp(computed: map<Name, Fp>, cache: map<Name, Fp>, d: Name): Fp {
    if d in computed then computed[d] else if d in cache then cache[d] else NoFp
  }

  /** `_maybe_fingerprint` */
  function Candidate(p: Project, computed: map<Name, Fp>, cache: map<Name, Fp>, n: Name): Fp
    requires n in p.g
  {
    Fp(p.kind(n), n, RelationFor(n), p.text(n), p.env, map d | d in p.g[n] :: DepFp(computed, cache, d))
  }

  /** `_should_skip_node` with `can_skip_node`, for a model stored as a table. */
  predicate CanSkip(mode: Mode, cache: map<Name, Fp>, wh: map<Name, Table>, n: Name, fp: Fp) {
    (mode == RW || mode == RO) && n in cache && cache[n] == fp && RelationFor(n) in wh
  }

  /** Every relation the model reads exists. */
  predicate Buildable(p: Project, wh: map<Name, Table>, n: Name)
    requires n in p.g
  {
    forall d | d in p.g[n] :: RelationFor(d) in wh
  }

  /** The table a model computes from what its dependencies' relations hold now. */
  function Compute(eval: Eval, p: Project, wh: map<Name, Table>, n: Name): Table
    requires n in p.g && Buildable(p, wh, n)
  {
    eval(p.kind(n), p.text(n), p.env, map d | d in p.g[n] :: wh[RelationFor(d)])
  }

  function Litter(wh: map<Name, Table>, r: Name, debris: Debris): map<Name, Table> {
    match debris
    case Untouched => wh
    case Dropped => wh - {r}
    case Left(t) => wh[r := t]
  }

  /** A model that raises may leave anything in its relation. */
  lemma {:induction false} LitterIsArbitrary(wh: map<Name, Table>, r: Name, wh': map<Name, Table>)
    returns (debris: Debris)
    requires forall x | x != r :: (x in wh <==> x in wh') && (x in wh ==> wh[x] == wh'[x])
    ensures Litter(wh, r, debris) == wh'
  {
    debris := if r in wh' then Left(wh'[r]) else Dropped;
  }

  // ---------- Steps ----------

  predicate IsRunning(s: State, j: nat) {
    j < |s.workers| && s.workers[j].phase.Running? && s.workers[j].pos < |s.workers[j].batch|
  }

  function Current(s: State, j: nat): Name
    requires IsRunning(s, j)
  {
    s.workers[j].batch[s.workers[j].pos]
  }

  predicate AtStage(c: Config, s: State, j: nat) {
    IsRunning(s, j) && Current(s, j) in c.project.g
  }

  predicate Over(w: Worker) {
    w.phase.Finished? || w.phase.Crashed? || w.phase.Cancelled?
  }

  function SetPhase(s: State, j: nat, phase: Phase): State
    requires j < |s.workers|
  {
    s.(workers := s.workers[j := s.workers[j].(phase := phase)])
  }

  /** The level's futures are submitted: any split of the level into batches. */
  ghost predicate CanOpen(c: Config, s: State, groups: seq<seq<Name>>) {
    !s.open && s.failed == {} && s.level < |c.levels| && Splits(groups, c.levels[s.level])
  }

  function DoOpen(s: State, groups: seq<seq<Name>>): State {
    s.(open := true, observed := {},
       workers := seq(|groups|, i requires 0 <= i < |groups| => Worker(groups[i], 0, Queued)))
  }

  predicate Waiting(s: State, j: nat) {
    j < |s.workers| && (s.workers[j].phase.Queued? || s.workers[j].phase.Idle?)
  }

  predicate CanBegin(s: State, j: nat) {
    Waiting(s, j) && s.workers[j].pos < |s.workers[j].batch|
  }

  function DoBegin(s: State, j: nat): State
    requires CanBegin(s, j)
  {
    SetPhase(s, j, Running(Begun)).(log := s.log + [Started(s.workers[j].batch[s.workers[j].pos])])
  }

  /** Fingerprint and skip decision of a model that is not forced. */
  predicate CanCheck(c: Config, s: State, j: nat) {
    AtStage(c, s, j) && s.workers[j].phase.stage.Begun? && Current(s, j) !in c.force
  }

  function DoCheck(c: Config, s: State, j: nat): State
    requires CanCheck(c, s, j)
  {
    var fp := Candidate(c.project, s.computed, c.cache, Current(s, j));
    var next := if CanSkip(c.mode, c.cache, s.wh, Current(s, j), fp) then ToStore(fp) else ToBuild(fp);
    SetPhase(s, j, Running(next))
  }

  predicate CanBuild(c: Config, s: State, j: nat) {
    AtStage(c, s, j) && Buildable(c.project, s.wh, Current(s, j)) &&
    (s.workers[j].phase.stage.ToBuild? || (s.workers[j].phase.stage.Begun? && Current(s, j) in c.force))
  }

  function DoBuild(c: Config, s: State, j: nat): State
    requires CanBuild(c, s, j)
  {
    var n := Current(s, j);
    var next := if s.workers[j].phase.stage.ToBuild? then ToStore(s.workers[j].phase.stage.fp) else ForceBuilt;
    SetPhase(s, j, Running(next)).(wh := s.wh[RelationFor(n) := Compute(c.eval, c.project, s.wh, n)])
  }

  /** A forced model is fingerprinted only after it was built. */
  predicate CanRefingerprint(c: Config, s: State, j: nat) {
    AtStage(c, s, j) && s.workers[j].phase.stage.ForceBuilt?
  }

  function DoRefingerprint(c: Config, s: State, j: nat): State
    requires CanRefingerprint(c, s, j)
  {
    SetPhase(s, j, Running(ToStore(Candidate(c.project, s.computed, c.cache, Current(s, j)))))
  }

  predicate CanStore(c: Config, s: State, j: nat) {
    AtStage(c, s, j) && s.workers[j].phase.stage.ToStore?
  }

  function DoStore(c: Config, s: State, j: nat): State
    requires CanStore(c, s, j)
  {
    var n := Current(s, j);
    s.(workers := s.workers[j := s.workers[j].(phase := Idle, pos := s.workers[j].pos + 1)],
       computed := s.computed[n := s.workers[j].phase.stage.fp],
       timed := s.timed + {n}, log := s.log + [Succeeded(n)])
  }

  /** `run_node` raises: the node is timed, the rest of its batch is dropped. */
  function DoCrash(s: State, j: nat, debris: Debris): State
    requires IsRunning(s, j)
  {
    var n := Current(s, j);
    SetPhase(s, j, Crashed).(wh := Litter(s.wh, RelationFor(n), debris),
                             timed := s.timed + {n}, log := s.log + [Failed(n)])
  }

  predicate CanEnd(s: State, j: nat) {
    Waiting(s, j) && s.workers[j].pos == |s.workers[j].batch|
  }

  /** Only a future that no thread has picked up can be cancelled, and only after a failure. */
  predicate CanCancel(c: Config, s: State, j: nat) {
    c.failFast && s.failed != {} && j < |s.workers| && s.workers[j].phase.Queued?
  }

  predicate CanObserve(s: State, j: nat) {
    j < |s.workers| && Over(s.workers[j]) && j !in s.observed
  }

  /** `as_completed` yields the future; a cancelled one is recorded under the level's own key. */
  function Outcomes(s: State, j: nat): set<Key>
    requires j < |s.workers|
  {
    var w := s.workers[j];
    if w.phase.Crashed? && w.pos < |w.batch| then {NodeKey(w.batch[w.pos])}
    else if w.phase.Cancelled? then {LevelKey(s.level)}
    else {}
  }

  function DoObserve(s: State, j: nat): State
    requires CanObserve(s, j)
  {
    s.(observed := s.observed + {j}, failed := s.failed + Outcomes(s, j))
  }

  predicate AllObserved(s: State) {
    forall j: nat | j < |s.workers| :: j in s.observed
  }

  predicate CanClose(c: Config, s: State) {
    s.open && s.failed == {} && s.level < |c.levels| && AllObserved(s)
  }

  function DoClose(s: State): State {
    s.(open := false, workers := [], level := s.level + 1)
  }

  ghost predicate Enabled(c: Config, s: State, step: Step) {
    match step
    case Open(groups) => CanOpen(c, s, groups)
    case Begin(j) => CanBegin(s, j)
    case Check(j) => CanCheck(c, s, j)
    case Build(j) => CanBuild(c, s, j)
    case Refingerprint(j) => CanRefingerprint(c, s, j)
    case Store(j) => CanStore(c, s, j)
    case Crash(j, _) => IsRunning(s, j)
    case End(j) => CanEnd(s, j)
    case Cancel(j) => CanCancel(c, s, j)
    case Observe(j) => CanObserve(s, j)
    case Close => CanClose(c, s)
  }

  ghost function Do(c: Config, s: State, step: Step): State
    requires Enabled(c, s, step)
  {
    match step
    case Open(groups) => DoOpen(s, groups)
    case Begin(j) => DoBegin(s, j)
    case Check(j) => DoCheck(c, s, j)
    case Build(j) => DoBuild(c, s, j)
    case Refingerprint(j) => DoRefingerprint(c, s, j)
    case Store(j) => DoStore(c, s, j)
    case Crash(j, debris) => DoCrash(s, j, debris)
    case End(j) => SetPhase(s, j, Finished)
    case Cancel(j) => SetPhase(s, j, Cancelled)
    case Observe(j) => DoObserve(s, j)
    case Close => DoClose(s)
  }

  /** `steps` leads from `s` to `t`. */
  ghost predicate Run(c: Config, s: State, steps: seq<Step>, t: State)
    decreases |steps|
  {
    if steps == [] then s == t
    else Enabled(c, s, steps[0]) && Run(c, Do(c, s, steps[0]), steps[1..], t)
  }

  /** Some run leads from `s` to `t`. */
  ghost predicate LeadsTo(c: Config, s: State, t: State) {
    exists steps :: Run(c, s, steps, t)
  }

  lemma {:induction false} OneStep(c: Config, s: State, step: Step, t: State)
    requires Enabled(c, s, step) && LeadsTo(c, Do(c, s, step), t)
    ensures LeadsTo(c, s, t)
  {
    var steps :| Run(c, Do(c, s, step), steps, t);
    assert ([step] + steps)[1..] == steps;
    assert Run(c, s, [step] + steps, t);
  }

  lemma {:induction false} RunsJoin(c: Config, s: State, steps: seq<Step>, t: State, u: State)
    requires Run(c, s, steps, t) && LeadsTo(c, t, u)
    ensures LeadsTo(c, s, u)
    decreases |steps|
  {
    if steps != [] {
      RunsJoin(c, Do(c, s, steps[0]), steps[1..], t, u);
      OneStep(c, s, steps[0], u);
    }
  }

  lemma {:induction false} LeadsOn(c: Config, s: State, t: State, u: State)
    requires LeadsTo(c, s, t) && LeadsTo(c, t, u)
    ensures LeadsTo(c, s, u)
  {
    var steps :| Run(c, s, steps, t);
    RunsJoin(c, s, steps, t, u);
  }

  /** All levels done without an error. */
  ghost predicate Complete(c: Config, s: State) {
    s.level == |c.levels| && !s.open && s.failed == {}
  }

  // ---------- The levels a run is given ----------

  ghost predicate ValidConfig(c: Config) {
    ValidProject(c.project) && Stratified(c.project.g, c.levels) &&
    (forall i, n | At(c.levels, i, n) :: n in c.project.g) &&
    (forall i, j, n | At(c.levels, i, n) && At(c.levels, j, n) :: i == j) &&
    forall i | 0 <= i < |c.levels| :: Distinct(c.levels[i])
  }

  /** What `dag.levels` returns is such a cut. */
  lemma {:induction false} LevelsGiveValidConfig(c: Config)
    requires ValidProject(c.project) && Tidy(c.levels) && ByLongestChain(c.project.g, c.levels)
    ensures ValidConfig(c)
  {
    CutIsStratified(c.project.g, c.levels);
    forall i | 0 <= i < |c.levels| ensures Distinct(c.levels[i]) { IncreasingIsDistinct(c.levels[i]); }
  }

  // ---------- Safety ----------

  /** A log in which `n` may start next: dependencies finished, never started, no failure below. */
  ghost predicate MayStart(c: Config, log: seq<Event>, n: Name) {
    n in c.project.g && Started(n) !in log &&
    (forall d | d in c.project.g[n] :: Succeeded(d) in log) &&
    forall m, i, k | Failed(m) in log && At(c.levels, i, m) && At(c.levels, k, n) :: k <= i
  }

  ghost predicate SafeLog(c: Config, log: seq<Event>) {
    forall k | 0 <= k < |log| && log[k].Started? :: MayStart(c, log[..k], log[k].n)
  }

  /** Index of the first node of the batch that has not been started. */
  function Fresh(w: Worker): nat {
    if w.phase.Running? || w.phase.Crashed? then w.pos + 1 else w.pos
  }

  ghost predicate WorkerOk(c: Config, log: seq<Event>, w: Worker) {
    w.pos <= |w.batch| &&
    (w.phase.Running? || w.phase.Crashed? ==> w.pos < |w.batch|) &&
    (w.phase.Queued? || w.phase.Cancelled? ==> w.pos == 0) &&
    (w.phase.Cancelled? ==> c.failFast) &&
    (w.phase.Finished? ==> w.pos == |w.batch|) &&
    (forall i | 0 <= i < w.pos :: Succeeded(w.batch[i]) in log && Failed(w.batch[i]) !in log) &&
    (w.phase.Running? ==> Started(w.batch[w.pos]) in log &&
                          Succeeded(w.batch[w.pos]) !in log && Failed(w.batch[w.pos]) !in log) &&
    (w.phase.Crashed? ==> Failed(w.batch[w.pos]) in log && Succeeded(w.batch[w.pos]) !in log) &&
    forall i | Fresh(w) <= i < |w.batch| ::
      Started(w.batch[i]) !in log && Succeeded(w.batch[i]) !in log && Failed(w.batch[i]) !in log
  }

  /** The batches of the open level partition it. */
  ghost predicate Partitioned(workers: seq<Worker>, level: seq<Name>) {
    (forall j | 0 <= j < |workers| :: Distinct(workers[j].batch)) &&
    (forall j, n | 0 <= j < |workers| && n in workers[j].batch :: n in level) &&
    (forall j, k, n | 0 <= j < |workers| && 0 <= k < |workers| &&
                      n in workers[j].batch && n in workers[k].batch :: j == k) &&
    forall n | n in level :: exists j :: 0 <= j < |workers| && n in workers[j].batch
  }

  ghost predicate LevelsOk(c: Config, s: State) {
    s.level <= |c.levels| &&
    (forall i, n | At(c.levels, i, n) && i < s.level :: Succeeded(n) in s.log) &&
    (forall i, n | At(c.levels, i, n) && (i > s.level || (i == s.level && !s.open)) ::
       Started(n) !in s.log && Succeeded(n) !in s.log && Failed(n) !in s.log) &&
    forall m | Failed(m) in s.log :: s.open && At(c.levels, s.level, m)
  }

  ghost predicate EventsOk(c: Config, s: State) {
    (forall n | Succeeded(n) in s.log || Failed(n) in s.log :: Started(n) in s.log) &&
    (forall n | Started(n) in s.log :: n in c.project.g) &&
    forall n :: n in s.timed <==> Succeeded(n) in s.log || Failed(n) in s.log
  }

  ghost predicate OpenOk(c: Config, s: State) {
    (!s.open ==> s.workers == []) &&
    (s.open ==> s.level < |c.levels| && Partitioned(s.workers, c.levels[s.level])) &&
    forall j | 0 <= j < |s.workers| :: WorkerOk(c, s.log, s.workers[j])
  }

  /** `failed` holds exactly what the collected futures reported. */
  ghost predicate FailedOk(s: State) {
    (forall j: nat | j in s.observed :: j < |s.workers| ==> Over(s.workers[j]) && Outcomes(s, j) <= s.failed) &&
    forall key | key in s.failed :: exists j: nat :: j in s.observed && j < |s.workers| && key in Outcomes(s, j)
  }

  ghost predicate Inv(c: Config, s: State) {
    LevelsOk(c, s) && EventsOk(c, s) && OpenOk(c, s) && FailedOk(s) && SafeLog(c, s.log)
  }

  lemma {:induction false} WorkerUnaffected(c: Config, log: seq<Event>, w: Worker, e: Event)
    requires WorkerOk(c, log, w) && e.n !in w.batch
    ensures WorkerOk(c, log + [e], w)
  {
  }

  lemma {:induction false} SafeLogAppend(c: Config, log: seq<Event>, e: Event)
    requires SafeLog(c, log) && (e.Started? ==> MayStart(c, log, e.n))
    ensures SafeLog(c, log + [e])
  {
    var next := log + [e];
    forall k | 0 <= k < |next| && next[k].Started? ensures MayStart(c, next[..k], next[k].n) {
      if k < |log| { assert next[..k] == log[..k]; } else { assert next[..k] == log; }
    }
  }

  /** Replacing worker `j`, with an event about a node of its own batch, keeps the other workers right. */
  lemma {:induction false} WorkersStep(c: Config, s: State, j: nat, w: Worker, e: Event)
    requires OpenOk(c, s) && j < |s.workers| && s.open
    requires w.batch == s.workers[j].batch && e.n in w.batch && WorkerOk(c, s.log + [e], w)
    ensures var t := s.(workers := s.workers[j := w], log := s.log + [e]); OpenOk(c, t)
  {
    var t := s.(workers := s.workers[j := w], log := s.log + [e]);
    forall k | 0 <= k < |t.workers| ensures WorkerOk(c, t.log, t.workers[k]) {
      if k != j { WorkerUnaffected(c, s.log, s.workers[k], e); }
    }
    PartitionedStep(s.workers, c.levels[s.level], j, w);
  }

  lemma {:induction false} PartitionedStep(workers: seq<Worker>, level: seq<Name>, j: nat, w: Worker)
    requires Partitioned(workers, level) && j < |workers| && w.batch == workers[j].batch
    ensures Partitioned(workers[j := w], level)
  {
    var next := workers[j := w];
    assert forall k | 0 <= k < |next| :: next[k].batch == workers[k].batch;
    forall n | n in level ensures exists k :: 0 <= k < |next| && n in next[k].batch {
      var k :| 0 <= k < |workers| && n in workers[k].batch;
      assert n in next[k].batch;
    }
  }

  /** A step that changes only the phase of worker `j`. */
  lemma {:induction false} PhaseStep(c: Config, s: State, t: State, j: nat, phase: Phase)
    requires Inv(c, s) && j < |s.workers| && s.open
    requires t.workers == s.workers[j := s.workers[j].(phase := phase)]
    requires t.level == s.level && t.open == s.open && t.log == s.log && t.timed == s.timed
    requires t.observed == s.observed && t.failed == s.failed
    requires WorkerOk(c, s.log, s.workers[j].(phase := phase)) && j !in s.observed
    ensures Inv(c, t)
  {
    PartitionedStep(s.workers, c.levels[s.level], j, s.workers[j].(phase := phase));
    assert FailedOk(t) by { OutcomesStay(s, t, j, s.workers[j].(phase := phase)); }
  }

  /** A step of worker `j` that logs an event about its current node. */
  lemma {:induction false} LogStep(c: Config, s: State, t: State, j: nat, w: Worker, e: Event)
    requires ValidConfig(c) && Inv(c, s) && j < |s.workers| && s.open && j !in s.observed
    requires w.batch == s.workers[j].batch && e.n in w.batch && WorkerOk(c, s.log + [e], w)
    requires e.Started? ==> Started(e.n) !in s.log
    requires !e.Started? ==> Started(e.n) in s.log
    requires t.workers == s.workers[j := w] && t.log == s.log + [e]
    requires t.level == s.level && t.open == s.open && t.observed == s.observed && t.failed == s.failed
    requires t.timed == if e.Started? then s.timed else s.timed + {e.n}
    ensures Inv(c, t)
  {
    var i :| 0 <= i < |w.batch| && w.batch[i] == e.n;
    BatchFacts(c, s, j, i);
    if e.Started? { CurrentMayStart(c, s, e.n); }
    assert SafeLog(c, t.log) by { SafeLogAppend(c, s.log, e); }
    assert LevelsOk(c, t) by { LevelsAppend(c, s, e); }
    assert OpenOk(c, t) by { WorkersStep(c, s, j, w, e); }
    assert EventsOk(c, t) by { EventsAppend(c, s, t, e); }
    assert FailedOk(t) by { OutcomesStay(s, t, j, w); }
  }

  /** A worker whose future is not collected yet does not matter for `failed`. */
  lemma {:induction false} OutcomesStay(s: State, t: State, j: nat, w: Worker)
    requires FailedOk(s) && j < |s.workers| && j !in s.observed && t.workers == s.workers[j := w]
    requires t.level == s.level && t.observed == s.observed && t.failed == s.failed
    ensures FailedOk(t)
  {
    forall k: nat | k in t.observed && k < |t.workers|
      ensures Over(t.workers[k]) && Outcomes(t, k) == Outcomes(s, k)
    {
    }
    forall key | key in t.failed ensures exists k: nat :: k in t.observed && k < |t.workers| && key in Outcomes(t, k) {
      var k: nat :| k in s.observed && k < |s.workers| && key in Outcomes(s, k);
      assert Outcomes(t, k) == Outcomes(s, k);
    }
  }

  lemma {:induction false} EventsAppend(c: Config, s: State, t: State, e: Event)
    requires EventsOk(c, s) && e.n in c.project.g && t.log == s.log + [e]
    requires !e.Started? ==> Started(e.n) in s.log
    requires t.timed == if e.Started? then s.timed else s.timed + {e.n}
    ensures EventsOk(c, t)
  {
  }

  lemma {:induction false} BeginKeeps(c: Config, s: State, j: nat)
    requires ValidConfig(c) && Inv(c, s) && CanBegin(s, j)
    ensures Inv(c, DoBegin(s, j))
  {
    var w := s.workers[j];
    BatchFacts(c, s, j, w.pos);
    DistinctBatch(w, w.pos);
    assert w.batch[w.pos] in w.batch && WorkerOk(c, s.log, w);
    BegunWorker(c, s.log, w);
    LogStep(c, s, DoBegin(s, j), j, w.(phase := Running(Begun)), Started(w.batch[w.pos]));
  }

  lemma {:induction false} DistinctBatch(w: Worker, i: nat)
    requires Distinct(w.batch) && i < |w.batch|
    ensures forall k | 0 <= k < |w.batch| && k != i :: w.batch[k] != w.batch[i]
  {
    forall k | 0 <= k < |w.batch| && k != i ensures w.batch[k] != w.batch[i] {
      assert k < i ==> w.batch[k] != w.batch[i];
      assert i < k ==> w.batch[i] != w.batch[k];
    }
  }

  lemma {:induction false} BatchFacts(c: Config, s: State, j: nat, i: nat)
    requires OpenOk(c, s) && j < |s.workers| && i < |s.workers[j].batch|
    ensures s.open && At(c.levels, s.level, s.workers[j].batch[i]) && Distinct(s.workers[j].batch)
  {
    assert s.workers[j].batch[i] in s.workers[j].batch;
  }

  lemma {:induction false} CurrentMayStart(c: Config, s: State, n: Name)
    requires ValidConfig(c) && LevelsOk(c, s) && s.open && At(c.levels, s.level, n) && Started(n) !in s.log
    ensures MayStart(c, s.log, n)
  {
    forall d | d in c.project.g[n] ensures Succeeded(d) in s.log {
      assert Before(c.levels, s.level, d);
      var i :| i < s.level && At(c.levels, i, d);
    }
    forall m, i, k | Failed(m) in s.log && At(c.levels, i, m) && At(c.levels, k, n) ensures k <= i {
      assert At(c.levels, s.level, m);
    }
  }

  /** An event about a node of the open level keeps what is known of the other levels. */
  lemma {:induction false} LevelsAppend(c: Config, s: State, e: Event)
    requires ValidConfig(c) && LevelsOk(c, s) && s.open && At(c.levels, s.level, e.n)
    ensures LevelsOk(c, s.(log := s.log + [e]))
  {
    forall i, n | At(c.levels, i, n) && i > s.level
      ensures Started(n) !in s.log + [e] && Succeeded(n) !in s.log + [e] && Failed(n) !in s.log + [e]
    {
      assert n != e.n;
    }
  }

  lemma {:induction false} StoreKeeps(c: Config, s: State, j: nat)
    requires ValidConfig(c) && Inv(c, s) && CanStore(c, s, j)
    ensures Inv(c, DoStore(c, s, j))
  {
    var w := s.workers[j];
    BatchFacts(c, s, j, w.pos);
    DistinctBatch(w, w.pos);
    assert w.batch[w.pos] in w.batch && WorkerOk(c, s.log, w);
    StoredWorker(c, s.log, w);
    StoredState(c, s, j);
    LogStep(c, s, DoStore(c, s, j), j, w.(phase := Idle, pos := w.pos + 1), Succeeded(w.batch[w.pos]));
  }

  lemma {:induction false} StoredState(c: Config, s: State, j: nat)
    requires CanStore(c, s, j)
    ensures var w := s.workers[j];
            DoStore(c, s, j).workers == s.workers[j := w.(phase := Idle, pos := w.pos + 1)] &&
            DoStore(c, s, j).log == s.log + [Succeeded(w.batch[w.pos])]
  {
  }

  lemma {:induction false} StoredWorker(c: Config, log: seq<Event>, w: Worker)
    requires WorkerOk(c, log, w) && w.phase.Running?
    requires forall k | 0 <= k < |w.batch| && k != w.pos :: w.batch[k] != w.batch[w.pos]
    ensures WorkerOk(c, log + [Succeeded(w.batch[w.pos])], w.(phase := Idle, pos := w.pos + 1))
  {
  }

  lemma {:induction false} CrashedWorker(c: Config, log: seq<Event>, w: Worker)
    requires WorkerOk(c, log, w) && w.phase.Running?
    requires forall k | 0 <= k < |w.batch| && k != w.pos :: w.batch[k] != w.batch[w.pos]
    ensures WorkerOk(c, log + [Failed(w.batch[w.pos])], w.(phase := Crashed))
  {
  }

  lemma {:induction false} BegunWorker(c: Config, log: seq<Event>, w: Worker)
    requires WorkerOk(c, log, w) && (w.phase.Queued? || w.phase.Idle?) && w.pos < |w.batch|
    requires forall k | 0 <= k < |w.batch| && k != w.pos :: w.batch[k] != w.batch[w.pos]
    ensures WorkerOk(c, log + [Started(w.batch[w.pos])], w.(phase := Running(Begun)))
  {
  }

  lemma {:induction false} CrashKeeps(c: Config, s: State, j: nat, debris: Debris)
    requires ValidConfig(c) && Inv(c, s) && IsRunning(s, j)
    ensures Inv(c, DoCrash(s, j, debris))
  {
    var w := s.workers[j];
    BatchFacts(c, s, j, w.pos);
    DistinctBatch(w, w.pos);
    assert w.batch[w.pos] in w.batch && WorkerOk(c, s.log, w);
    CrashedWorker(c, s.log, w);
    LogStep(c, s, DoCrash(s, j, debris), j, w.(phase := Crashed), Failed(w.batch[w.pos]));
  }

  lemma {:induction false} FlattenHas(groups: seq<seq<Name>>, n: Name)
    ensures n in Flatten(groups) <==> exists j :: 0 <= j < |groups| && n in groups[j]
  {
    if groups != [] {
      FlattenHas(groups[1..], n);
      if n in Flatten(groups[1..]) {
        var j :| 0 <= j < |groups[1..]| && n in groups[1..][j];
        assert n in groups[j + 1];
      }
      if j :| 1 <= j < |groups| && n in groups[j] {
        assert n in groups[1..][j - 1];
      }
    }
  }

  lemma {:induction false} CountOnce(s: seq<Name>, i: nat)
    requires Distinct(s) && i < |s|
    ensures multiset(s)[s[i]] == 1
  {
    var a, b := s[..i], s[i + 1..];
    assert s == a + [s[i]] + b;
    assert s[i] !in a && s[i] !in b;
    assert s[i] !in multiset(a) && s[i] !in multiset(b);
  }

  lemma {:induction false} CountTwice(s: seq<Name>, i: nat, j: nat)
    requires i < j < |s| && s[i] == s[j]
    ensures multiset(s)[s[i]] >= 2
  {
    assert s == s[..j] + s[j..];
    assert s[j] in s[j..] && s[i] in s[..j];
    assert s[j] in multiset(s[j..]) && s[i] in multiset(s[..j]);
  }

  lemma {:induction false} DistinctCounts(s: seq<Name>)
    ensures Distinct(s) <==> forall n | n in s :: multiset(s)[n] == 1
  {
    if Distinct(s) {
      forall n | n in s ensures multiset(s)[n] == 1 {
        var i :| 0 <= i < |s| && s[i] == n;
        CountOnce(s, i);
      }
    } else {
      var i, j :| 0 <= i < j < |s| && s[i] == s[j];
      CountTwice(s, i, j);
    }
  }

  lemma {:induction false} ConcatDistinct(a: seq<Name>, b: seq<Name>)
    requires Distinct(a + b)
    ensures Distinct(a) && Distinct(b) && forall n | n in a :: n !in b
  {
    assert forall i | 0 <= i < |a| :: (a + b)[i] == a[i];
    assert forall i | 0 <= i < |b| :: (a + b)[|a| + i] == b[i];
  }

  lemma {:induction false} FlattenSplits(groups: seq<seq<Name>>)
    requires Distinct(Flatten(groups))
    ensures forall j | 0 <= j < |groups| :: Distinct(groups[j])
    ensures forall j, k, n | 0 <= j < |groups| && 0 <= k < |groups| && n in groups[j] && n in groups[k] :: j == k
  {
    if groups != [] {
      ConcatDistinct(groups[0], Flatten(groups[1..]));
      FlattenSplits(groups[1..]);
      forall k | 1 <= k < |groups| ensures groups[k] == groups[1..][k - 1] { }
      forall k, n | 1 <= k < |groups| && n in groups[k] ensures n !in groups[0] {
        FlattenHas(groups[1..], n);
      }
    }
  }

  lemma {:induction false} OpenKeeps(c: Config, s: State, groups: seq<seq<Name>>)
    requires ValidConfig(c) && Inv(c, s) && CanOpen(c, s, groups)
    ensures Inv(c, DoOpen(s, groups))
  {
    var level, t := c.levels[s.level], DoOpen(s, groups);
    assert Partitioned(t.workers, level) by { OpenPartitions(groups, level, t.workers); }
    forall j | 0 <= j < |t.workers| ensures WorkerOk(c, t.log, t.workers[j]) {
      forall i | 0 <= i < |groups[j]|
        ensures Started(groups[j][i]) !in s.log && Succeeded(groups[j][i]) !in s.log && Failed(groups[j][i]) !in s.log
      {
        assert groups[j][i] in t.workers[j].batch;
        assert At(c.levels, s.level, groups[j][i]);
      }
    }
  }

  lemma {:induction false} OpenPartitions(groups: seq<seq<Name>>, level: seq<Name>, workers: seq<Worker>)
    requires Splits(groups, level) && Distinct(level) && |workers| == |groups|
    requires forall j | 0 <= j < |groups| :: workers[j].batch == groups[j]
    ensures Partitioned(workers, level)
  {
    var flat := Flatten(groups);
    assert forall n :: n in level <==> n in multiset(level);
    assert forall n :: n in flat <==> n in multiset(flat);
    assert Distinct(flat) by {
      DistinctCounts(level);
      DistinctCounts(flat);
    }
    FlattenSplits(groups);
    forall n { FlattenHas(groups, n); }
    forall n | n in level ensures exists j :: 0 <= j < |workers| && n in workers[j].batch {
      var j :| 0 <= j < |groups| && n in groups[j];
      assert n in workers[j].batch;
    }
  }

  /** When every future has been collected without an error, every node of the level succeeded. */
  lemma {:induction false} LevelSucceeded(c: Config, s: State, n: Name)
    requires Inv(c, s) && CanClose(c, s) && n in c.levels[s.level]
    ensures Succeeded(n) in s.log && Failed(n) !in s.log
  {
    var j :| 0 <= j < |s.workers| && n in s.workers[j].batch;
    assert WorkerOk(c, s.log, s.workers[j]) && j in s.observed;
    var k :| 0 <= k < |s.workers[j].batch| && s.workers[j].batch[k] == n;
  }

  lemma {:induction false} CloseKeeps(c: Config, s: State)
    requires ValidConfig(c) && Inv(c, s) && CanClose(c, s)
    ensures Inv(c, DoClose(s))
  {
    forall n | n in c.levels[s.level] ensures Succeeded(n) in s.log && Failed(n) !in s.log {
      LevelSucceeded(c, s, n);
    }
  }

  lemma {:induction false} ObserveKeeps(c: Config, s: State, j: nat)
    requires ValidConfig(c) && Inv(c, s) && CanObserve(s, j)
    ensures Inv(c, DoObserve(s, j))
  {
    assert FailedOk(DoObserve(s, j)) by { ObserveAddsOutcomes(s, j); }
  }

  lemma {:induction false} ObserveAddsOutcomes(s: State, j: nat)
    requires FailedOk(s) && CanObserve(s, j)
    ensures FailedOk(DoObserve(s, j))
  {
    var t := DoObserve(s, j);
    forall key | key in t.failed ensures exists k: nat :: k in t.observed && k < |t.workers| && key in Outcomes(t, k) {
      if key in s.failed {
        var k: nat :| k in s.observed && k < |s.workers| && key in Outcomes(s, k);
        assert Outcomes(t, k) == Outcomes(s, k);
      } else {
        assert key in Outcomes(t, j);
      }
    }
  }

  lemma {:induction false} StepKeepsInv(c: Config, s: State, step: Step)
    requires ValidConfig(c) && Inv(c, s) && Enabled(c, s, step)
    ensures Inv(c, Do(c, s, step))
  {
    match step
    case Open(groups) => OpenKeeps(c, s, groups);
    case Begin(j) => BeginKeeps(c, s, j);
    case Store(j) => StoreKeeps(c, s, j);
    case Crash(j, debris) => CrashKeeps(c, s, j, debris);
    case Close => CloseKeeps(c, s);
    case Observe(j) => ObserveKeeps(c, s, j);
    case Check(j) => StageKeeps(c, s, DoCheck(c, s, j), j, DoCheck(c, s, j).workers[j].phase.stage);
    case Build(j) => StageKeeps(c, s, DoBuild(c, s, j), j, DoBuild(c, s, j).workers[j].phase.stage);
    case Refingerprint(j) =>
      StageKeeps(c, s, DoRefingerprint(c, s, j), j, DoRefingerprint(c, s, j).workers[j].phase.stage);
    case End(j) => OverKeeps(c, s, j, Finished);
    case Cancel(j) => OverKeeps(c, s, j, Cancelled);
  }

  lemma {:induction false} StagedWorker(c: Config, log: seq<Event>, w: Worker, stage: Stage)
    requires WorkerOk(c, log, w) && w.phase.Running?
    ensures WorkerOk(c, log, w.(phase := Running(stage)))
  {
  }

  /** A step that moves the running node of worker `j` to another stage. */
  lemma {:induction false} StageKeeps(c: Config, s: State, t: State, j: nat, stage: Stage)
    requires Inv(c, s) && IsRunning(s, j)
    requires t.workers == s.workers[j := s.workers[j].(phase := Running(stage))]
    requires t.level == s.level && t.open == s.open && t.log == s.log && t.timed == s.timed
    requires t.observed == s.observed && t.failed == s.failed
    ensures Inv(c, t)
  {
    StagedWorker(c, s.log, s.workers[j], stage);
    PhaseStep(c, s, t, j, Running(stage));
  }

  lemma {:induction false} OverKeeps(c: Config, s: State, j: nat, phase: Phase)
    requires Inv(c, s) && if phase.Finished? then CanEnd(s, j) else phase.Cancelled? && CanCancel(c, s, j)
    ensures Inv(c, SetPhase(s, j, phase))
  {
    assert WorkerOk(c, s.log, s.workers[j]);
    PhaseStep(c, s, SetPhase(s, j, phase), j, phase);
  }

  lemma {:induction false} StartInv(c: Config, wh: map<Name, Table>)
    ensures Inv(c, Start(wh))
  {
  }

  lemma {:induction false} RunKeepsInv(c: Config, s: State, steps: seq<Step>, t: State)
    requires ValidConfig(c) && Inv(c, s) && Run(c, s, steps, t)
    ensures Inv(c, t)
    decreases |steps|
  {
    if steps != [] {
      StepKeepsInv(c, s, steps[0]);
      RunKeepsInv(c, Do(c, s, steps[0]), steps[1..], t);
    }
  }

  /** Safety, over every run: a node starts only after all its dependencies succeeded, never twice,
      and never above a level in which a node failed. */
  lemma {:induction false} RunIsSafe(c: Config, wh: map<Name, Table>, steps: seq<Step>, t: State)
    requires ValidConfig(c) && Run(c, Start(wh), steps, t)
    ensures SafeLog(c, t.log)
  {
    StartInv(c, wh);
    RunKeepsInv(c, Start(wh), steps, t);
  }

  // ---------- Accounting of a level ----------

  /** All futures of the open level have been collected. */
  ghost predicate LevelOver(s: State) {
    s.open && AllObserved(s)
  }

  /** `schedule` stops: the level is over and had an error. */
  ghost predicate Halted(s: State) {
    LevelOver(s) && s.failed != {}
  }

  /** `schedule` has returned: all levels are done, or a level had an error. */
  ghost predicate Stopped(c: Config, s: State) {
    Complete(c, s) || Halted(s)
  }

  /** `set(per_node) - prev_nodes`: the nodes timed in this level (`NewNodesAreNew`). */
  ghost function NewNodes(c: Config, s: State): set<Key>
    requires s.level < |c.levels|
  {
    set n | n in s.timed && n in c.levels[s.level] :: NodeKey(n)
  }

  ghost function OkInLevel(c: Config, s: State): nat
    requires s.level < |c.levels|
  {
    |NewNodes(c, s) - s.failed|
  }

  ghost predicate AnyCancelled(s: State) {
    exists j: nat :: j < |s.workers| && s.workers[j].phase.Cancelled?
  }

  /** What a batch looks like when its level is over: a successful prefix, at most one failure right
      after it, and nothing started beyond. */
  ghost predicate Settled(c: Config, log: seq<Event>, w: Worker) {
    w.pos <= |w.batch| &&
    (forall i | 0 <= i < w.pos :: Succeeded(w.batch[i]) in log) &&
    (w.phase.Crashed? ==> w.pos < |w.batch| && Failed(w.batch[w.pos]) in log) &&
    (forall i | 0 <= i < |w.batch| && Started(w.batch[i]) in log && i >= w.pos :: i == w.pos && w.phase.Crashed?) &&
    (w.phase.Finished? ==> w.pos == |w.batch|) &&
    (w.phase.Cancelled? ==> w.pos == 0 && c.failFast) && Over(w)
  }

  lemma {:induction false} SettledWorker(c: Config, s: State, j: nat)
    requires Inv(c, s) && LevelOver(s) && j < |s.workers|
    ensures Settled(c, s.log, s.workers[j])
  {
    assert j in s.observed && WorkerOk(c, s.log, s.workers[j]);
  }

  /** The collected failures: crashed nodes of the level, and the level's key iff a future was cancelled. */
  lemma {:induction false} FailedKeys(c: Config, s: State)
    requires Inv(c, s) && LevelOver(s)
    ensures forall k :: LevelKey(k) in s.failed <==> k == s.level && AnyCancelled(s)
    ensures s.failed - {LevelKey(s.level)} <= NewNodes(c, s)
  {
    if AnyCancelled(s) {
      var j: nat :| j < |s.workers| && s.workers[j].phase.Cancelled?;
      assert Outcomes(s, j) == {LevelKey(s.level)} && j in s.observed;
    }
    forall key | key in s.failed
      ensures key.LevelKey? ==> key == LevelKey(s.level) && AnyCancelled(s)
      ensures key.NodeKey? ==> key in NewNodes(c, s)
    {
      var j: nat :| j in s.observed && j < |s.workers| && key in Outcomes(s, j);
      assert WorkerOk(c, s.log, s.workers[j]);
      if key.NodeKey? { BatchFacts(c, s, j, s.workers[j].pos); }
    }
  }

  /** What a future reports is the failure of the node it was running. */
  lemma {:induction false} ReportedFailed(c: Config, s: State, n: Name)
    requires Inv(c, s) && NodeKey(n) in s.failed
    ensures Failed(n) in s.log
  {
    var j: nat :| j in s.observed && j < |s.workers| && NodeKey(n) in Outcomes(s, j);
    assert WorkerOk(c, s.log, s.workers[j]);
  }

  lemma {:induction false} FailedIsReported(c: Config, s: State, n: Name)
    requires ValidConfig(c) && Inv(c, s) && LevelOver(s) && Failed(n) in s.log
    ensures NodeKey(n) in s.failed
  {
    assert At(c.levels, s.level, n);
    var j: nat :| j < |s.workers| && n in s.workers[j].batch;
    var w := s.workers[j];
    var i :| 0 <= i < |w.batch| && w.batch[i] == n;
    FailedIsCrashed(c, s.log, w, i);
    assert j in s.observed && Outcomes(s, j) == {NodeKey(n)};
  }

  lemma {:induction false} FailedIsCrashed(c: Config, log: seq<Event>, w: Worker, i: nat)
    requires WorkerOk(c, log, w) && Over(w) && i < |w.batch| && Failed(w.batch[i]) in log
    ensures w.phase.Crashed? && w.pos == i
  {
  }

  lemma {:induction false} KeysSize(ns: set<Name>)
    ensures |set n | n in ns :: NodeKey(n)| == |ns|
  {
    if ns != {} {
      var m :| m in ns;
      KeysSize(ns - {m});
      assert (set n | n in ns :: NodeKey(n)) == (set n | n in ns - {m} :: NodeKey(n)) + {NodeKey(m)};
    }
  }

  /** The nodes of the open level that succeeded. */
  ghost function SucceededNow(c: Config, s: State): set<Name>
    requires s.level < |c.levels|
  {
    set n | n in c.levels[s.level] && Succeeded(n) in s.log
  }

  /** The ok count is the number of nodes of the level that succeeded. */
  lemma {:induction false} OkCountsSuccesses(c: Config, s: State)
    requires ValidConfig(c) && Inv(c, s) && LevelOver(s)
    ensures OkInLevel(c, s) == |SucceededNow(c, s)|
  {
    forall key ensures key in NewNodes(c, s) - s.failed <==> key.NodeKey? && key.n in SucceededNow(c, s) {
      if key in NewNodes(c, s) || (key.NodeKey? && key.n in SucceededNow(c, s)) {
        OverMeansDecided(c, s, key.n);
        if key in s.failed { ReportedFailed(c, s, key.n); }
        if Failed(key.n) in s.log { FailedIsReported(c, s, key.n); }
      }
    }
    KeysSize(SucceededNow(c, s));
    assert NewNodes(c, s) - s.failed == set n | n in SucceededNow(c, s) :: NodeKey(n);
  }

  /** What the first `n` futures report. */
  ghost function Reported(s: State, n: nat): (r: set<Key>)
    requires n <= |s.workers|
    ensures |r| <= n
    ensures forall j: nat | j < n :: Outcomes(s, j) <= r
  {
    if n == 0 then {}
    else
      var before := Reported(s, n - 1);
      assert |before + Outcomes(s, n - 1)| <= |before| + |Outcomes(s, n - 1)|;
      before + Outcomes(s, n - 1)
  }

  lemma {:induction false} FailuresPerBatch(s: State)
    requires FailedOk(s)
    ensures |s.failed| <= |s.workers|
  {
    var reported := Reported(s, |s.workers|);
    forall key | key in s.failed ensures key in reported {
      var j: nat :| j in s.observed && j < |s.workers| && key in Outcomes(s, j);
    }
    SubsetSize(s.failed, reported);
  }

  lemma {:induction false} CountSplit(a: set<Key>, b: set<Key>, key: Key)
    requires b - {key} <= a && key !in a
    ensures |a - b| + |b| == |a| + if key in b then 1 else 0
  {
    assert a == (a - b) + (b - {key});
    assert b == (b - {key}) + if key in b then {key} else {};
  }

  lemma {:induction false} StartedIsTimed(c: Config, s: State, n: Name)
    requires ValidConfig(c) && Inv(c, s) && LevelOver(s) && n in c.levels[s.level]
    ensures n in s.timed <==> Started(n) in s.log
  {
    var j :| 0 <= j < |s.workers| && n in s.workers[j].batch;
    SettledWorker(c, s, j);
    var i :| 0 <= i < |s.workers[j].batch| && s.workers[j].batch[i] == n;
  }

  /** The counters of a level that is over: `failed` holds the nodes that failed, and the level's own key iff a
      future was cancelled; ok counts the nodes that succeeded; both add up to the nodes started, plus one when
      a future was cancelled; failures number at most the batches; without a failure every node ran. */
  ghost predicate Balanced(c: Config, s: State)
    requires s.level < |c.levels|
  {
    (forall n :: NodeKey(n) in s.failed <==> Failed(n) in s.log) &&
    (forall k :: LevelKey(k) in s.failed <==> k == s.level && AnyCancelled(s)) &&
    OkInLevel(c, s) == |SucceededNow(c, s)| &&
    OkInLevel(c, s) + |s.failed| == |NewNodes(c, s)| + (if AnyCancelled(s) then 1 else 0) &&
    (forall n | n in c.levels[s.level] :: NodeKey(n) in NewNodes(c, s) <==> Started(n) in s.log) &&
    |s.failed| <= |s.workers| &&
    (!c.failFast ==> !AnyCancelled(s)) &&
    (s.failed == {} ==> forall n | n in c.levels[s.level] :: Succeeded(n) in s.log)
  }

  lemma {:induction false} LevelCounts(c: Config, s: State)
    requires ValidConfig(c) && Inv(c, s) && LevelOver(s)
    ensures Balanced(c, s)
  {
    var begun, failed, key := NewNodes(c, s), s.failed, LevelKey(s.level);
    FailedKeys(c, s);
    CountSplit(begun, failed, key);
    FailuresPerBatch(s);
    OkCountsSuccesses(c, s);
    forall n ensures NodeKey(n) in s.failed <==> Failed(n) in s.log {
      if NodeKey(n) in s.failed { ReportedFailed(c, s, n); }
      if Failed(n) in s.log { FailedIsReported(c, s, n); }
    }
    forall n | n in c.levels[s.level] ensures n in s.timed <==> Started(n) in s.log { StartedIsTimed(c, s, n); }
    if s.failed == {} {
      forall n | n in c.levels[s.level] ensures Succeeded(n) in s.log { LevelSucceeded(c, s, n); }
    }
    forall j: nat | j < |s.workers| && s.workers[j].phase.Cancelled? ensures c.failFast { SettledWorker(c, s, j); }
  }

  /** In every run, the batches of a level that is over have settled. */
  lemma {:induction false} BatchesSettle(c: Config, wh: map<Name, Table>, steps: seq<Step>, t: State)
    requires ValidConfig(c) && Run(c, Start(wh), steps, t) && LevelOver(t)
    ensures forall j | 0 <= j < |t.workers| :: Settled(c, t.log, t.workers[j])
  {
    StartInv(c, wh);
    RunKeepsInv(c, Start(wh), steps, t);
    forall j: nat | j < |t.workers| ensures Settled(c, t.log, t.workers[j]) { SettledWorker(c, t, j); }
  }

  /** What was timed since the level was opened is what was timed of its own nodes. */
  lemma {:induction false} NewNodesAreNew(c: Config, wh: map<Name, Table>, before: seq<Step>, s: State,
                                          steps: seq<Step>, t: State)
    requires ValidConfig(c) && Run(c, Start(wh), before, s) && Run(c, s, steps, t)
    requires !s.open && t.open && t.level == s.level
    ensures t.level < |c.levels| && NewNodes(c, t) == set n | n in t.timed - s.timed :: NodeKey(n)
  {
    StartInv(c, wh);
    RunKeepsInv(c, Start(wh), before, s);
    RunKeepsInv(c, s, steps, t);
    forall n ensures n in t.timed && n in c.levels[t.level] <==> n in t.timed - s.timed { TimedIsLower(c, s, t, n); }
  }

  lemma {:induction false} TimedIsLower(c: Config, s: State, t: State, n: Name)
    requires ValidConfig(c) && Inv(c, s) && Inv(c, t) && !s.open && t.open && t.level == s.level < |c.levels|
    ensures n in t.timed && n in c.levels[t.level] <==> n in t.timed - s.timed
  {
    if n in t.timed {
      assert Started(n) in t.log && Placed(c.levels, n);
      var i :| At(c.levels, i, n);
      if i < s.level { assert Succeeded(n) in s.log; }
      if n in c.levels[t.level] { assert At(c.levels, t.level, n); }
    }
  }

  /** In every run, the counters of a level that is over balance. */
  lemma {:induction false} LevelAccounting(c: Config, wh: map<Name, Table>, steps: seq<Step>, t: State)
    requires ValidConfig(c) && Run(c, Start(wh), steps, t) && LevelOver(t)
    ensures t.level < |c.levels| && Balanced(c, t)
  {
    StartInv(c, wh);
    RunKeepsInv(c, Start(wh), steps, t);
    LevelCounts(c, t);
  }

  /** At any point of any run, what is recorded as failed has failed. */
  lemma {:induction false} RecordedFailures(c: Config, wh: map<Name, Table>, steps: seq<Step>, t: State)
    requires ValidConfig(c) && Run(c, Start(wh), steps, t)
    ensures forall n | NodeKey(n) in t.failed :: Failed(n) in t.log
  {
    StartInv(c, wh);
    RunKeepsInv(c, Start(wh), steps, t);
    forall n | NodeKey(n) in t.failed { ReportedFailed(c, t, n); }
  }

  // ---------- Cancelled futures ----------

  /** A future is cancelled only once a node's failure has been collected. */
  ghost predicate CancelOk(s: State) {
    AnyCancelled(s) ==> exists n :: NodeKey(n) in s.failed
  }

  lemma {:induction false} CancelKeepsCancelOk(c: Config, s: State, j: nat)
    requires FailedOk(s) && CancelOk(s) && CanCancel(c, s, j)
    ensures CancelOk(SetPhase(s, j, Cancelled))
  {
    var key :| key in s.failed;
    if key.LevelKey? {
      var k: nat :| k in s.observed && k < |s.workers| && key in Outcomes(s, k);
      assert s.workers[k].phase.Cancelled?;
    } else {
      assert key == NodeKey(key.n);
    }
  }

  lemma {:induction false} NoNewCancelled(s: State, t: State)
    requires CancelOk(s) && s.failed <= t.failed
    requires forall j: nat | j < |t.workers| && t.workers[j].phase.Cancelled? ::
               j < |s.workers| && s.workers[j].phase.Cancelled?
    ensures CancelOk(t)
  {
    if AnyCancelled(t) {
      var j: nat :| j < |t.workers| && t.workers[j].phase.Cancelled?;
      assert s.workers[j].phase.Cancelled?;
      var n :| NodeKey(n) in s.failed;
      assert NodeKey(n) in t.failed;
    }
  }

  lemma {:induction false} StepKeepsCancelOk(c: Config, s: State, step: Step)
    requires FailedOk(s) && CancelOk(s) && Enabled(c, s, step)
    ensures CancelOk(Do(c, s, step))
  {
    if step.Cancel? { CancelKeepsCancelOk(c, s, step.j); } else { NoNewCancelled(s, Do(c, s, step)); }
  }

  lemma {:induction false} RunKeepsCancelOk(c: Config, s: State, steps: seq<Step>, t: State)
    requires ValidConfig(c) && Inv(c, s) && CancelOk(s) && Run(c, s, steps, t)
    ensures CancelOk(t)
    decreases |steps|
  {
    if steps != [] {
      StepKeepsInv(c, s, steps[0]);
      StepKeepsCancelOk(c, s, steps[0]);
      RunKeepsCancelOk(c, Do(c, s, steps[0]), steps[1..], t);
    }
  }

  /** In every run, a future is cancelled only under fail-fast and only after a node has failed; a cancelled
      future has started nothing. */
  lemma {:induction false} CancelledOnlyAfterFailure(c: Config, wh: map<Name, Table>, steps: seq<Step>, t: State,
                                                     j: nat)
    requires ValidConfig(c) && Run(c, Start(wh), steps, t) && j < |t.workers| && t.workers[j].phase.Cancelled?
    ensures c.failFast && (exists n :: NodeKey(n) in t.failed && Failed(n) in t.log)
    ensures forall n | n in t.workers[j].batch :: Started(n) !in t.log
  {
    StartInv(c, wh);
    RunKeepsInv(c, Start(wh), steps, t);
    RunKeepsCancelOk(c, Start(wh), steps, t);
    CancelledFacts(c, t, j);
  }

  lemma {:induction false} CancelledFacts(c: Config, t: State, j: nat)
    requires Inv(c, t) && CancelOk(t) && j < |t.workers| && t.workers[j].phase.Cancelled?
    ensures c.failFast && (exists n :: NodeKey(n) in t.failed && Failed(n) in t.log)
    ensures forall n | n in t.workers[j].batch :: Started(n) !in t.log
  {
    CancelledStartedNothing(c, t, j);
    var n :| NodeKey(n) in t.failed;
    ReportedFailed(c, t, n);
  }

  lemma {:induction false} CancelledStartedNothing(c: Config, t: State, j: nat)
    requires OpenOk(c, t) && j < |t.workers| && t.workers[j].phase.Cancelled?
    ensures c.failFast && forall n | n in t.workers[j].batch :: Started(n) !in t.log
  {
    assert WorkerOk(c, t.log, t.workers[j]);
  }

  /** In a level that is over, what was started either succeeded or failed. */
  lemma {:induction false} OverMeansDecided(c: Config, s: State, n: Name)
    requires ValidConfig(c) && Inv(c, s) && LevelOver(s) && n in c.levels[s.level]
    ensures Started(n) in s.log && Succeeded(n) !in s.log <==> Failed(n) in s.log
  {
    var j :| 0 <= j < |s.workers| && n in s.workers[j].batch;
    SettledWorker(c, s, j);
    var i :| 0 <= i < |s.workers[j].batch| && s.workers[j].batch[i] == n;
    assert WorkerOk(c, s.log, s.workers[j]);
  }

  /** Once the schedule has returned, every node that was started either succeeded or failed. */
  lemma {:induction false} StoppedMeansDecided(c: Config, s: State, n: Name)
    requires ValidConfig(c) && Inv(c, s) && Stopped(c, s)
    ensures Started(n) in s.log && Succeeded(n) !in s.log <==> Failed(n) in s.log
  {
    if n in c.project.g {
      assert Placed(c.levels, n);
      var i :| At(c.levels, i, n);
      if s.open && i == s.level { OverMeansDecided(c, s, n); }
    }
  }

  // ---------- Workers are independent ----------

  /** A level may be cut in any way, and all its batches may be under way at once. */
  lemma {:induction false} AnySplitOpens(c: Config, s: State, groups: seq<seq<Name>>)
    requires !s.open && s.failed == {} && s.level < |c.levels|
    requires multiset(Flatten(groups)) == multiset(c.levels[s.level])
    ensures Enabled(c, s, Open(groups)) && |Do(c, s, Open(groups)).workers| == |groups|
    ensures forall j: nat | j < |groups| ::
              Do(c, s, Open(groups)).workers[j] == Worker(groups[j], 0, Queued) &&
              (groups[j] != [] ==> Enabled(c, Do(c, s, Open(groups)), Begin(j)))
  {
  }

  /** What one worker can do, other workers do not prevent. (Building needs the inputs as well:
      `CachedRuns.BuildIsNotPrevented`.) */
  lemma {:induction false} WorkersDoNotBlock(c: Config, s: State, a: Step, b: Step)
    requires Enabled(c, s, a) && !a.Open? && !a.Close?
    requires Enabled(c, s, b) && !b.Open? && !b.Close? && !b.Build? && a.j != b.j
    ensures Enabled(c, Do(c, s, a), b)
  {
    var t := Do(c, s, a);
    assert b.j < |s.workers| == |t.workers| && t.workers[b.j] == s.workers[b.j];
  }

  // ---------- What a failure drops ----------

  /** The worker's future has started every node of its batch. */
  ghost predicate StartedAll(w: Worker) {
    (w.phase.Crashed? ==> w.pos + 1 == |w.batch|) && (w.phase.Cancelled? ==> w.batch == [])
  }

  lemma {:induction false} WorkerStartedAllIff(c: Config, s: State, j: nat)
    requires Inv(c, s) && LevelOver(s) && j < |s.workers|
    ensures (forall n | n in s.workers[j].batch :: Started(n) in s.log) <==> StartedAll(s.workers[j])
  {
    var w := s.workers[j];
    SettledWorker(c, s, j);
    assert WorkerOk(c, s.log, w);
    if !StartedAll(w) { assert Started(w.batch[Fresh(w)]) !in s.log; }
  }

  /** In a level that is over, under either policy, every node was started iff no failure came before the end
      of its batch and only empty batches were cancelled. */
  lemma {:induction false} LevelStartedIff(c: Config, wh: map<Name, Table>, steps: seq<Step>, t: State)
    requires ValidConfig(c) && Run(c, Start(wh), steps, t) && LevelOver(t)
    ensures t.level < |c.levels|
    ensures (forall n | n in c.levels[t.level] :: Started(n) in t.log)
            <==> forall j | 0 <= j < |t.workers| :: StartedAll(t.workers[j])
    ensures !c.failFast ==> forall j | 0 <= j < |t.workers| :: !t.workers[j].phase.Cancelled?
  {
    StartInv(c, wh);
    RunKeepsInv(c, Start(wh), steps, t);
    forall j: nat | j < |t.workers|
      ensures (forall n | n in t.workers[j].batch :: Started(n) in t.log) <==> StartedAll(t.workers[j])
      ensures !c.failFast ==> !t.workers[j].phase.Cancelled?
    {
      WorkerStartedAllIff(c, t, j);
      assert WorkerOk(c, t.log, t.workers[j]);
    }
  }

  /** So `keep_going` runs a whole level, whatever fails, when it was cut into batches of at most one node. */
  lemma {:induction false} SingleBatchesDropNothing(c: Config, wh: map<Name, Table>, steps: seq<Step>, t: State)
    requires ValidConfig(c) && Run(c, Start(wh), steps, t) && LevelOver(t) && !c.failFast
    requires forall j | 0 <= j < |t.workers| :: |t.workers[j].batch| <= 1
    ensures t.level < |c.levels| && forall n | n in c.levels[t.level] :: Started(n) in t.log
  {
    LevelStartedIff(c, wh, steps, t);
    BatchesSettle(c, wh, steps, t);
    forall j | 0 <= j < |t.workers| ensures StartedAll(t.workers[j]) {
      assert Settled(c, t.log, t.workers[j]);
    }
  }

  const FIRST := Name("first")
  const SECOND := Name("second")

  /** Two independent models. */
  function TwoModels(failFast: bool): Config {
    Config(Project(map[FIRST := [], SECOND := []], _ => Sql, _ => "", ""), [[FIRST, SECOND]], RW, {}, failFast, map[],
           (_, _, _, _) => Table([]))
  }

  lemma {:induction false} TwoModelsAreValid(failFast: bool)
    ensures FIRST != SECOND && ValidConfig(TwoModels(failFast))
  {
    assert FIRST.text[0] == 'f' && SECOND.text[0] == 's';
    var c := TwoModels(failFast);
    var rank: map<Name, nat> := map[FIRST := 0, SECOND := 0];
    assert Ranked(c.project.g, rank);
    RankedGraphIsAcyclic(c.project.g, rank);
    forall n | n in c.project.g ensures Placed(c.levels, n) { assert At(c.levels, 0, n); }
  }

  lemma {:induction false} ObserveOnly(s: State) returns (t: State)
    requires s.open && s.observed == {} && |s.workers| == 1 && Over(s.workers[0])
    ensures CanObserve(s, 0) && t == DoObserve(s, 0) && LevelOver(t)
  {
    t := DoObserve(s, 0);
    assert 0 in t.observed;
  }

  /** The level's only future fails with its first node. */
  lemma {:induction false} FirstFails(c: Config, s: State, batch: seq<Name>) returns (t: State)
    requires batch != [] && s.workers == [Worker(batch, 0, Queued)]
    requires s.open && s.observed == {} && s.failed == {}
    ensures LeadsTo(c, s, t) && t.level == s.level && LevelOver(t)
    ensures t.log == s.log + [Started(batch[0])] + [Failed(batch[0])]
  {
    var begun := DoBegin(s, 0);
    assert begun.workers == [Worker(batch, 0, Running(Begun))];
    var crashed := DoCrash(begun, 0, Untouched);
    assert crashed.workers == [Worker(batch, 0, Crashed)];
    t := ObserveOnly(crashed);
    assert Run(c, t, [], t);
    OneStep(c, crashed, Observe(0), t) by { assert Enabled(c, crashed, Observe(0)); }
    OneStep(c, begun, Crash(0, Untouched), t) by { assert Enabled(c, begun, Crash(0, Untouched)); }
    OneStep(c, s, Begin(0), t) by { assert Enabled(c, s, Begin(0)); }
  }

  /** With one batch for both, the failure of the first model keeps the second from being started. */
  lemma {:induction false} KeepGoingCanDropANode() returns (steps: seq<Step>, t: State)
    ensures ValidConfig(TwoModels(false)) && !TwoModels(false).failFast && Run(TwoModels(false), Start(map[]), steps, t)
    ensures LevelOver(t) && t.level == 0 && SECOND in TwoModels(false).levels[0] && Started(SECOND) !in t.log
  {
    TwoModelsAreValid(false);
    var c, s, batch := TwoModels(false), Start(map[]), [FIRST, SECOND];
    assert Flatten([batch]) == batch by { assert Flatten([batch]) == batch + Flatten([]); }
    var queued := DoOpen(s, [batch]);
    assert queued.workers == [Worker(batch, 0, Queued)];
    t := FirstFails(c, queued, batch);
    OneStep(c, s, Open([batch]), t);
    steps :| Run(c, s, steps, t);
  }

  /** Under fail-fast, with a batch for each, the failure of the first model cancels the other future while it
      waits for a thread; the level reports two failures, one of them under its own key. */
  lemma {:induction false} FailFastCanCancel() returns (steps: seq<Step>, t: State)
    ensures ValidConfig(TwoModels(true)) && Run(TwoModels(true), Start(map[]), steps, t) && Halted(t)
    ensures t.failed == {NodeKey(FIRST), LevelKey(0)} && Started(SECOND) !in t.log
  {
    TwoModelsAreValid(true);
    var c, s := TwoModels(true), Start(map[]);
    var groups := [[FIRST], [SECOND]];
    assert Flatten(groups) == [FIRST, SECOND] by {
      assert groups[1..] == [[SECOND]] && Flatten([[SECOND]]) == [SECOND] + Flatten([]);
    }
    var queued := DoOpen(s, groups);
    assert queued.workers == [Worker([FIRST], 0, Queued), Worker([SECOND], 0, Queued)];
    t := SecondIsCancelled(c, queued);
    OneStep(c, s, Open(groups), t);
    steps :| Run(c, s, steps, t);
  }

  lemma {:induction false} SecondIsCancelled(c: Config, s: State) returns (t: State)
    requires c.failFast && s.open && s.level == 0 && s.observed == {} && s.failed == {} && s.log == []
    requires s.workers == [Worker([FIRST], 0, Queued), Worker([SECOND], 0, Queued)] && FIRST != SECOND
    ensures LeadsTo(c, s, t) && Halted(t)
    ensures t.failed == {NodeKey(FIRST), LevelKey(0)} && Started(SECOND) !in t.log
  {
    var begun := DoBegin(s, 0);
    assert begun.workers == [Worker([FIRST], 0, Running(Begun)), Worker([SECOND], 0, Queued)];
    var crashed := DoCrash(begun, 0, Untouched);
    assert crashed.workers == [Worker([FIRST], 0, Crashed), Worker([SECOND], 0, Queued)];
    t := BothAreCollected(c, crashed);
    OneStep(c, begun, Crash(0, Untouched), t) by { assert Enabled(c, begun, Crash(0, Untouched)); }
    OneStep(c, s, Begin(0), t) by { assert Enabled(c, s, Begin(0)); }
  }

  lemma {:induction false} BothAreCollected(c: Config, s: State) returns (t: State)
    requires c.failFast && s.open && s.level == 0 && s.observed == {} && s.failed == {}
    requires s.workers == [Worker([FIRST], 0, Crashed), Worker([SECOND], 0, Queued)]
    ensures LeadsTo(c, s, t) && Halted(t) && t.log == s.log && t.failed == {NodeKey(FIRST), LevelKey(0)}
  {
    CollectsFirst(s);
    t := SecondIsCollected(c, DoObserve(s, 0));
    ObserveFirst(c, s, 0, t);
  }

  lemma {:induction false} SecondIsCollected(c: Config, s: State) returns (t: State)
    requires c.failFast && s.open && s.level == 0 && s.observed == {0} && s.failed == {NodeKey(FIRST)}
    requires s.workers == [Worker([FIRST], 0, Crashed), Worker([SECOND], 0, Queued)]
    ensures LeadsTo(c, s, t) && Halted(t) && t.log == s.log && t.failed == {NodeKey(FIRST), LevelKey(0)}
  {
    CancelsSecond(c, s);
    var cancelled := SetPhase(s, 1, Cancelled);
    CollectsSecond(cancelled);
    t := DoObserve(cancelled, 1);
    EndsThere(c, t);
    ObserveFirst(c, cancelled, 1, t);
    CancelFirst(c, s, 1, t);
  }

  lemma {:induction false} EndsThere(c: Config, t: State)
    ensures LeadsTo(c, t, t)
  {
    assert Run(c, t, [], t);
  }

  lemma {:induction false} ObserveFirst(c: Config, s: State, j: nat, t: State)
    requires CanObserve(s, j) && LeadsTo(c, DoObserve(s, j), t)
    ensures LeadsTo(c, s, t)
  {
    OneStep(c, s, Observe(j), t);
  }

  lemma {:induction false} CancelFirst(c: Config, s: State, j: nat, t: State)
    requires CanCancel(c, s, j) && LeadsTo(c, SetPhase(s, j, Cancelled), t)
    ensures LeadsTo(c, s, t)
  {
    OneStep(c, s, Cancel(j), t);
  }

  lemma {:induction false} CollectsFirst(s: State)
    requires s.observed == {} && s.failed == {}
    requires s.workers == [Worker([FIRST], 0, Crashed), Worker([SECOND], 0, Queued)]
    ensures CanObserve(s, 0) && DoObserve(s, 0) == s.(observed := {0}, failed := {NodeKey(FIRST)})
  {
    assert Outcomes(s, 0) == {NodeKey(FIRST)};
  }

  lemma {:induction false} CancelsSecond(c: Config, s: State)
    requires c.failFast && s.failed == {NodeKey(FIRST)}
    requires s.workers == [Worker([FIRST], 0, Crashed), Worker([SECOND], 0, Queued)]
    ensures CanCancel(c, s, 1)
    ensures SetPhase(s, 1, Cancelled) ==
            s.(workers := [Worker([FIRST], 0, Crashed), Worker([SECOND], 0, Cancelled)])
  {
    assert NodeKey(FIRST) in s.failed;
  }

  lemma {:induction false} CollectsSecond(s: State)
    requires s.open && s.observed == {0} && s.failed == {NodeKey(FIRST)} && s.level == 0
    requires s.workers == [Worker([FIRST], 0, Crashed), Worker([SECOND], 0, Cancelled)]
    ensures CanObserve(s, 1)
    ensures DoObserve(s, 1).failed == {NodeKey(FIRST), LevelKey(0)} && DoObserve(s, 1).log == s.log
    ensures Halted(DoObserve(s, 1))
  {
    assert Outcomes(s, 1) == {LevelKey(0)};
  }
}
