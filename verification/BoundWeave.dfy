/** The bound-weave rounds of the system: the main thread forks one task per rank of a phase onto the thread pool,
    joins them through their futures, and does so for the bound phase and then the weave phase of every round.
    Main thread and workers interleave step by step. */
module BoundWeave {
  import Pool = ThreadPool
  import opened Wrappers

  datatype Phase = Bound | Weave

  datatype Task = Task(round: nat, phase: Phase, rank: nat)

  // A rank's scheduler: the tick it stands at, and whatever it simulates.
  datatype Rank<S> = Rank(tick: nat, model: S)

  /** `advance` is what simulating one interval does to a rank, `finished` what its scheduler then reports.
      Ranks of one phase share nothing. */
  datatype Config<!S> = Config(
    advance: (S, nat) -> S, finished: S -> bool, interval: nat,
    bound: seq<Rank<S>>, weave: seq<Rank<S>>, maxThreads: nat)

  // The main thread: pushing task i, about to signal it, waiting for future i, or stopped.
  datatype Main =
    | Pushing(phase: Phase, i: nat)
    | Signalling(phase: Phase, i: nat)
    | Getting(phase: Phase, i: nat)
    | Stopped

  /** `futures` are those of the current phase: whether each task found its rank unfinished, once it has run.
      `finished` is the local result of runPhaseEvent, `boundFinished` that of the bound phase of this round. */
  datatype State<S> = State(
    pool: Pool.State<Task>, bound: seq<Rank<S>>, weave: seq<Rank<S>>, round: nat, main: Main,
    futures: seq<Option<bool>>, finished: bool, boundFinished: bool)

  datatype Step = MainStep(pick: nat) | WorkerStep(w: nat) | FinishStep(w: nat) | SpuriousStep(w: nat)

  // finalize(): one worker per rank of the larger phase unless the user chose a number.
  function PoolSize(maxThreads: nat, bound: nat, weave: nat): nat {
    if maxThreads == 0 then (if bound < weave then weave else bound) else maxThreads
  }

  function Threads<S>(cfg: Config<S>): nat {
    PoolSize(cfg.maxThreads, |cfg.bound|, |cfg.weave|)
  }

  function Initial<S>(cfg: Config<S>): State<S> {
    State(Pool.Initial(Threads(cfg)), cfg.bound, cfg.weave, 0, Pushing(Bound, 0), [], true, true)
  }

  function Ranks<S>(s: State<S>, phase: Phase): seq<Rank<S>> {
    if phase.Bound? then s.bound else s.weave
  }

  function Run<S>(cfg: Config<S>, r: Rank<S>): Rank<S> {
    Rank(r.tick + cfg.interval, cfg.advance(r.model, cfg.interval))
  }

  // The bounds in the case of FinishStep hold whenever a task runs (RunningTask); they keep no worker from finishing.
  ghost predicate Enabled<S>(cfg: Config<S>, s: State<S>, step: Step) {
    match step
    case MainStep(pick) =>
      (match s.main
       case Pushing(_, _) => true
       case Signalling(_, _) => Pool.Enabled(s.pool, Pool.NotifyOne(pick))
       case Getting(phase, i) => i < |Ranks(s, phase)| ==> i < |s.futures| && s.futures[i].Some?
       case Stopped => false)
    case WorkerStep(w) => Pool.Enabled(s.pool, Pool.Check(w))
    case FinishStep(w) =>
      Pool.Enabled(s.pool, Pool.Finish(w)) &&
      var t := s.pool.workers[w].task; t.rank < |s.futures| && t.rank < |Ranks(s, t.phase)|
    case SpuriousStep(w) => Pool.Enabled(s.pool, Pool.Spurious(w))
  }

  // The main thread: runPhaseEvent for either phase, and the decision of handleBoundWeaveEvent after both.
  function MainDoes<S>(cfg: Config<S>, s: State<S>, pick: nat): State<S>
    requires Enabled(cfg, s, MainStep(pick))
  {
    match s.main
    case Pushing(phase, i) =>
      if i < |Ranks(s, phase)| then
        s.(pool := Pool.Apply(s.pool, Pool.Enqueue(Task(s.round, phase, i))), futures := s.futures + [None],
           main := Signalling(phase, i))
      else s.(main := Getting(phase, 0))
    case Signalling(phase, i) =>
      s.(pool := Pool.Apply(s.pool, Pool.NotifyOne(pick)), main := Pushing(phase, i + 1))
    case Getting(phase, i) =>
      if i < |Ranks(s, phase)| then
        s.(finished := s.finished && !s.futures[i].value, main := Getting(phase, i + 1))
      else if phase.Bound? then
        s.(boundFinished := s.finished, finished := true, futures := [], main := Pushing(Weave, 0))
      else if s.boundFinished && s.finished then s.(main := Stopped)
      else s.(round := s.round + 1, finished := true, futures := [], main := Pushing(Bound, 0))
  }

  // A worker completes its task: the rank has run for one interval and the future is ready.
  function TaskDone<S>(cfg: Config<S>, s: State<S>, w: nat): State<S>
    requires Enabled(cfg, s, FinishStep(w))
  {
    var Task(_, phase, j) := s.pool.workers[w].task;
    var r := Run(cfg, Ranks(s, phase)[j]);
    var t := s.(pool := Pool.Apply(s.pool, Pool.Finish(w)), futures := s.futures[j := Some(!cfg.finished(r.model))]);
    if phase.Bound? then t.(bound := s.bound[j := r]) else t.(weave := s.weave[j := r])
  }

  function Apply<S>(cfg: Config<S>, s: State<S>, step: Step): State<S>
    requires Enabled(cfg, s, step)
  {
    match step
    case MainStep(pick) => MainDoes(cfg, s, pick)
    case WorkerStep(w) => s.(pool := Pool.Apply(s.pool, Pool.Check(w)))
    case FinishStep(w) => TaskDone(cfg, s, w)
    case SpuriousStep(w) => s.(pool := Pool.Apply(s.pool, Pool.Spurious(w)))
  }

  ghost predicate IsRun<S(!new)>(cfg: Config<S>, trace: seq<State<S>>, steps: seq<Step>) {
    && |trace| == |steps| + 1
    && trace[0] == Initial(cfg)
    && forall i :: 0 <= i < |steps| ==>
         Enabled(cfg, trace[i], steps[i]) && trace[i + 1] == Apply(cfg, trace[i], steps[i])
  }

  /* The sequential reference */

  function Times<S>(cfg: Config<S>, r: Rank<S>, n: nat): Rank<S> {
    if n == 0 then r else Run(cfg, Times(cfg, r, n - 1))
  }

  // Running each rank of a phase once, in map order, on one thread.
  function SequentialPhase<S>(cfg: Config<S>, ranks: seq<Rank<S>>): (seq<Rank<S>>, bool) {
    if ranks == [] then ([], true)
    else
      var (before, finished) := SequentialPhase(cfg, ranks[..|ranks| - 1]);
      var r := Run(cfg, ranks[|ranks| - 1]);
      (before + [r], finished && cfg.finished(r.model))
  }

  // Both phases at the start of round k.
  function SequentialRounds<S>(cfg: Config<S>, k: nat): (seq<Rank<S>>, seq<Rank<S>>) {
    if k == 0 then (cfg.bound, cfg.weave)
    else
      var (bound, weave) := SequentialRounds(cfg, k - 1);
      (SequentialPhase(cfg, bound).0, SequentialPhase(cfg, weave).0)
  }

  lemma {:induction false} SequentialPhaseIs<S>(cfg: Config<S>, ranks: seq<Rank<S>>)
    ensures var (after, finished) := SequentialPhase(cfg, ranks);
            && |after| == |ranks|
            && (forall j :: 0 <= j < |ranks| ==> after[j] == Run(cfg, ranks[j]))
            && (finished <==> forall j :: 0 <= j < |ranks| ==> cfg.finished(after[j].model))
  {
    if ranks != [] {
      SequentialPhaseIs(cfg, ranks[..|ranks| - 1]);
    }
  }

  /** The sequential phase moves every rank on by one interval, in which its model advances. */
  lemma SequentialPhaseAdvances<S>(cfg: Config<S>, ranks: seq<Rank<S>>)
    ensures var after := SequentialPhase(cfg, ranks).0;
            |after| == |ranks| && forall j :: 0 <= j < |ranks| ==>
              after[j] == Rank(ranks[j].tick + cfg.interval, cfg.advance(ranks[j].model, cfg.interval))
  {
    SequentialPhaseIs(cfg, ranks);
  }

  lemma {:induction false} SequentialRoundsAre<S>(cfg: Config<S>, k: nat)
    ensures var (bound, weave) := SequentialRounds(cfg, k);
            && |bound| == |cfg.bound| && (forall j :: 0 <= j < |bound| ==> bound[j] == Times(cfg, cfg.bound[j], k))
            && |weave| == |cfg.weave| && (forall j :: 0 <= j < |weave| ==> weave[j] == Times(cfg, cfg.weave[j], k))
  {
    if k > 0 {
      SequentialRoundsAre(cfg, k - 1);
      var (bound, weave) := SequentialRounds(cfg, k - 1);
      SequentialPhaseIs(cfg, bound);
      SequentialPhaseIs(cfg, weave);
    }
  }

  // What is simulated in n intervals.
  function Simulated<S>(cfg: Config<S>, model: S, n: nat): S {
    if n == 0 then model else cfg.advance(Simulated(cfg, model, n - 1), cfg.interval)
  }

  lemma {:induction false} TimesIs<S>(cfg: Config<S>, r: Rank<S>, n: nat)
    ensures Times(cfg, r, n) == Rank(r.tick + n * cfg.interval, Simulated(cfg, r.model, n))
  {
    if n > 0 {
      TimesIs(cfg, r, n - 1);
      assert n * cfg.interval == (n - 1) * cfg.interval + cfg.interval;
    }
  }

  /* The invariant */

  // Tasks of the current phase whose future is not ready.
  function Outstanding(round: nat, phase: Phase, futures: seq<Option<bool>>): multiset<Task> {
    if futures == [] then multiset{}
    else
      var n := |futures| - 1;
      Outstanding(round, phase, futures[..n]) + if futures[n].None? then multiset{Task(round, phase, n)} else multiset{}
  }

  // How many futures the main thread has at its position, and how many notify_one calls it owes.
  ghost predicate MainCounts<S>(s: State<S>) {
    && s.pool.destructor.Alive?
    && s.pool.notifying == (if s.main.Signalling? then 1 else 0)
    && match s.main
       case Pushing(phase, i) => |s.futures| == i <= |Ranks(s, phase)|
       case Signalling(phase, i) => |s.futures| == i + 1 <= |Ranks(s, phase)|
       case Getting(phase, i) => |s.futures| == |Ranks(s, phase)| && i <= |s.futures|
       case Stopped => true
  }

  function Unready<S>(s: State<S>): multiset<Task> {
    if s.main.Stopped? then multiset{} else Outstanding(s.round, s.main.phase, s.futures)
  }

  // The tasks pushed and not finished are exactly those of the current phase whose future is not ready.
  ghost predicate PoolHolds<S>(s: State<S>) {
    multiset(s.pool.enqueued) == multiset(s.pool.finished) + Unready(s)
  }

  // How often every rank of a phase has run, apart from the tasks of the current phase that are done.
  function Base<S>(s: State<S>, phase: Phase): nat {
    if s.main.Stopped? || (s.main.phase.Weave? && phase.Bound?) then s.round + 1 else s.round
  }

  function Futures<S>(s: State<S>, phase: Phase): seq<Option<bool>> {
    if !s.main.Stopped? && s.main.phase == phase then s.futures else []
  }

  function Ready(futures: seq<Option<bool>>, j: nat): nat {
    if j < |futures| && futures[j].Some? then 1 else 0
  }

  // Every rank has run `base` times, and once more if its future is ready.
  ghost predicate RanksAt<S>(
    cfg: Config<S>, initial: seq<Rank<S>>, ranks: seq<Rank<S>>, base: nat, futures: seq<Option<bool>>)
  {
    && |ranks| == |initial|
    && forall j :: 0 <= j < |ranks| ==> ranks[j] == Times(cfg, initial[j], base + Ready(futures, j))
  }

  ghost predicate RanksRight<S>(cfg: Config<S>, s: State<S>) {
    && RanksAt(cfg, cfg.bound, s.bound, Base(s, Bound), Futures(s, Bound))
    && RanksAt(cfg, cfg.weave, s.weave, Base(s, Weave), Futures(s, Weave))
  }

  // A ready future tells whether its rank still has something to simulate.
  ghost predicate ResultsAt<S>(cfg: Config<S>, ranks: seq<Rank<S>>, futures: seq<Option<bool>>) {
    forall j :: 0 <= j < |futures| && j < |ranks| && futures[j].Some? ==>
      futures[j].value == !cfg.finished(ranks[j].model)
  }

  ghost predicate AllReady(futures: seq<Option<bool>>, n: nat) {
    n <= |futures| && forall j :: 0 <= j < n ==> futures[j].Some?
  }

  ghost predicate AllFinished<S>(cfg: Config<S>, ranks: seq<Rank<S>>, n: nat) {
    n <= |ranks| && forall j :: 0 <= j < n ==> cfg.finished(ranks[j].model)
  }

  ghost predicate ResultsRight<S>(cfg: Config<S>, s: State<S>) {
    if s.main.Stopped? then AllFinished(cfg, s.bound, |s.bound|) && AllFinished(cfg, s.weave, |s.weave|)
    else
      var ranks := Ranks(s, s.main.phase);
      && ResultsAt(cfg, ranks, s.futures)
      && (s.main.Getting? ==> AllReady(s.futures, s.main.i))
      && (s.finished <==> (s.main.Getting? ==> AllFinished(cfg, ranks, s.main.i)))
      && (s.main.phase.Weave? ==> (s.boundFinished <==> AllFinished(cfg, s.bound, |s.bound|)))
  }

  ghost predicate Inv<S>(cfg: Config<S>, s: State<S>) {
    && Pool.Inv(Threads(cfg), s.pool)
    && MainCounts(s) && PoolHolds(s) && RanksRight(cfg, s) && ResultsRight(cfg, s)
  }

  lemma InitialInv<S>(cfg: Config<S>)
    ensures Inv(cfg, Initial(cfg))
  {
    Pool.ReadyWorkers<Task>(Threads(cfg));
  }

  // An outstanding task belongs to the current phase and its future is not ready.
  lemma {:induction false} OutstandingTask(round: nat, phase: Phase, futures: seq<Option<bool>>, t: Task)
    requires t in Outstanding(round, phase, futures)
    ensures t.round == round && t.phase == phase && t.rank < |futures| && futures[t.rank].None?
  {
    var n := |futures| - 1;
    if t in Outstanding(round, phase, futures[..n]) {
      OutstandingTask(round, phase, futures[..n], t);
    }
  }

  lemma {:induction false} OutstandingNone(round: nat, phase: Phase, futures: seq<Option<bool>>)
    requires forall j :: 0 <= j < |futures| ==> futures[j].Some?
    ensures Outstanding(round, phase, futures) == multiset{}
  {
    if futures != [] {
      OutstandingNone(round, phase, futures[..|futures| - 1]);
    }
  }

  lemma {:induction false} OutstandingHas(round: nat, phase: Phase, futures: seq<Option<bool>>, j: nat)
    requires j < |futures| && futures[j].None?
    ensures Task(round, phase, j) in Outstanding(round, phase, futures)
  {
    if j < |futures| - 1 {
      OutstandingHas(round, phase, futures[..|futures| - 1], j);
    }
  }

  lemma {:induction false} OutstandingDone(round: nat, phase: Phase, futures: seq<Option<bool>>, j: nat, v: bool)
    requires j < |futures| && futures[j].None?
    ensures Outstanding(round, phase, futures)
         == Outstanding(round, phase, futures[j := Some(v)]) + multiset{Task(round, phase, j)}
  {
    var n := |futures| - 1;
    if j == n {
      assert futures[j := Some(v)][..n] == futures[..n];
    } else {
      OutstandingDone(round, phase, futures[..n], j, v);
      assert futures[j := Some(v)][..n] == futures[..n][j := Some(v)];
    }
  }

  lemma {:induction false} TaskHeld(ws: seq<Pool.Worker<Task>>, w: nat)
    requires w < |ws| && ws[w].Running?
    ensures ws[w].task in Pool.Tasks(ws)
  {
    if w < |ws| - 1 {
      TaskHeld(ws[..|ws| - 1], w);
    }
  }

  lemma HeldTasks<S>(cfg: Config<S>, s: State<S>)
    requires Inv(cfg, s)
    ensures multiset(s.pool.queue) + Pool.Tasks(s.pool.workers) == Unready(s)
  {
    assert multiset(s.pool.dequeued + s.pool.queue) == multiset(s.pool.dequeued) + multiset(s.pool.queue);
    var done, held := multiset(s.pool.finished), multiset(s.pool.queue) + Pool.Tasks(s.pool.workers);
    assert done + held == done + Unready(s);
    assert (done + held) - done == held && (done + Unready(s)) - done == Unready(s);
  }

  // A running task is one of the current phase, and its rank has not run in it.
  lemma RunningTask<S>(cfg: Config<S>, s: State<S>, w: nat)
    requires Inv(cfg, s) && w < |s.pool.workers| && s.pool.workers[w].Running?
    ensures !s.main.Stopped? && Enabled(cfg, s, FinishStep(w))
    ensures var t := s.pool.workers[w].task;
            && t.round == s.round && t.phase == s.main.phase
            && t.rank < |s.futures| <= |Ranks(s, t.phase)| && s.futures[t.rank].None?
  {
    TaskHeld(s.pool.workers, w);
    HeldTasks(cfg, s);
    var t := s.pool.workers[w].task;
    assert t in multiset(s.pool.queue) + Pool.Tasks(s.pool.workers);
    if !s.main.Stopped? {
      OutstandingTask(s.round, s.main.phase, s.futures, t);
    }
  }

  /* Every step keeps the invariant: first that of the pool, and the main thread's counts */

  lemma PoolInvKept<S>(cfg: Config<S>, s: State<S>, step: Step)
    requires Pool.Inv(Threads(cfg), s.pool) && Enabled(cfg, s, step)
    ensures Pool.Inv(Threads(cfg), Apply(cfg, s, step).pool)
  {
    var threads := Threads(cfg);
    match step {
      case WorkerStep(w) => Pool.StepKeepsInv(threads, s.pool, Pool.Check(w));
      case FinishStep(w) => Pool.StepKeepsInv(threads, s.pool, Pool.Finish(w));
      case SpuriousStep(w) => Pool.StepKeepsInv(threads, s.pool, Pool.Spurious(w));
      case MainStep(pick) =>
        match s.main {
          case Pushing(phase, i) => Pool.StepKeepsInv(threads, s.pool, Pool.Enqueue(Task(s.round, phase, i)));
          case Signalling(_, _) => Pool.StepKeepsInv(threads, s.pool, Pool.NotifyOne(pick));
          case _ =>
        }
    }
  }

  ghost predicate CountsRight<S>(s: State<S>) {
    MainCounts(s) && PoolHolds(s)
  }

  lemma PoolKeepsCounts(p: Pool.State<Task>, step: Pool.Step<Task>)
    requires Pool.Enabled(p, step) && (step.Check? || step.Spurious?)
    ensures var q := Pool.Apply(p, step);
            && q.destructor == p.destructor && q.notifying == p.notifying
            && q.enqueued == p.enqueued && q.finished == p.finished
  {
  }

  lemma WorkerKeepsCounts<S>(cfg: Config<S>, s: State<S>, step: Step)
    requires CountsRight(s) && Enabled(cfg, s, step) && (step.WorkerStep? || step.SpuriousStep?)
    ensures CountsRight(Apply(cfg, s, step))
  {
    PoolKeepsCounts(s.pool, if step.WorkerStep? then Pool.Check(step.w) else Pool.Spurious(step.w));
  }

  lemma FinishKeepsCounts<S>(cfg: Config<S>, s: State<S>, w: nat)
    requires CountsRight(s) && Enabled(cfg, s, FinishStep(w)) && !s.main.Stopped?
    requires var t := s.pool.workers[w].task;
             t.round == s.round && t.phase == s.main.phase && t.rank < |s.futures| && s.futures[t.rank].None?
    ensures CountsRight(TaskDone(cfg, s, w))
  {
    var task, p := s.pool.workers[w].task, Pool.Apply(s.pool, Pool.Finish(w));
    OutstandingDone(s.round, s.main.phase, s.futures, task.rank,
                    !cfg.finished(Run(cfg, Ranks(s, task.phase)[task.rank]).model));
    assert multiset(p.finished) == multiset(s.pool.finished) + multiset{task};
  }

  lemma PushKeepsCounts<S>(cfg: Config<S>, s: State<S>, pick: nat)
    requires CountsRight(s) && s.main.Pushing?
    ensures CountsRight(MainDoes(cfg, s, pick))
  {
    var phase, i := s.main.phase, s.main.i;
    if i < |Ranks(s, phase)| {
      var task := Task(s.round, phase, i);
      var p := Pool.Apply(s.pool, Pool.Enqueue(task));
      assert multiset(p.enqueued) == multiset(s.pool.enqueued) + multiset{task};
      assert (s.futures + [None])[..i] == s.futures;
    }
  }

  lemma SignalKeepsCounts<S>(cfg: Config<S>, s: State<S>, pick: nat)
    requires CountsRight(s) && s.main.Signalling? && Enabled(cfg, s, MainStep(pick))
    ensures CountsRight(MainDoes(cfg, s, pick))
  {
  }

  lemma GetKeepsCounts<S>(cfg: Config<S>, s: State<S>, pick: nat)
    requires CountsRight(s) && s.main.Getting? && Enabled(cfg, s, MainStep(pick))
    requires AllReady(s.futures, s.main.i)
    ensures CountsRight(MainDoes(cfg, s, pick))
  {
    if s.main.i == |s.futures| {
      OutstandingNone(s.round, s.main.phase, s.futures);
    }
  }

  /* ... then what concerns the ranks and the results */

  ghost predicate RestRight<S>(cfg: Config<S>, s: State<S>) {
    MainCounts(s) && RanksRight(cfg, s) && ResultsRight(cfg, s)
  }

  lemma PoolDoesNotTouchRest<S>(cfg: Config<S>, s: State<S>, p: Pool.State<Task>)
    requires RanksRight(cfg, s) && ResultsRight(cfg, s)
    ensures RanksRight(cfg, s.(pool := p)) && ResultsRight(cfg, s.(pool := p))
  {
  }

  lemma RankDone<S>(
    cfg: Config<S>, initial: seq<Rank<S>>, ranks: seq<Rank<S>>, base: nat, futures: seq<Option<bool>>, j: nat)
    requires RanksAt(cfg, initial, ranks, base, futures) && ResultsAt(cfg, ranks, futures)
    requires j < |futures| && j < |ranks| && futures[j].None?
    ensures var r := Run(cfg, ranks[j]);
            var after, ready := ranks[j := r], futures[j := Some(!cfg.finished(r.model))];
            RanksAt(cfg, initial, after, base, ready) && ResultsAt(cfg, after, ready)
  {
  }

  lemma RankPushed<S>(cfg: Config<S>, initial: seq<Rank<S>>, ranks: seq<Rank<S>>, base: nat, futures: seq<Option<bool>>)
    requires RanksAt(cfg, initial, ranks, base, futures) && ResultsAt(cfg, ranks, futures)
    ensures RanksAt(cfg, initial, ranks, base, futures + [None]) && ResultsAt(cfg, ranks, futures + [None])
  {
    assert forall j: nat :: Ready(futures + [None], j) == Ready(futures, j);
  }

  lemma PhaseDone<S>(cfg: Config<S>, initial: seq<Rank<S>>, ranks: seq<Rank<S>>, base: nat, futures: seq<Option<bool>>)
    requires RanksAt(cfg, initial, ranks, base, futures) && AllReady(futures, |ranks|)
    ensures RanksAt(cfg, initial, ranks, base + 1, [])
  {
  }

  function InitialRanks<S>(cfg: Config<S>, phase: Phase): seq<Rank<S>> {
    if phase.Bound? then cfg.bound else cfg.weave
  }

  // A task of the bound phase ends.
  lemma BoundFinishes<S>(cfg: Config<S>, s: State<S>, w: nat)
    requires Enabled(cfg, s, FinishStep(w)) && s.pool.workers[w].task.phase.Bound?
    ensures var j, t := s.pool.workers[w].task.rank, TaskDone(cfg, s, w);
            var r := Run(cfg, s.bound[j]);
            && t.bound == s.bound[j := r] && t.weave == s.weave
            && t.futures == s.futures[j := Some(!cfg.finished(r.model))]
            && t.round == s.round && t.main == s.main && t.finished == s.finished && t.boundFinished == s.boundFinished
  {
  }

  lemma BoundFinishKeepsRanks<S>(cfg: Config<S>, s: State<S>, w: nat)
    requires RestRight(cfg, s) && Enabled(cfg, s, FinishStep(w)) && !s.main.Stopped? && s.main.phase.Bound?
    requires var t := s.pool.workers[w].task; t.phase.Bound? && t.rank < |s.futures| && s.futures[t.rank].None?
    ensures RanksRight(cfg, TaskDone(cfg, s, w))
  {
    BoundFinishes(cfg, s, w);
    RankDone(cfg, cfg.bound, s.bound, s.round, s.futures, s.pool.workers[w].task.rank);
  }

  lemma BoundFinishKeepsResults<S>(cfg: Config<S>, s: State<S>, w: nat)
    requires RestRight(cfg, s) && Enabled(cfg, s, FinishStep(w)) && !s.main.Stopped? && s.main.phase.Bound?
    requires var t := s.pool.workers[w].task; t.phase.Bound? && t.rank < |s.futures| && s.futures[t.rank].None?
    ensures ResultsRight(cfg, TaskDone(cfg, s, w))
  {
    BoundFinishes(cfg, s, w);
    RankDone(cfg, cfg.bound, s.bound, s.round, s.futures, s.pool.workers[w].task.rank);
  }

  // A task of the weave phase ends.
  lemma WeaveFinishes<S>(cfg: Config<S>, s: State<S>, w: nat)
    requires Enabled(cfg, s, FinishStep(w)) && s.pool.workers[w].task.phase.Weave?
    ensures var j, t := s.pool.workers[w].task.rank, TaskDone(cfg, s, w);
            var r := Run(cfg, s.weave[j]);
            && t.weave == s.weave[j := r] && t.bound == s.bound
            && t.futures == s.futures[j := Some(!cfg.finished(r.model))]
            && t.round == s.round && t.main == s.main && t.finished == s.finished && t.boundFinished == s.boundFinished
  {
  }

  lemma WeaveFinishKeepsRanks<S>(cfg: Config<S>, s: State<S>, w: nat)
    requires RestRight(cfg, s) && Enabled(cfg, s, FinishStep(w)) && !s.main.Stopped? && s.main.phase.Weave?
    requires var t := s.pool.workers[w].task; t.phase.Weave? && t.rank < |s.futures| && s.futures[t.rank].None?
    ensures RanksRight(cfg, TaskDone(cfg, s, w))
  {
    WeaveFinishes(cfg, s, w);
    RankDone(cfg, cfg.weave, s.weave, s.round, s.futures, s.pool.workers[w].task.rank);
  }

  lemma WeaveFinishKeepsResults<S>(cfg: Config<S>, s: State<S>, w: nat)
    requires RestRight(cfg, s) && Enabled(cfg, s, FinishStep(w)) && !s.main.Stopped? && s.main.phase.Weave?
    requires var t := s.pool.workers[w].task; t.phase.Weave? && t.rank < |s.futures| && s.futures[t.rank].None?
    ensures ResultsRight(cfg, TaskDone(cfg, s, w))
  {
    WeaveFinishes(cfg, s, w);
    RankDone(cfg, cfg.weave, s.weave, s.round, s.futures, s.pool.workers[w].task.rank);
  }

  lemma FinishKeepsRest<S>(cfg: Config<S>, s: State<S>, w: nat)
    requires RestRight(cfg, s) && Enabled(cfg, s, FinishStep(w)) && !s.main.Stopped?
    requires var t := s.pool.workers[w].task;
             t.phase == s.main.phase && t.rank < |s.futures| && s.futures[t.rank].None?
    ensures RanksRight(cfg, TaskDone(cfg, s, w)) && ResultsRight(cfg, TaskDone(cfg, s, w))
  {
    if s.main.phase.Bound? {
      BoundFinishKeepsRanks(cfg, s, w);
      BoundFinishKeepsResults(cfg, s, w);
    } else {
      WeaveFinishKeepsRanks(cfg, s, w);
      WeaveFinishKeepsResults(cfg, s, w);
    }
  }

  lemma PushKeepsRest<S>(cfg: Config<S>, s: State<S>, pick: nat)
    requires RestRight(cfg, s) && s.main.Pushing?
    ensures RanksRight(cfg, MainDoes(cfg, s, pick)) && ResultsRight(cfg, MainDoes(cfg, s, pick))
  {
    RankPushed(cfg, InitialRanks(cfg, s.main.phase), Ranks(s, s.main.phase), s.round, s.futures);
  }

  lemma SignalKeepsRest<S>(cfg: Config<S>, s: State<S>, pick: nat)
    requires RestRight(cfg, s) && s.main.Signalling? && Enabled(cfg, s, MainStep(pick))
    ensures RanksRight(cfg, MainDoes(cfg, s, pick)) && ResultsRight(cfg, MainDoes(cfg, s, pick))
  {
  }

  lemma GetOneKeepsRest<S>(cfg: Config<S>, s: State<S>, pick: nat)
    requires RestRight(cfg, s) && s.main.Getting? && s.main.i < |s.futures| && Enabled(cfg, s, MainStep(pick))
    ensures RanksRight(cfg, MainDoes(cfg, s, pick)) && ResultsRight(cfg, MainDoes(cfg, s, pick))
  {
    var ranks, i := Ranks(s, s.main.phase), s.main.i;
    assert AllFinished(cfg, ranks, i + 1) <==> AllFinished(cfg, ranks, i) && !s.futures[i].value;
  }

  lemma BoundEndKeepsRanks<S>(cfg: Config<S>, s: State<S>, pick: nat)
    requires RestRight(cfg, s) && s.main == Getting(Bound, |s.futures|)
    ensures RanksRight(cfg, MainDoes(cfg, s, pick))
  {
    PhaseDone(cfg, cfg.bound, s.bound, s.round, s.futures);
  }

  lemma WeaveEndKeepsRanks<S>(cfg: Config<S>, s: State<S>, pick: nat)
    requires RestRight(cfg, s) && s.main == Getting(Weave, |s.futures|)
    ensures RanksRight(cfg, MainDoes(cfg, s, pick))
  {
    PhaseDone(cfg, cfg.weave, s.weave, s.round, s.futures);
    var t := MainDoes(cfg, s, pick);
    assert Base(t, Bound) == Base(t, Weave) == s.round + 1 && Futures(t, Bound) == Futures(t, Weave) == [];
  }

  lemma PhaseEndKeepsResults<S>(cfg: Config<S>, s: State<S>, pick: nat)
    requires RestRight(cfg, s) && s.main.Getting? && s.main.i == |s.futures|
    ensures ResultsRight(cfg, MainDoes(cfg, s, pick))
  {
  }

  // Everything but the pool's own invariant.
  lemma MainKeepsRight<S>(cfg: Config<S>, s: State<S>, pick: nat)
    requires CountsRight(s) && RestRight(cfg, s) && Enabled(cfg, s, MainStep(pick))
    ensures var t := MainDoes(cfg, s, pick); CountsRight(t) && RestRight(cfg, t)
  {
    match s.main {
      case Pushing(_, _) =>
        PushKeepsCounts(cfg, s, pick);
        PushKeepsRest(cfg, s, pick);
      case Signalling(_, _) =>
        SignalKeepsCounts(cfg, s, pick);
        SignalKeepsRest(cfg, s, pick);
      case Getting(_, _) =>
        GetKeepsCounts(cfg, s, pick);
        if s.main.i < |s.futures| {
          GetOneKeepsRest(cfg, s, pick);
        } else {
          if s.main.phase.Bound? {
            BoundEndKeepsRanks(cfg, s, pick);
          } else {
            WeaveEndKeepsRanks(cfg, s, pick);
          }
          PhaseEndKeepsResults(cfg, s, pick);
        }
    }
  }

  lemma StepKeepsInv<S>(cfg: Config<S>, s: State<S>, step: Step)
    requires Inv(cfg, s) && Enabled(cfg, s, step)
    ensures Inv(cfg, Apply(cfg, s, step))
  {
    PoolInvKept(cfg, s, step);
    match step {
      case MainStep(pick) => MainKeepsRight(cfg, s, pick);
      case FinishStep(w) =>
        RunningTask(cfg, s, w);
        FinishKeepsCounts(cfg, s, w);
        FinishKeepsRest(cfg, s, w);
      case _ =>
        WorkerKeepsCounts(cfg, s, step);
        PoolDoesNotTouchRest(cfg, s, Apply(cfg, s, step).pool);
    }
  }

  lemma {:induction false} RunKeepsInv<S(!new)>(cfg: Config<S>, trace: seq<State<S>>, steps: seq<Step>, i: nat)
    requires IsRun(cfg, trace, steps) && i < |trace|
    ensures Inv(cfg, trace[i])
  {
    if i == 0 {
      InitialInv(cfg);
    } else {
      RunKeepsInv(cfg, trace, steps, i - 1);
      StepKeepsInv(cfg, trace[i - 1], steps[i - 1]);
    }
  }

  /* What the invariant means */

  // All ranks start at tick 0.
  ghost predicate StartsAtZero<S>(cfg: Config<S>) {
    && (forall j :: 0 <= j < |cfg.bound| ==> cfg.bound[j].tick == 0)
    && (forall j :: 0 <= j < |cfg.weave| ==> cfg.weave[j].tick == 0)
  }

  ghost predicate AllAt<S>(ranks: seq<Rank<S>>, tick: int) {
    forall j :: 0 <= j < |ranks| ==> ranks[j].tick == tick
  }

  ghost predicate AllWithin<S>(ranks: seq<Rank<S>>, low: int, high: int) {
    forall j :: 0 <= j < |ranks| ==> ranks[j].tick == low || ranks[j].tick == high
  }

  lemma TicksOf<S>(cfg: Config<S>, initial: seq<Rank<S>>, ranks: seq<Rank<S>>, base: nat, futures: seq<Option<bool>>)
    requires RanksAt(cfg, initial, ranks, base, futures) && forall j :: 0 <= j < |initial| ==> initial[j].tick == 0
    ensures AllWithin(ranks, base * cfg.interval, (base + 1) * cfg.interval)
    ensures futures == [] ==> AllAt(ranks, base * cfg.interval)
  {
    forall j | 0 <= j < |ranks|
      ensures ranks[j].tick == (base + Ready(futures, j)) * cfg.interval
    {
      TimesIs(cfg, initial[j], base + Ready(futures, j));
    }
  }

  // While a task of this phase runs, the other phase stands at one tick.
  ghost predicate BarrierHolds<S>(cfg: Config<S>, s: State<S>, t: Task) {
    && t.round == s.round
    && (t.phase.Weave? ==> AllAt(s.bound, (s.round + 1) * cfg.interval))
    && (t.phase.Bound? ==> AllAt(s.weave, s.round * cfg.interval))
  }

  /** The bound-weave barrier, in every interleaving: in round k every rank stands at k or k+1 intervals, so no two
      ranks are more than one interval apart; a worker runs only tasks of this round, a weave task only when every
      bound rank has done the round, and a bound task only when every weave rank has done all rounds before it. */
  lemma Barrier<S(!new)>(cfg: Config<S>, trace: seq<State<S>>, steps: seq<Step>, i: nat)
    requires IsRun(cfg, trace, steps) && i < |trace| && StartsAtZero(cfg)
    ensures var s, k := trace[i], trace[i].round;
            && AllWithin(s.bound, k * cfg.interval, (k + 1) * cfg.interval)
            && AllWithin(s.weave, k * cfg.interval, (k + 1) * cfg.interval)
            && forall w :: 0 <= w < |s.pool.workers| && s.pool.workers[w].Running? ==>
                 BarrierHolds(cfg, s, s.pool.workers[w].task)
  {
    RunKeepsInv(cfg, trace, steps, i);
    var s := trace[i];
    TicksOf(cfg, cfg.bound, s.bound, Base(s, Bound), Futures(s, Bound));
    TicksOf(cfg, cfg.weave, s.weave, Base(s, Weave), Futures(s, Weave));
    forall w | 0 <= w < |s.pool.workers| && s.pool.workers[w].Running?
      ensures BarrierHolds(cfg, s, s.pool.workers[w].task)
    {
      RunningTask(cfg, s, w);
    }
  }

  lemma RanksAtRound<S>(cfg: Config<S>, initial: seq<Rank<S>>, ranks: seq<Rank<S>>, after: seq<Rank<S>>, base: nat)
    requires RanksAt(cfg, initial, ranks, base, []) && |after| == |initial|
    requires forall j :: 0 <= j < |after| ==> after[j] == Times(cfg, initial[j], base)
    ensures ranks == after
  {
  }

  // Every rank has simulated n intervals, or n + 1.
  ghost predicate AllSimulated<S>(cfg: Config<S>, initial: seq<Rank<S>>, ranks: seq<Rank<S>>, n: nat) {
    && |ranks| == |initial|
    && forall j :: 0 <= j < |ranks| ==>
         || ranks[j] == Rank(initial[j].tick + n * cfg.interval, Simulated(cfg, initial[j].model, n))
         || ranks[j] == Rank(initial[j].tick + (n + 1) * cfg.interval, Simulated(cfg, initial[j].model, n + 1))
  }

  lemma SimulatedOf<S>(cfg: Config<S>, initial: seq<Rank<S>>, ranks: seq<Rank<S>>, base: nat, n: nat,
                       futures: seq<Option<bool>>)
    requires RanksAt(cfg, initial, ranks, base, futures) && (base == n || (base == n + 1 && futures == []))
    ensures AllSimulated(cfg, initial, ranks, n)
    ensures base == n && futures == [] ==> forall j :: 0 <= j < |ranks| ==>
              ranks[j] == Rank(initial[j].tick + n * cfg.interval, Simulated(cfg, initial[j].model, n))
  {
    forall j | 0 <= j < |ranks|
      ensures var m := base + Ready(futures, j);
              ranks[j] == Rank(initial[j].tick + m * cfg.interval, Simulated(cfg, initial[j].model, m))
    {
      TimesIs(cfg, initial[j], base + Ready(futures, j));
    }
  }

  /** In round k, in every interleaving, the tick and the model of a rank are those of k or k + 1 intervals simulated
      one after the other, and exactly of k when the round begins. */
  lemma RanksOfRound<S(!new)>(cfg: Config<S>, trace: seq<State<S>>, steps: seq<Step>, i: nat)
    requires IsRun(cfg, trace, steps) && i < |trace|
    ensures AllSimulated(cfg, cfg.bound, trace[i].bound, trace[i].round)
    ensures AllSimulated(cfg, cfg.weave, trace[i].weave, trace[i].round)
    ensures trace[i].main == Pushing(Bound, 0) ==> forall j :: 0 <= j < |cfg.bound| ==>
              trace[i].bound[j] == Rank(cfg.bound[j].tick + trace[i].round * cfg.interval,
                                        Simulated(cfg, cfg.bound[j].model, trace[i].round))
    ensures trace[i].main == Pushing(Bound, 0) ==> forall j :: 0 <= j < |cfg.weave| ==>
              trace[i].weave[j] == Rank(cfg.weave[j].tick + trace[i].round * cfg.interval,
                                        Simulated(cfg, cfg.weave[j].model, trace[i].round))
  {
    RunKeepsInv(cfg, trace, steps, i);
    var s := trace[i];
    SimulatedOf(cfg, cfg.bound, s.bound, Base(s, Bound), s.round, Futures(s, Bound));
    SimulatedOf(cfg, cfg.weave, s.weave, Base(s, Weave), s.round, Futures(s, Weave));
  }

  /** The pool has the number of workers the user chose, or else as many as the larger phase has ranks, so that every
      task of a phase can run at the same time. */
  lemma WorkersSuffice<S(!new)>(cfg: Config<S>, trace: seq<State<S>>, steps: seq<Step>, i: nat)
    requires IsRun(cfg, trace, steps) && i < |trace|
    ensures cfg.maxThreads > 0 ==> |trace[i].pool.workers| == cfg.maxThreads
    ensures cfg.maxThreads == 0 ==>
              && |trace[i].pool.workers| >= |cfg.bound| && |trace[i].pool.workers| >= |cfg.weave|
              && (|trace[i].pool.workers| == |cfg.bound| || |trace[i].pool.workers| == |cfg.weave|)
    ensures cfg.maxThreads == 0 && !trace[i].main.Stopped? ==> |trace[i].futures| <= |trace[i].pool.workers|
  {
    RunKeepsInv(cfg, trace, steps, i);
  }

  /** The parallel rounds refine the sequential ones: whatever the number of workers and the schedule, both phases stand
      at the start of round k exactly where running every rank once per round in map order would have put them. */
  lemma RoundsRefineSequential<S(!new)>(cfg: Config<S>, trace: seq<State<S>>, steps: seq<Step>, i: nat)
    requires IsRun(cfg, trace, steps) && i < |trace| && trace[i].main == Pushing(Bound, 0)
    ensures (trace[i].bound, trace[i].weave) == SequentialRounds(cfg, trace[i].round)
  {
    RunKeepsInv(cfg, trace, steps, i);
    var s := trace[i];
    SequentialRoundsAre(cfg, s.round);
    var (bound, weave) := SequentialRounds(cfg, s.round);
    RanksAtRound(cfg, cfg.bound, s.bound, bound, s.round);
    RanksAtRound(cfg, cfg.weave, s.weave, weave, s.round);
  }

  // What runPhaseEvent leaves and returns, against the sequential phase of the same round.
  ghost predicate PhaseIsSequential<S>(cfg: Config<S>, s: State<S>, phase: Phase) {
    var before := SequentialRounds(cfg, s.round);
    var (after, finished) := SequentialPhase(cfg, if phase.Bound? then before.0 else before.1);
    Ranks(s, phase) == after && s.finished == finished
  }

  // When all futures of a phase are ready, every rank has run once more.
  lemma AllRanOnce<S>(
    cfg: Config<S>, initial: seq<Rank<S>>, ranks: seq<Rank<S>>, start: seq<Rank<S>>, base: nat,
    futures: seq<Option<bool>>)
    requires RanksAt(cfg, initial, ranks, base, futures) && AllReady(futures, |ranks|)
    requires RanksAt(cfg, initial, start, base, [])
    ensures |ranks| == |start| && forall j :: 0 <= j < |ranks| ==> ranks[j] == Run(cfg, start[j])
  {
    forall j | 0 <= j < |ranks|
      ensures ranks[j] == Run(cfg, start[j])
    {
      assert ranks[j] == Times(cfg, initial[j], base + 1) && start[j] == Times(cfg, initial[j], base);
    }
  }

  lemma JoinedRanks<S>(cfg: Config<S>, ranks: seq<Rank<S>>, start: seq<Rank<S>>)
    requires |ranks| == |start| && forall j :: 0 <= j < |ranks| ==> ranks[j] == Run(cfg, start[j])
    ensures ranks == SequentialPhase(cfg, start).0
    ensures AllFinished(cfg, ranks, |ranks|) <==> SequentialPhase(cfg, start).1
  {
    SequentialPhaseIs(cfg, start);
    assert ranks == SequentialPhase(cfg, start).0;
  }

  lemma RanksJoined<S>(
    cfg: Config<S>, initial: seq<Rank<S>>, ranks: seq<Rank<S>>, start: seq<Rank<S>>, base: nat,
    futures: seq<Option<bool>>)
    requires RanksAt(cfg, initial, ranks, base, futures) && AllReady(futures, |ranks|) && |start| == |initial|
    requires forall j :: 0 <= j < |start| ==> start[j] == Times(cfg, initial[j], base)
    ensures ranks == SequentialPhase(cfg, start).0
    ensures AllFinished(cfg, ranks, |ranks|) <==> SequentialPhase(cfg, start).1
  {
    AllRanOnce(cfg, initial, ranks, start, base, futures);
    JoinedRanks(cfg, ranks, start);
  }

  lemma PhaseJoined<S>(cfg: Config<S>, s: State<S>, phase: Phase)
    requires Inv(cfg, s) && s.main == Getting(phase, |Ranks(s, phase)|)
    ensures PhaseIsSequential(cfg, s, phase)
  {
    SequentialRoundsAre(cfg, s.round);
    var before := SequentialRounds(cfg, s.round);
    if phase.Bound? {
      RanksJoined(cfg, cfg.bound, s.bound, before.0, s.round, s.futures);
    } else {
      RanksJoined(cfg, cfg.weave, s.weave, before.1, s.round, s.futures);
    }
  }

  /** The parallel phase refines the sequential one: when runPhaseEvent returns, the ranks and its result are those of
      the sequential loop, and the result is true exactly when every rank reports that it has finished. */
  lemma PhaseRefinesSequential<S(!new)>(cfg: Config<S>, trace: seq<State<S>>, steps: seq<Step>, i: nat, phase: Phase)
    requires IsRun(cfg, trace, steps) && i < |trace|
    requires trace[i].main == Getting(phase, |Ranks(trace[i], phase)|)
    ensures PhaseIsSequential(cfg, trace[i], phase)
    ensures trace[i].finished <==> AllFinished(cfg, Ranks(trace[i], phase), |Ranks(trace[i], phase)|)
  {
    RunKeepsInv(cfg, trace, steps, i);
    PhaseJoined(cfg, trace[i], phase);
  }

  /** The simulation stops only after a round in which every rank of both phases reported that it has finished. */
  lemma StopsWhenAllFinished<S(!new)>(cfg: Config<S>, trace: seq<State<S>>, steps: seq<Step>, i: nat)
    requires IsRun(cfg, trace, steps) && i < |trace| && trace[i].main.Stopped?
    ensures AllFinished(cfg, trace[i].bound, |trace[i].bound|) && AllFinished(cfg, trace[i].weave, |trace[i].weave|)
  {
    RunKeepsInv(cfg, trace, steps, i);
  }

  /** The decision after the weave phase: the simulation stops exactly when every rank has finished, and otherwise the
      next round begins with the bound phase. */
  lemma StopsExactlyThen<S(!new)>(cfg: Config<S>, trace: seq<State<S>>, steps: seq<Step>, i: nat)
    requires IsRun(cfg, trace, steps) && i < |steps|
    requires steps[i].MainStep? && trace[i].main == Getting(Weave, |trace[i].weave|)
    ensures var s, t := trace[i], trace[i + 1];
            if AllFinished(cfg, s.bound, |s.bound|) && AllFinished(cfg, s.weave, |s.weave|) then t.main.Stopped?
            else t.main == Pushing(Bound, 0) && t.round == s.round + 1
  {
    RunKeepsInv(cfg, trace, steps, i);
    assert Enabled(cfg, trace[i], steps[i]);
  }

  /** Fork and join never hang: with the pool that finalize() makes, the main thread or a worker always has a step to
      make that is not a spurious wakeup, until the simulation has stopped. */
  lemma NeverHangs<S(!new)>(cfg: Config<S>, trace: seq<State<S>>, steps: seq<Step>, i: nat)
    requires IsRun(cfg, trace, steps) && i < |trace|
    ensures trace[i].main.Stopped? || exists step :: Enabled(cfg, trace[i], step) && !step.SpuriousStep?
  {
    RunKeepsInv(cfg, trace, steps, i);
    var s := trace[i];
    var step;
    match s.main {
      case Stopped => step := MainStep(0);
      case Pushing(_, _) => step := MainStep(0);
      case Signalling(_, _) =>
        var pick := if Pool.AnyWaiting(s.pool) then
          (var w: nat :| w < |s.pool.workers| && s.pool.workers[w].Waiting?; w) else 0;
        step := MainStep(pick);
      case Getting(phase, j) =>
        if j < |s.futures| && s.futures[j].None? {
          step := WaitingTaskMoves(cfg, s, j);
        } else {
          step := MainStep(0);
        }
    }
    assert s.main.Stopped? || (Enabled(cfg, s, step) && !step.SpuriousStep?);
  }

  // While the main thread waits for a future, a worker has a step to make.
  lemma WaitingTaskMoves<S>(cfg: Config<S>, s: State<S>, j: nat) returns (step: Step)
    requires Inv(cfg, s) && s.main.Getting? && j < |s.futures| && s.futures[j].None?
    ensures Enabled(cfg, s, step) && !step.SpuriousStep?
  {
    var t := Task(s.round, s.main.phase, j);
    OutstandingHas(s.round, s.main.phase, s.futures, j);
    HeldTasks(cfg, s);
    assert t in multiset(s.pool.queue) + Pool.Tasks(s.pool.workers);
    if s.pool.queue != [] {
      var poolStep := Pool.PoolCanStep(Threads(cfg), s.pool);
      if poolStep.Finish? {
        RunningTask(cfg, s, poolStep.w);
        step := FinishStep(poolStep.w);
      } else {
        step := WorkerStep(poolStep.w);
      }
    } else {
      var w := HolderOf(s.pool.workers, t);
      RunningTask(cfg, s, w);
      step := FinishStep(w);
    }
  }

  lemma {:induction false} HolderOf(ws: seq<Pool.Worker<Task>>, t: Task) returns (w: nat)
    requires t in Pool.Tasks(ws)
    ensures w < |ws| && ws[w].Running? && ws[w].task == t
  {
    var n := |ws| - 1;
    if ws[n].Running? && ws[n].task == t {
      w := n;
    } else {
      w := HolderOf(ws[..n], t);
    }
  }

  /* Rounds end */

  // What the main thread has left to do in this round, a push counting for the pool steps it causes.
  function MainWork(main: Main, bound: nat, weave: nat): nat {
    match main
    case Pushing(phase, i) => PhaseWork(phase, i, bound, weave) + 2
    case Signalling(phase, i) => PhaseWork(phase, i + 1, bound, weave) + 3
    case Getting(phase, i) =>
      (if phase.Bound? then 8 * weave + 2 + LeftOf(bound, i) else LeftOf(weave, i)) + 1
    case Stopped => 0
  }

  function PhaseWork(phase: Phase, i: nat, bound: nat, weave: nat): nat {
    if phase.Bound? then 7 * LeftOf(bound, i) + bound + 8 * weave + 2 else 7 * LeftOf(weave, i) + weave
  }

  function LeftOf(n: nat, i: nat): nat {
    if i <= n then n - i else 0
  }

  function RoundWork<S>(s: State<S>): nat {
    Pool.Work(s.pool) + MainWork(s.main, |s.bound|, |s.weave|)
  }

  lemma PushingEnds<S>(cfg: Config<S>, s: State<S>, pick: nat)
    requires MainCounts(s) && s.main.Pushing?
    ensures RoundWork(MainDoes(cfg, s, pick)) < RoundWork(s)
  {
  }

  lemma SignallingEnds<S>(cfg: Config<S>, s: State<S>, pick: nat)
    requires Pool.Inv(Threads(cfg), s.pool) && MainCounts(s) && s.main.Signalling? && Enabled(cfg, s, MainStep(pick))
    ensures RoundWork(MainDoes(cfg, s, pick)) < RoundWork(s)
  {
    Pool.InternalStepsDrain(Threads(cfg), s.pool, Pool.NotifyOne(pick));
  }

  lemma GettingEnds<S>(cfg: Config<S>, s: State<S>, pick: nat)
    requires MainCounts(s) && s.main.Getting? && Enabled(cfg, s, MainStep(pick))
    ensures var t := MainDoes(cfg, s, pick); t.round == s.round ==> RoundWork(t) < RoundWork(s)
  {
  }

  lemma MainStepsEnd<S>(cfg: Config<S>, s: State<S>, pick: nat)
    requires Pool.Inv(Threads(cfg), s.pool) && MainCounts(s) && Enabled(cfg, s, MainStep(pick))
    ensures var t := MainDoes(cfg, s, pick); t.round == s.round ==> RoundWork(t) < RoundWork(s)
  {
    match s.main {
      case Pushing(_, _) => PushingEnds(cfg, s, pick);
      case Signalling(_, _) => SignallingEnds(cfg, s, pick);
      case Getting(_, _) => GettingEnds(cfg, s, pick);
    }
  }

  lemma WorkerStepsEnd<S>(cfg: Config<S>, s: State<S>, step: Step)
    requires Pool.Inv(Threads(cfg), s.pool) && MainCounts(s) && Enabled(cfg, s, step)
    requires step.WorkerStep? || step.FinishStep?
    ensures RoundWork(Apply(cfg, s, step)) < RoundWork(s)
  {
    var poolStep := if step.WorkerStep? then Pool.Check(step.w) else Pool.Finish(step.w);
    Pool.InternalStepsDrain(Threads(cfg), s.pool, poolStep);
  }

  /** A round ends: every step that is not a spurious wakeup lessens the work left in the round, unless it begins the
      next one. */
  lemma RoundsEnd<S>(cfg: Config<S>, s: State<S>, step: Step)
    requires Inv(cfg, s) && Enabled(cfg, s, step) && !step.SpuriousStep?
    ensures var t := Apply(cfg, s, step); t.round == s.round ==> RoundWork(t) < RoundWork(s)
  {
    if step.MainStep? {
      MainStepsEnd(cfg, s, step.pick);
    } else {
      WorkerStepsEnd(cfg, s, step);
    }
  }

  /* The same as the program writes it */

  // runPhaseEvent: the pool runs the tasks one after another in an order of its choosing, then the futures are joined.
  method RunPhaseEvent<S>(cfg: Config<S>, ranks: array<Rank<S>>) returns (finished: bool)
    modifies ranks
    ensures (ranks[..], finished) == SequentialPhase(cfg, old(ranks[..]))
    ensures forall j :: 0 <= j < ranks.Length ==>
              ranks[j] == Rank(old(ranks[j].tick) + cfg.interval, cfg.advance(old(ranks[j].model), cfg.interval))
    ensures finished <==> forall j :: 0 <= j < ranks.Length ==> cfg.finished(ranks[j].model)
  {
    var n := ranks.Length;
    var pending: set<nat>, futures: seq<bool> := {}, [];
    for i := 0 to n
      invariant |futures| == i && forall j :: j in pending <==> 0 <= j < i
    {
      pending, futures := pending + {i}, futures + [false];
    }
    while pending != {}
      invariant |futures| == n && forall j :: j in pending ==> 0 <= j < n
      invariant forall j :: 0 <= j < n ==> ranks[j] == if j in pending then old(ranks[j]) else Run(cfg, old(ranks[j]))
      invariant forall j :: 0 <= j < n && j !in pending ==> futures[j] == !cfg.finished(ranks[j].model)
      decreases pending
    {
      var j :| j in pending;
      pending := pending - {j};
      ranks[j] := Run(cfg, ranks[j]);
      futures := futures[j := !cfg.finished(ranks[j].model)];
    }
    finished := true;
    for i := 0 to n
      invariant finished <==> forall j :: 0 <= j < i ==> !futures[j]
    {
      if futures[i] {
        finished := false;
      }
    }
    SequentialPhaseIs(cfg, old(ranks[..]));
    var (after, all) := SequentialPhase(cfg, old(ranks[..]));
    assert ranks[..] == after;
    assert finished == all;
  }

  // handleBoundWeaveEvent: one round; `stop` says whether the main scheduler stops or schedules the next round.
  method HandleBoundWeaveEvent<S>(cfg: Config<S>, bound: array<Rank<S>>, weave: array<Rank<S>>) returns (stop: bool)
    requires bound != weave
    modifies bound, weave
    ensures bound[..] == SequentialPhase(cfg, old(bound[..])).0 && weave[..] == SequentialPhase(cfg, old(weave[..])).0
    ensures stop <==> SequentialPhase(cfg, old(bound[..])).1 && SequentialPhase(cfg, old(weave[..])).1
    ensures stop <==> && (forall j :: 0 <= j < bound.Length ==> cfg.finished(bound[j].model))
                      && (forall j :: 0 <= j < weave.Length ==> cfg.finished(weave[j].model))
  {
    ghost var before := weave[..];
    var boundFinished := RunPhaseEvent(cfg, bound);
    assert weave[..] == before;
    ghost var ran := bound[..];
    var weaveFinished := RunPhaseEvent(cfg, weave);
    assert bound[..] == ran;
    stop := boundFinished && weaveFinished;
  }
}
