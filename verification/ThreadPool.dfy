/** The thread pool as a protocol. Every region of code that runs under the queue mutex is one atomic step, as is
    every notification made outside it; steps of the workers, of any number of callers of enqueue and of the
    destructor interleave freely, and a waiting worker may wake up for no reason. */
module ThreadPool {

  /** A worker is about to lock and test the wait condition (Ready, or Woken if it left wait() and has not tested
      yet), waits on the condition variable, runs a task, or has returned. */
  datatype Worker<T> = Ready | Waiting | Woken | Running(task: T) | Exited

  // The destructor: not called, has set `stop`, or has notified all and joined the first `joined` workers.
  datatype Destructor = Alive | StopSet | Joining(joined: nat)

  /** `notifying` counts the callers of enqueue that released the mutex and have not called notify_one yet.
      `enqueued`, `dequeued` and `finished` record the tasks accepted, taken and completed so far. */
  datatype State<T> = State(
    queue: seq<T>, workers: seq<Worker<T>>, notifying: nat, destructor: Destructor,
    enqueued: seq<T>, dequeued: seq<T>, finished: seq<T>)

  datatype Step<T> =
    | Enqueue(task: T)      // rejected once `stop` is set
    | NotifyOne(w: nat)
    | Spurious(w: nat)
    | Check(w: nat)         // lock, test, then wait, return, or take a task
    | Finish(w: nat)
    | SetStop
    | NotifyAll
    | Join

  function Initial<T>(threads: nat): State<T> {
    State([], seq(threads, _ => Ready), 0, Alive, [], [], [])
  }

  predicate Stop<T>(s: State<T>) {
    !s.destructor.Alive?
  }

  ghost predicate AnyWaiting<T>(s: State<T>) {
    exists w :: 0 <= w < |s.workers| && s.workers[w].Waiting?
  }

  ghost predicate Enabled<T>(s: State<T>, step: Step<T>) {
    match step
    case Enqueue(_) => true
    case NotifyOne(w) => s.notifying > 0 && (AnyWaiting(s) ==> w < |s.workers| && s.workers[w].Waiting?)
    case Spurious(w) => w < |s.workers| && s.workers[w].Waiting?
    case Check(w) => w < |s.workers| && (s.workers[w].Ready? || s.workers[w].Woken?)
    case Finish(w) => w < |s.workers| && s.workers[w].Running?
    case SetStop => s.destructor.Alive?
    case NotifyAll => s.destructor.StopSet?
    case Join => s.destructor.Joining? && s.destructor.joined < |s.workers| && s.workers[s.destructor.joined].Exited?
  }

  function Set<T>(s: State<T>, w: nat, to: Worker<T>): State<T>
    requires w < |s.workers|
  {
    s.(workers := s.workers[w := to])
  }

  function Wake<T>(x: Worker<T>): Worker<T> {
    if x.Waiting? then Woken else x
  }

  function WakeAll<T>(ws: seq<Worker<T>>): seq<Worker<T>> {
    seq(|ws|, i requires 0 <= i < |ws| => Wake(ws[i]))
  }

  function Apply<T>(s: State<T>, step: Step<T>): State<T>
    requires Enabled(s, step)
  {
    match step
    case Enqueue(t) =>
      if Stop(s) then s
      else s.(queue := s.queue + [t], enqueued := s.enqueued + [t], notifying := s.notifying + 1)
    case NotifyOne(w) =>
      var n := s.(notifying := s.notifying - 1);
      if w < |s.workers| then Set(n, w, Wake(s.workers[w])) else n
    case Spurious(w) => Set(s, w, Woken)
    case Check(w) =>
      if s.queue == [] then Set(s, w, if Stop(s) then Exited else Waiting)
      else Set(s, w, Running(s.queue[0])).(queue := s.queue[1..], dequeued := s.dequeued + [s.queue[0]])
    case Finish(w) => Set(s, w, Ready).(finished := s.finished + [s.workers[w].task])
    case SetStop => s.(destructor := StopSet)
    case NotifyAll => s.(destructor := Joining(0), workers := WakeAll(s.workers))
    case Join => s.(destructor := Joining(s.destructor.joined + 1))
  }

  ghost predicate IsRun<T(!new)>(threads: nat, trace: seq<State<T>>, steps: seq<Step<T>>) {
    && |trace| == |steps| + 1
    && trace[0] == Initial(threads)
    && forall i :: 0 <= i < |steps| ==> Enabled(trace[i], steps[i]) && trace[i + 1] == Apply(trace[i], steps[i])
  }

  /* Sums over the workers */

  function Sum<T>(f: Worker<T> -> nat, ws: seq<Worker<T>>): nat {
    if ws == [] then 0 else Sum(f, ws[..|ws| - 1]) + f(ws[|ws| - 1])
  }

  lemma {:induction false} SumUpdate<T>(f: Worker<T> -> nat, ws: seq<Worker<T>>, i: nat, x: Worker<T>)
    requires i < |ws|
    ensures Sum(f, ws[i := x]) + f(ws[i]) == Sum(f, ws) + f(x)
  {
    var n := |ws| - 1;
    if i == n {
      assert ws[i := x][..n] == ws[..n];
    } else {
      SumUpdate(f, ws[..n], i, x);
      assert ws[i := x][..n] == ws[..n][i := x];
    }
  }

  lemma {:induction false} SumPositive<T>(f: Worker<T> -> nat, ws: seq<Worker<T>>) returns (i: nat)
    requires Sum(f, ws) > 0
    ensures i < |ws| && f(ws[i]) > 0
  {
    var n := |ws| - 1;
    if f(ws[n]) > 0 {
      i := n;
    } else {
      i := SumPositive(f, ws[..n]);
    }
  }

  function IsWoken<T>(x: Worker<T>): nat {
    if x.Woken? then 1 else 0
  }

  function TaskOf<T>(x: Worker<T>): multiset<T> {
    if x.Running? then multiset{x.task} else multiset{}
  }

  // The tasks being run.
  function Tasks<T>(ws: seq<Worker<T>>): multiset<T> {
    if ws == [] then multiset{} else Tasks(ws[..|ws| - 1]) + TaskOf(ws[|ws| - 1])
  }

  lemma {:induction false} TasksMove<T>(ws: seq<Worker<T>>, i: nat, x: Worker<T>)
    requires i < |ws|
    ensures Tasks(ws[i := x]) + TaskOf(ws[i]) == Tasks(ws) + TaskOf(x)
  {
    var n, us := |ws| - 1, ws[i := x];
    var front := Tasks(ws[..n]);
    assert Tasks(ws) == front + TaskOf(ws[n]);
    if i == n {
      assert us[..n] == ws[..n];
      Swap(front, TaskOf(x), TaskOf(ws[n]));
    } else {
      assert us[..n] == ws[..n][i := x];
      TasksMove(ws[..n], i, x);
      var moved := Tasks(us[..n]);
      assert Tasks(us) == moved + TaskOf(ws[n]);
      Swap(moved, TaskOf(ws[n]), TaskOf(ws[i]));
      Swap(front, TaskOf(ws[n]), TaskOf(x));
    }
  }

  lemma Swap<T>(a: multiset<T>, b: multiset<T>, c: multiset<T>)
    ensures (a + b) + c == (a + c) + b
  {
  }

  lemma TasksUpdate<T>(ws: seq<Worker<T>>, i: nat, x: Worker<T>)
    requires i < |ws| && !(ws[i].Running? && x.Running?)
    ensures !ws[i].Running? && !x.Running? ==> Tasks(ws[i := x]) == Tasks(ws)
    ensures x.Running? ==> Tasks(ws[i := x]) == Tasks(ws) + multiset{x.task}
    ensures ws[i].Running? ==> Tasks(ws) == Tasks(ws[i := x]) + multiset{ws[i].task}
  {
    TasksMove(ws, i, x);
    assert Tasks(ws) + multiset{} == Tasks(ws) && Tasks(ws[i := x]) + multiset{} == Tasks(ws[i := x]);
  }

  lemma {:induction false} TasksSame<T>(ws: seq<Worker<T>>, us: seq<Worker<T>>)
    requires |ws| == |us| && forall i :: 0 <= i < |ws| ==> TaskOf(ws[i]) == TaskOf(us[i])
    ensures Tasks(ws) == Tasks(us)
  {
    if ws != [] {
      TasksSame(ws[..|ws| - 1], us[..|us| - 1]);
      assert TaskOf(ws[|ws| - 1]) == TaskOf(us[|us| - 1]);
    }
  }

  lemma {:induction false} TasksIdle<T>(ws: seq<Worker<T>>)
    requires forall i :: 0 <= i < |ws| ==> !ws[i].Running?
    ensures Tasks(ws) == multiset{}
  {
    if ws != [] {
      TasksIdle(ws[..|ws| - 1]);
    }
  }

  /* The invariant */

  // A worker waits only while enough wake-ups are under way for the tasks in the queue.
  ghost predicate NoLostWakeup<T>(s: State<T>) {
    AnyWaiting(s) ==> |s.queue| <= s.notifying + Sum(IsWoken, s.workers)
  }

  // Tasks leave the queue in the order they entered it, and each is run once.
  ghost predicate Accounted<T>(s: State<T>) {
    && s.enqueued == s.dequeued + s.queue
    && multiset(s.dequeued) == multiset(s.finished) + Tasks(s.workers)
  }

  ghost predicate Shutdown<T>(s: State<T>) {
    && (forall w :: 0 <= w < |s.workers| && s.workers[w].Exited? ==> Stop(s) && s.queue == [])
    && (s.destructor.Joining? ==> !AnyWaiting(s) && s.destructor.joined <= |s.workers|)
    && (s.destructor.Joining? ==> forall w :: 0 <= w < s.destructor.joined ==> s.workers[w].Exited?)
  }

  ghost predicate Inv<T>(threads: nat, s: State<T>) {
    |s.workers| == threads && NoLostWakeup(s) && Accounted(s) && Shutdown(s)
  }

  lemma {:induction false} ReadyWorkers<T>(threads: nat)
    ensures Tasks(seq(threads, _ => Worker<T>.Ready)) == multiset{}
  {
    TasksIdle(seq(threads, _ => Worker<T>.Ready));
  }

  lemma StepKeepsWakeups<T>(s: State<T>, step: Step<T>)
    requires NoLostWakeup(s) && Enabled(s, step)
    ensures NoLostWakeup(Apply(s, step))
  {
    var t := Apply(s, step);
    match step {
      case NotifyOne(w) =>
        if w < |s.workers| {
          SumUpdate(IsWoken, s.workers, w, Wake(s.workers[w]));
        }
        forall v | 0 <= v < |t.workers| && t.workers[v].Waiting?
          ensures s.workers[v].Waiting?
        {
        }
      case Spurious(w) => SumUpdate(IsWoken, s.workers, w, Woken);
      case Check(w) =>
        SumUpdate(IsWoken, s.workers, w, t.workers[w]);
        forall v | 0 <= v < |t.workers| && t.workers[v].Waiting? && s.queue != []
          ensures s.workers[v].Waiting?
        {
        }
      case Finish(w) =>
        SumUpdate(IsWoken, s.workers, w, Ready);
        forall v | 0 <= v < |t.workers| && t.workers[v].Waiting?
          ensures s.workers[v].Waiting?
        {
        }
      case _ =>
    }
  }

  lemma FirstMoves<T>(front: seq<T>, back: seq<T>)
    requires back != []
    ensures front + back == (front + [back[0]]) + back[1..]
  {
  }

  lemma OneMore<T>(ts: seq<T>, t: T)
    ensures multiset(ts + [t]) == multiset(ts) + multiset{t}
  {
  }

  lemma QueueGrows<T>(front: seq<T>, back: seq<T>, t: T)
    ensures front + back + [t] == front + (back + [t])
  {
  }

  lemma TakeKeepsAccounts<T>(s: State<T>, w: nat)
    requires Accounted(s) && Enabled(s, Check(w)) && s.queue != []
    ensures Accounted(Apply(s, Check(w)))
  {
    var task := s.queue[0];
    TasksUpdate(s.workers, w, Running(task));
    FirstMoves(s.dequeued, s.queue);
    OneMore(s.dequeued, task);
  }

  lemma FinishKeepsAccounts<T>(s: State<T>, w: nat)
    requires Accounted(s) && Enabled(s, Finish(w))
    ensures Accounted(Apply(s, Finish(w)))
  {
    TasksUpdate(s.workers, w, Ready);
    OneMore(s.finished, s.workers[w].task);
  }

  lemma StepKeepsAccounts<T>(s: State<T>, step: Step<T>)
    requires Accounted(s) && Enabled(s, step)
    ensures Accounted(Apply(s, step))
  {
    match step {
      case Enqueue(t) => QueueGrows(s.dequeued, s.queue, t);
      case NotifyOne(w) =>
        if w < |s.workers| && s.workers[w].Waiting? {
          TasksUpdate(s.workers, w, Woken);
        } else {
          assert Apply(s, step).workers == s.workers;
        }
      case Spurious(w) => TasksUpdate(s.workers, w, Woken);
      case Check(w) =>
        if s.queue == [] {
          TasksUpdate(s.workers, w, if Stop(s) then Exited else Waiting);
        } else {
          TakeKeepsAccounts(s, w);
        }
      case Finish(w) => FinishKeepsAccounts(s, w);
      case NotifyAll => TasksSame(s.workers, WakeAll(s.workers));
      case _ =>
    }
  }

  lemma StepKeepsShutdown<T>(s: State<T>, step: Step<T>)
    requires Shutdown(s) && Enabled(s, step)
    ensures Shutdown(Apply(s, step))
  {
  }

  lemma StepKeepsWorkers<T>(s: State<T>, step: Step<T>)
    requires Enabled(s, step)
    ensures |Apply(s, step).workers| == |s.workers|
  {
  }

  lemma StepKeepsInv<T>(threads: nat, s: State<T>, step: Step<T>)
    requires Inv(threads, s) && Enabled(s, step)
    ensures Inv(threads, Apply(s, step))
  {
    StepKeepsWorkers(s, step);
    StepKeepsWakeups(s, step);
    StepKeepsAccounts(s, step);
    StepKeepsShutdown(s, step);
  }

  lemma {:induction false} RunKeepsInv<T(!new)>(threads: nat, trace: seq<State<T>>, steps: seq<Step<T>>, i: nat)
    requires IsRun(threads, trace, steps) && i < |trace|
    ensures Inv(threads, trace[i])
  {
    if i == 0 {
      ReadyWorkers<T>(threads);
    } else {
      RunKeepsInv(threads, trace, steps, i - 1);
      var s, step := trace[i - 1], steps[i - 1];
      assert Enabled(s, step);
      StepKeepsInv(threads, s, step);
    }
  }

  /* What the steps of a run say of its tasks */

  // The tasks of the calls of enqueue that were not rejected, in the order of those calls.
  function Submitted<T>(trace: seq<State<T>>, steps: seq<Step<T>>, n: nat): seq<T>
    requires n <= |steps| < |trace|
  {
    if n == 0 then []
    else
      Submitted(trace, steps, n - 1)
      + if steps[n - 1].Enqueue? && !Stop(trace[n - 1]) then [steps[n - 1].task] else []
  }

  // The tasks that workers have taken on, in the order in which they did.
  function Begun<T>(trace: seq<State<T>>, steps: seq<Step<T>>, n: nat): seq<T>
    requires n <= |steps| < |trace|
  {
    if n == 0 then []
    else
      Begun(trace, steps, n - 1)
      + match steps[n - 1]
        case Check(w) => if w < |trace[n].workers| then RunBy(trace[n].workers[w]) else []
        case _ => []
  }

  function Completed<T>(trace: seq<State<T>>, steps: seq<Step<T>>, n: nat): seq<T>
    requires n <= |steps| < |trace|
  {
    if n == 0 then []
    else
      Completed(trace, steps, n - 1)
      + match steps[n - 1]
        case Finish(w) => if w < |trace[n - 1].workers| then RunBy(trace[n - 1].workers[w]) else []
        case _ => []
  }

  function RunBy<T>(x: Worker<T>): seq<T> {
    if x.Running? then [x.task] else []
  }

  function NotifyCalls<T>(steps: seq<Step<T>>, n: nat): nat
    requires n <= |steps|
  {
    if n == 0 then 0 else NotifyCalls(steps, n - 1) + if steps[n - 1].NotifyOne? then 1 else 0
  }

  // What one step adds to the records that the state keeps.
  lemma StepRecords<T>(s: State<T>, step: Step<T>)
    requires Enabled(s, step)
    ensures var t := Apply(s, step);
            && t.enqueued == s.enqueued + (if step.Enqueue? && !Stop(s) then [step.task] else [])
            && t.dequeued == s.dequeued + (if step.Check? then RunBy(t.workers[step.w]) else [])
            && t.finished == s.finished + (if step.Finish? then RunBy(s.workers[step.w]) else [])
            && t.notifying + (if step.NotifyOne? then 1 else 0)
               == s.notifying + (if step.Enqueue? && !Stop(s) then 1 else 0)
            && (Stop(t) <==> Stop(s) || step.SetStop?)
  {
  }

  // The records of a state are those of the steps that led to it.
  lemma {:induction false} RecordsAreTrue<T(!new)>(
    threads: nat, trace: seq<State<T>>, steps: seq<Step<T>>, i: nat)
    requires IsRun(threads, trace, steps) && i < |trace|
    ensures trace[i].enqueued == Submitted(trace, steps, i)
    ensures trace[i].dequeued == Begun(trace, steps, i)
    ensures trace[i].finished == Completed(trace, steps, i)
    ensures trace[i].notifying + NotifyCalls(steps, i) == |Submitted(trace, steps, i)|
  {
    if i > 0 {
      RecordsAreTrue(threads, trace, steps, i - 1);
      StepRecords(trace[i - 1], steps[i - 1]);
    }
  }

  ghost predicate StopWasSet<T>(steps: seq<Step<T>>, i: nat)
    requires i <= |steps|
  {
    exists j :: 0 <= j < i && steps[j].SetStop?
  }

  // The pool is stopped exactly once its destructor has set the flag.
  lemma {:induction false} StoppedExactlyThen<T(!new)>(
    threads: nat, trace: seq<State<T>>, steps: seq<Step<T>>, i: nat)
    requires IsRun(threads, trace, steps) && i < |trace|
    ensures Stop(trace[i]) <==> StopWasSet(steps, i)
  {
    if i > 0 {
      StoppedExactlyThen(threads, trace, steps, i - 1);
      StepRecords(trace[i - 1], steps[i - 1]);
      assert StopWasSet(steps, i) <==> StopWasSet(steps, i - 1) || steps[i - 1].SetStop?;
    }
  }

  /** No lost wakeup, in every interleaving: while any worker waits, the queue holds no more tasks than there are
      notify_one calls still to come, one for each task submitted, and woken workers still to test the queue. */
  lemma NoWakeupIsLost<T(!new)>(threads: nat, trace: seq<State<T>>, steps: seq<Step<T>>, i: nat)
    requires IsRun(threads, trace, steps) && i < |trace|
    requires exists w :: 0 <= w < |trace[i].workers| && trace[i].workers[w].Waiting?
    ensures |trace[i].queue| + NotifyCalls(steps, i) <= |Submitted(trace, steps, i)| + Sum(IsWoken, trace[i].workers)
  {
    RunKeepsInv(threads, trace, steps, i);
    RecordsAreTrue(threads, trace, steps, i);
  }

  // Steps the pool makes on its own, given that tasks terminate.
  predicate Internal<T>(step: Step<T>) {
    !step.Enqueue? && !step.Spurious? && !step.SetStop?
  }

  lemma PoolCanStep<T>(threads: nat, s: State<T>) returns (step: Step<T>)
    requires Inv(threads, s) && threads > 0 && s.queue != []
    ensures Enabled(s, step) && Internal(step)
  {
    if s.workers[0].Waiting? {
      if s.notifying > 0 {
        step := NotifyOne(0);
      } else {
        var w := SumPositive(IsWoken, s.workers);
        step := Check(w);
      }
    } else if s.workers[0].Running? {
      step := Finish(0);
    } else {
      step := Check(0);
    }
  }

  /** Work conservation: a pool with a worker and a task in its queue always has a step of its own to make. */
  lemma QueuedWorkMoves<T(!new)>(threads: nat, trace: seq<State<T>>, steps: seq<Step<T>>, i: nat)
    requires IsRun(threads, trace, steps) && i < |trace| && threads > 0 && trace[i].queue != []
    ensures exists step :: Enabled(trace[i], step) && Internal(step)
  {
    RunKeepsInv(threads, trace, steps, i);
    var step := PoolCanStep(threads, trace[i]);
  }

  /** Exactly once, in order: the tasks submitted before the stop are, in the order of their submission, those that
      workers have begun to run and those in the queue; what has begun is, task for task, what has been completed
      together with what is running. A worker returns only on stop with an empty queue. */
  lemma ExactlyOnce<T(!new)>(threads: nat, trace: seq<State<T>>, steps: seq<Step<T>>, i: nat)
    requires IsRun(threads, trace, steps) && i < |trace|
    ensures Submitted(trace, steps, i) == Begun(trace, steps, i) + trace[i].queue
    ensures multiset(Begun(trace, steps, i)) == multiset(Completed(trace, steps, i)) + Tasks(trace[i].workers)
    ensures forall w :: 0 <= w < |trace[i].workers| && trace[i].workers[w].Exited? ==>
              Stop(trace[i]) && trace[i].queue == []
  {
    RunKeepsInv(threads, trace, steps, i);
    RecordsAreTrue(threads, trace, steps, i);
  }

  /* Draining */

  function Weight<T>(x: Worker<T>): nat {
    match x
    case Ready => 1
    case Woken => 1
    case Running(_) => 2
    case _ => 0
  }

  // What is left to do; notify_all may wake every worker once more.
  function Work<T>(s: State<T>): nat {
    2 * |s.queue| + 2 * s.notifying + Sum(Weight, s.workers)
    + match s.destructor
      case Alive => 0
      case StopSet => 2 * |s.workers| + 1
      case Joining(j) => if j <= |s.workers| then |s.workers| - j else 0
  }

  lemma {:induction false} SumOfWoken<T>(ws: seq<Worker<T>>)
    ensures Sum(Weight, WakeAll(ws)) <= Sum(Weight, ws) + |ws|
  {
    if ws != [] {
      var n := |ws| - 1;
      SumOfWoken(ws[..n]);
      assert WakeAll(ws)[..n] == WakeAll(ws[..n]);
    }
  }

  // Every step the pool makes on its own lessens the work.
  lemma InternalStepsDrain<T>(threads: nat, s: State<T>, step: Step<T>)
    requires Inv(threads, s) && Enabled(s, step) && Internal(step)
    ensures Work(Apply(s, step)) < Work(s)
  {
    var t := Apply(s, step);
    match step {
      case NotifyOne(w) =>
        if w < |s.workers| {
          SumUpdate(Weight, s.workers, w, t.workers[w]);
        }
      case Check(w) => SumUpdate(Weight, s.workers, w, t.workers[w]);
      case Finish(w) => SumUpdate(Weight, s.workers, w, Ready);
      case NotifyAll => SumOfWoken(s.workers);
      case Join =>
    }
  }

  ghost predicate Quiet<T(!new)>(s: State<T>) {
    forall step :: Enabled(s, step) ==> !Internal(step)
  }

  // A stopped pool with no step of its own left has run everything.
  lemma QuietIsDone<T(!new)>(threads: nat, s: State<T>)
    requires Inv(threads, s) && Stop(s) && Quiet(s)
    ensures s.destructor == Joining(threads) && forall w :: 0 <= w < threads ==> s.workers[w].Exited?
    ensures threads > 0 ==> s.queue == []
    ensures Tasks(s.workers) == multiset{}
  {
    assert !Enabled(s, NotifyAll) && !Enabled(s, Join);
    forall w | 0 <= w < threads
      ensures s.workers[w].Exited?
    {
      assert !Enabled(s, Check(w)) && !Enabled(s, Finish(w));
    }
    TasksIdle(s.workers);
    assert threads > 0 ==> s.workers[0].Exited?;
  }

  /** Drain: once `stop` is set the pool's own steps, each of which lessens the work, can only run out when every worker
      has returned and been joined, and then every task submitted before the stop has been completed exactly once. */
  lemma Drained<T(!new)>(threads: nat, trace: seq<State<T>>, steps: seq<Step<T>>, i: nat)
    requires IsRun(threads, trace, steps) && i < |trace| && Stop(trace[i])
    ensures |trace[i].workers| == threads
    ensures forall step :: Enabled(trace[i], step) && Internal(step) ==> Work(Apply(trace[i], step)) < Work(trace[i])
    ensures Quiet(trace[i]) ==>
              && trace[i].destructor == Joining(threads)
              && (forall w :: 0 <= w < threads ==> trace[i].workers[w].Exited?)
              && (threads > 0 ==>
                    multiset(Completed(trace, steps, i)) == multiset(Submitted(trace, steps, i)))
  {
    RunKeepsInv(threads, trace, steps, i);
    forall step | Enabled(trace[i], step) && Internal(step)
      ensures Work(Apply(trace[i], step)) < Work(trace[i])
    {
      InternalStepsDrain(threads, trace[i], step);
    }
    if Quiet(trace[i]) {
      QuietIsDone(threads, trace[i]);
      ExactlyOnce(threads, trace, steps, i);
      AllBegun(Submitted(trace, steps, i), Begun(trace, steps, i), trace[i].queue);
    }
  }

  lemma AllBegun<T>(all: seq<T>, begun: seq<T>, queue: seq<T>)
    requires all == begun + queue
    ensures queue == [] ==> all == begun
  {
  }

  /* The pool as an object; each method is one atomic region of the program */

  class Pool<T> {
    var taskQueue: seq<T>
    var stop: bool
    var workers: seq<Worker<T>>
    ghost var notifying: nat
    ghost var destructor: Destructor
    ghost var enqueued: seq<T>
    ghost var dequeued: seq<T>
    ghost var finished: seq<T>

    ghost function View(): State<T>
      reads this
    {
      State(taskQueue, workers, notifying, destructor, enqueued, dequeued, finished)
    }

    ghost predicate Valid()
      reads this
    {
      stop == !destructor.Alive?
    }

    constructor (numThreads: nat)
      ensures Valid() && View() == Initial(numThreads)
    {
      taskQueue, stop := [], false;
      notifying, destructor, enqueued, dequeued, finished := 0, Alive, [], [], [];
      var ws: seq<Worker<T>> := [];
      for i := 0 to numThreads
        invariant ws == seq(i, _ => Worker<T>.Ready)
      {
        ws := ws + [Ready];
      }
      workers := ws;
    }

    // enqueue up to the end of its locked region; `ok` is false where it throws.
    method Push(task: T) returns (ok: bool)
      requires Valid()
      modifies this
      ensures Valid() && View() == Apply(old(View()), Step.Enqueue(task))
      ensures ok == !old(stop) && taskQueue == if ok then old(taskQueue) + [task] else old(taskQueue)
    {
      ok := !stop;
      if ok {
        taskQueue := taskQueue + [task];
        enqueued := enqueued + [task];
        notifying := notifying + 1;
      }
    }

    // condition.notify_one(); `w` is the worker the condition variable picks if any waits.
    method Signal(w: nat)
      requires Valid() && Enabled(View(), Step<T>.NotifyOne(w))
      modifies this
      ensures Valid() && View() == Apply(old(View()), Step.NotifyOne(w))
      ensures workers
           == if w < |old(workers)| && old(workers)[w].Waiting? then old(workers)[w := Woken] else old(workers)
    {
      notifying := notifying - 1;
      if w < |workers| && workers[w].Waiting? {
        workers := workers[w := Woken];
      }
    }

    // The locked region of the worker loop.
    method Acquire(w: nat)
      requires Valid() && Enabled(View(), Step<T>.Check(w))
      modifies this
      ensures Valid() && View() == Apply(old(View()), Step.Check(w))
      ensures workers[w]
           == if old(taskQueue) != [] then Running(old(taskQueue)[0]) else if stop then Exited else Waiting
      ensures taskQueue == if old(taskQueue) != [] then old(taskQueue)[1..] else []
    {
      if !(stop || taskQueue != []) {
        workers := workers[w := Waiting];
      } else if stop && taskQueue == [] {
        workers := workers[w := Exited];
      } else {
        var task := taskQueue[0];
        taskQueue := taskQueue[1..];
        dequeued := dequeued + [task];
        workers := workers[w := Running(task)];
      }
    }

    method RunTask(w: nat)
      requires Valid() && Enabled(View(), Step<T>.Finish(w))
      modifies this
      ensures Valid() && View() == Apply(old(View()), Step.Finish(w)) && workers[w].Ready?
    {
      finished := finished + [workers[w].task];
      workers := workers[w := Ready];
    }

    // The destructor up to the end of its locked region.
    method BeginStop()
      requires Valid() && Enabled(View(), Step<T>.SetStop)
      modifies this
      ensures Valid() && View() == Apply(old(View()), Step<T>.SetStop) && stop && workers == old(workers)
    {
      stop := true;
      destructor := StopSet;
    }

    method Broadcast()
      requires Valid() && Enabled(View(), Step<T>.NotifyAll)
      modifies this
      ensures Valid() && View() == Apply(old(View()), Step<T>.NotifyAll)
      ensures |workers| == |old(workers)| && forall j :: 0 <= j < |workers| ==>
                workers[j] == if old(workers)[j].Waiting? then Woken else old(workers)[j]
    {
      var ws := workers;
      for i := 0 to |workers|
        invariant |ws| == |workers| && unchanged(this)
        invariant forall j :: 0 <= j < |ws| ==> ws[j] == if j < i then Wake(workers[j]) else workers[j]
      {
        if ws[i].Waiting? {
          ws := ws[i := Woken];
        }
      }
      workers := ws;
      destructor := Joining(0);
    }
  }
}
