/** The three liveness results: no run of a runnable script goes on without bound, none gets stuck before the
    consumer has read the last event, and ticks never outnumber events. */
module Liveness {
  import opened Events
  import Producer
  import Consumer
  import opened Pipeline
  import opened Progress
  import opened Streams

  // Steps that only look: a monitor poll that finds nothing to do, and a completion already known.
  predicate Polls(s: State, step: Step) {
    match step
    case MonitorStep => !MonitorTakes(s) && !(s.cons.status.Inactive? && s.cons.processCompleted)
    case ProcessCompletes => s.cons.processCompleted
    case _ => false
  }

  // Work left inside the running handler. A tick that read a system call and has nothing to retire keeps credit for it.
  function HandlerWork(c: Consumer.State): nat {
    match c.pc
    case Idle => 2
    case Initializing => 2
    case Fetching(_, _, _) => 1
    case Retiring(_) => if Drained(c) then 3 else 0
    case Aborted => 0
  }

  function HartWork(c: Consumer.State): nat {
    3 * (|c.instBuffer| + |Consumer.Package(c.pc)|) + HandlerWork(c)
    + (if c.startupEvent then 1 else 0) + (if c.status.Completed? then 0 else 1) + (if c.processCompleted then 0 else 1)
  }

  ghost function ChannelWork(s: State): int {
    4 * (|Producer.Published(s.prod)| - |s.cons.popped|) + (if s.prod.sending then 2 else 0) + |s.queue|
  }

  // Operations, events, batches and instructions still to be handled, weighted by the steps each may cost.
  ghost function Work(cfg: Config, s: State): int {
    7 * (|cfg.script| - s.next) + ChannelWork(s) + HartWork(s.cons)
  }

  lemma FetchWorks(cfg: Config, s: State)
    requires Runnable(cfg) && Ready(cfg, s) && Enabled(cfg, s, ProceedStep)
    requires s.cons.pc.Fetching? && s.cons.pc.cur < s.cons.pc.limit
    ensures var c, d := s.cons, Consumer.FetchStep(cfg.hart, s.cons);
            HartWork(d) + 4 * (|c.popped| - |d.popped|) < HartWork(c)
  {
    FetchMeets(cfg, s);
  }

  lemma RetireWorks(c: Consumer.State)
    requires c.pc.Retiring? && (c.status.Completed? ==> !c.caller.MonitorHandler?)
    ensures var d := Consumer.EndHandler(Consumer.Retire(c, c.pc.package));
            d.popped == c.popped && HartWork(d) < HartWork(c)
  {
    var r := Consumer.Retire(c, c.pc.package);
    assert |r.instBuffer| + (if Drained(c) then 0 else 1) == |c.instBuffer| + |c.pc.package|;
  }

  lemma ProceedWorks(cfg: Config, s: State)
    requires Runnable(cfg) && Ready(cfg, s) && Enabled(cfg, s, ProceedStep)
    ensures var c, d := s.cons, Consumer.Proceed(cfg.hart, s.cons);
            HartWork(d) + 4 * (|c.popped| - |d.popped|) < HartWork(c)
  {
    match s.cons.pc {
      case Initializing => InitializeKeepsReady(cfg, s);
      case Fetching(cur, limit, package) =>
        if cur < limit {
          FetchWorks(cfg, s);
        } else if package == [] {
          FetchBegins(cfg, s);
        }
      case Retiring(package) => RetireWorks(s.cons);
    }
  }

  lemma GuestWorks(cfg: Config, s: State)
    requires Enabled(cfg, s, GuestStep)
    ensures ChannelWork(Apply(cfg, s, GuestStep)) <= ChannelWork(s) + 6
  {
    PublishesOneAtMost(s.prod, cfg.maxHarts, cfg.script[s.next]);
  }

  lemma PublishesOneAtMost(p: Producer.State, maxHarts: nat, op: Producer.GuestOp)
    ensures |Producer.Published(Producer.Perform(p, maxHarts, op))| <= |Producer.Published(p)| + 1
  {
    match op {
      case Exec(e) =>
        Producer.PublishedAppend(p, false, Insn(p.eventCounter, Producer.Resolve(p.last, e), false));
      case Syscall =>
        Producer.PublishedAppend(p, true, SyscallApi(p.eventCounter, false));
      case Exit =>
        Producer.PublishedAppend(p, true, Insn(p.eventCounter, p.last, true));
    }
  }

  lemma FireWorks(cfg: Config, s: State, step: Step)
    requires Enabled(cfg, s, step)
    requires step.StartupStep? || step.TickStep? || step.MonitorStep? || step.TakeStep? || step.ProcessCompletes?
    ensures var t := Apply(cfg, s, step);
            && t.next == s.next && t.prod == s.prod && t.cons.popped == s.cons.popped
            && if Polls(s, step) then HartWork(t.cons) + |t.queue| == HartWork(s.cons) + |s.queue|
               else HartWork(t.cons) + |t.queue| < HartWork(s.cons) + |s.queue|
  {
  }

  // Every step either only polls, and then leaves the work as it is, or lessens it.
  lemma StepWorks(cfg: Config, s: State, step: Step)
    requires Runnable(cfg) && (Ready(cfg, s) || Gone(cfg, s)) && Enabled(cfg, s, step)
    ensures if Polls(s, step) then Work(cfg, Apply(cfg, s, step)) == Work(cfg, s)
            else Work(cfg, Apply(cfg, s, step)) < Work(cfg, s)
  {
    match step {
      case GuestStep => GuestWorks(cfg, s);
      case SendStep => Producer.SettledPublishesTheSame(s.prod);
      case ProceedStep => ProceedWorks(cfg, s);
      case _ => FireWorks(cfg, s, step);
    }
  }

  lemma WorkIsNatural(cfg: Config, s: State)
    requires Inv(cfg, s)
    ensures Work(cfg, s) >= 0
  {
    PoppedIsPrefix(s);
  }

  // How many of the first n steps did more than poll.
  function WorkSteps(trace: seq<State>, steps: seq<Step>, n: nat): nat
    requires n <= |steps| < |trace|
  {
    if n == 0 then 0
    else WorkSteps(trace, steps, n - 1) + if Polls(trace[n - 1], steps[n - 1]) then 0 else 1
  }

  lemma {:induction false} WorkStepsBound(cfg: Config, trace: seq<State>, steps: seq<Step>, n: nat)
    requires Runnable(cfg) && IsRun(cfg, trace, steps) && n <= |steps|
    ensures WorkSteps(trace, steps, n) + Work(cfg, trace[n]) <= Work(cfg, Initial(cfg))
  {
    if n > 0 {
      WorkStepsBound(cfg, trace, steps, n - 1);
      RunKeepsReady(cfg, trace, steps, n - 1);
      StepWorks(cfg, trace[n - 1], steps[n - 1]);
    }
  }

  /** No interleaving goes on without bound: apart from polls that find nothing, a run of a script of n operations
      has at most 7n + 5 steps. */
  lemma RunsAreBounded(cfg: Config, trace: seq<State>, steps: seq<Step>)
    requires Runnable(cfg) && IsRun(cfg, trace, steps)
    ensures WorkSteps(trace, steps, |steps|) <= 7 * |cfg.script| + 5
  {
    WorkStepsBound(cfg, trace, steps, |steps|);
    RunKeepsReady(cfg, trace, steps, |steps|);
    WorkIsNatural(cfg, trace[|steps|]);
  }

  // With nothing in flight towards a waiting consumer, the producer can go on.
  lemma ProducerGoesOn(cfg: Config, s: State)
    requires Runnable(cfg) && Ready(cfg, s) && !LastPopped(s.cons) && Consumer.AtEnd(s.cons) && s.queue == []
    ensures Enabled(cfg, s, SendStep) || Enabled(cfg, s, GuestStep)
  {
    var stream, b := Producer.Published(s.prod), s.prod.buffer;
    assert stream == s.cons.popped + b;
    if s.next == |cfg.script| {
      assert Done(cfg, s) == cfg.script;
      assert stream != [] && stream[|stream| - 1].isLast;
      assert b != [] && b[|b| - 1] == stream[|stream| - 1];
    }
  }

  /** No interleaving gets stuck: until the consumer has popped the last event, some step is enabled that lessens the
      work. */
  lemma NeverStuck(cfg: Config, trace: seq<State>, steps: seq<Step>, i: nat)
    requires Runnable(cfg) && IsRun(cfg, trace, steps) && i < |trace|
    requires !SleptEarly(trace, steps, i)
    ensures LastPopped(trace[i].cons) ||
            exists step :: Enabled(cfg, trace[i], step) && !Polls(trace[i], step) && !step.ProcessCompletes?
                           && !SleepsEarly(trace[i], step)
  {
    RunKeepsReady(cfg, trace, steps, i);
    var s := trace[i];
    if !LastPopped(s.cons) {
      var step :=
        if Consumer.AtEnd(s.cons) && s.queue == [] && !Consumer.CanProceed(s.cons)
           && !(s.cons.pc.Idle? && (s.cons.tickEvent || s.cons.startupEvent))
        then (if s.prod.sending then SendStep else GuestStep)
        else if !s.cons.pc.Idle? then (if Consumer.CanProceed(s.cons) then ProceedStep else TakeStep)
        else if s.cons.startupEvent then StartupStep
        else if s.cons.tickEvent then TickStep
        else MonitorStep;
      if Consumer.AtEnd(s.cons) && s.queue == [] {
        ProducerGoesOn(cfg, s);
      }
      assert Enabled(cfg, s, step) && !Polls(s, step) && !step.ProcessCompletes? && !SleepsEarly(s, step);
    }
  }

  /* Ticks */

  // Ticks that have ended within the first n steps.
  function Ticks(trace: seq<State>, steps: seq<Step>, n: nat): nat
    requires n <= |steps| < |trace|
  {
    if n == 0 then 0
    else Ticks(trace, steps, n - 1) + if steps[n - 1].ProceedStep? && trace[n - 1].cons.pc.Retiring? then 1 else 0
  }

  function SyscallsPopped(c: Consumer.State): int {
    |c.popped| - |Insts(c.popped)|
  }

  // A tick that has read a system call and has nothing to retire is paid for before it ends.
  function Credit(c: Consumer.State): nat {
    if c.pc.Retiring? && Drained(c) then 1 else 0
  }

  lemma FetchPaysForTick(cfg: Config, c: Consumer.State)
    requires c.pc.Fetching? && c.pc.cur < c.pc.limit && !Consumer.AtEnd(c) && NextFits(c)
    ensures var d := Consumer.FetchStep(cfg.hart, c);
            d.retired == c.retired && Credit(d) + SyscallsPopped(c) <= SyscallsPopped(d)
  {
    var ev, d := c.buffer[c.header], Consumer.FetchStep(cfg.hart, c);
    if ev.Insn? && !Consumer.Fits(ev.inst, c.pc.cur, c.pc.limit) {
      assert d == c.(pc := Consumer.Retiring(c.pc.package));
    } else {
      assert d.popped == c.popped + [ev] && d.instBuffer == c.instBuffer && d.retired == c.retired;
      InstsConcat(c.popped, [ev]);
      assert |Insts([ev])| == if ev.Insn? then 1 else 0;
    }
  }

  lemma RetirePaysForTick(c: Consumer.State)
    requires c.pc.Retiring?
    ensures var d := Consumer.EndHandler(Consumer.Retire(c, c.pc.package));
            d.popped == c.popped && Credit(d) == 0 && 1 + |c.retired| <= Credit(c) + |d.retired|
  {
    assert !Drained(c) ==> c.instBuffer + c.pc.package != [];
  }

  // Steps outside a handler's own neither retire nor read anything.
  lemma FireReadsNothing(cfg: Config, s: State, step: Step)
    requires Enabled(cfg, s, step) && !step.ProceedStep?
    ensures var c, d := s.cons, Apply(cfg, s, step).cons;
            d.popped == c.popped && d.retired == c.retired && Credit(d) == Credit(c)
  {
  }

  lemma FetchingPaysForTicks(cfg: Config, s: State)
    requires Runnable(cfg) && Ready(cfg, s) && Enabled(cfg, s, ProceedStep) && s.cons.pc.Fetching?
    ensures var c, d := s.cons, Consumer.Proceed(cfg.hart, s.cons);
            Credit(d) + |c.retired| + SyscallsPopped(c) <= Credit(c) + |d.retired| + SyscallsPopped(d)
  {
    if s.cons.pc.cur < s.cons.pc.limit {
      FetchMeets(cfg, s);
      FetchPaysForTick(cfg, s.cons);
    } else if s.cons.pc.package == [] {
      FetchBegins(cfg, s);
    }
  }

  lemma ProceedPaysForTicks(cfg: Config, s: State)
    requires Runnable(cfg) && Ready(cfg, s) && Enabled(cfg, s, ProceedStep)
    ensures var c, d := s.cons, Consumer.Proceed(cfg.hart, s.cons);
            Credit(d) + (if c.pc.Retiring? then 1 else 0) + |c.retired| + SyscallsPopped(c)
            <= Credit(c) + |d.retired| + SyscallsPopped(d)
  {
    var c := s.cons;
    if c.pc.Retiring? {
      RetirePaysForTick(c);
    } else if c.pc.Fetching? {
      FetchingPaysForTicks(cfg, s);
    }
  }

  lemma StepPaysForTicks(cfg: Config, s: State, step: Step)
    requires Runnable(cfg) && (Ready(cfg, s) || Gone(cfg, s)) && Enabled(cfg, s, step)
    ensures var c, d := s.cons, Apply(cfg, s, step).cons;
            Credit(d) + (if step.ProceedStep? && c.pc.Retiring? then 1 else 0) + |c.retired| + SyscallsPopped(c)
            <= Credit(c) + |d.retired| + SyscallsPopped(d)
  {
    if step.ProceedStep? {
      ProceedPaysForTicks(cfg, s);
    } else {
      FireReadsNothing(cfg, s, step);
    }
  }

  /** Every tick retires an instruction or consumes a system call, so ticks never outnumber the events popped. */
  lemma {:induction false} TicksBound(cfg: Config, trace: seq<State>, steps: seq<Step>, n: nat)
    requires Runnable(cfg) && IsRun(cfg, trace, steps) && n <= |steps|
    ensures Ticks(trace, steps, n) + Credit(trace[n].cons) <= |trace[n].cons.retired| + SyscallsPopped(trace[n].cons)
    ensures Ticks(trace, steps, n) <= |trace[n].cons.popped|
  {
    if n > 0 {
      TicksBound(cfg, trace, steps, n - 1);
      RunKeepsReady(cfg, trace, steps, n - 1);
      StepPaysForTicks(cfg, trace[n - 1], steps[n - 1]);
    }
    RunKeepsReady(cfg, trace, steps, n);
  }
}
