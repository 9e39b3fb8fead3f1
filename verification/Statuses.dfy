/** What a hart's status, its process's completion flag and its counters say about the run so far, in every
    interleaving: when a process is complete, when a hart is completed or blocked, and how much it has retired. */
module Statuses {
  import opened Events
  import Producer
  import Consumer
  import opened Pipeline
  import opened Streams

  // What one turn of the fetch loop does to the status and the flag, by the event it pops.
  lemma FetchMoves(cfg: Config, c: Consumer.State)
    requires c.pc.Fetching? && c.pc.cur < c.pc.limit && !Consumer.AtEnd(c) && c.status.Active?
    requires var ev := c.buffer[c.header]; !ev.ThreadApi? && (ev.isLast ==> ev.Insn?)
    ensures var ev, d := c.buffer[c.header], Consumer.FetchStep(cfg.hart, c);
            && d.cycle == c.cycle && d.retired == c.retired
            && if d.popped == c.popped then d.status.Active? && d.processCompleted == c.processCompleted
               else
                 && d.popped == c.popped + [ev]
                 && (d.status.BlockedSyscall? <==> ev.SyscallApi?)
                 && (d.status.Completed? <==> ev.isLast && cfg.hart.isBoot)
                 && (d.status.Inactive? <==> ev.isLast && !cfg.hart.isBoot)
                 && (d.processCompleted <==> c.processCompleted || (ev.isLast && cfg.hart.isBoot))
  {
    var ev := c.buffer[c.header];
    assert c.popped + [ev] != c.popped;
    match ev {
      case SyscallApi(_, _) =>
        assert Consumer.OnSyscall(c) == c.(status := Consumer.BlockedSyscall, tickEvent := false, monitorEvent := true);
      case Insn(_, _, _) =>
    }
  }

  // The end of a handler.
  lemma EndMoves(c: Consumer.State)
    requires c.pc.Retiring?
    ensures var d := Consumer.EndHandler(Consumer.Retire(c, c.pc.package));
            && d.pc.Idle? && d.cycle == c.cycle && d.popped == c.popped && d.processCompleted == c.processCompleted
            && |d.retired| <= |c.retired| + 1
            && d.status == if c.caller.MonitorHandler? then Consumer.Active else c.status
  {
  }

  /* The completion of the process */

  // The flag of the process is up exactly when its boot hart has read its last event, and then it is completed.
  predicate FlagRight(c: Consumer.State) {
    (c.processCompleted <==> LastPopped(c)) && (c.status.Completed? <==> LastPopped(c))
  }

  lemma StepKeepsFlag(cfg: Config, s: State, step: Step)
    requires cfg.hart.isBoot && Inv(cfg, s) && FlagRight(s.cons) && Enabled(cfg, s, step)
    ensures FlagRight(Apply(cfg, s, step).cons)
  {
    if step.ProceedStep? {
      var c := s.cons;
      if c.pc.Fetching? && c.pc.cur < c.pc.limit {
        UnreadPublished(cfg, s);
        FetchMoves(cfg, c);
      } else if c.pc.Retiring? {
        EndMoves(c);
      }
    }
  }

  /** The boot hart of a process completes it, and itself, exactly by reading its last event. */
  lemma {:induction false} BootHartCompletes(cfg: Config, trace: seq<State>, steps: seq<Step>, i: nat)
    requires Producer.SingleThread(cfg.script) && cfg.hart.isBoot && IsRun(cfg, trace, steps) && i < |trace|
    ensures trace[i].cons.processCompleted <==> LastPopped(trace[i].cons)
    ensures trace[i].cons.status.Completed? <==> LastPopped(trace[i].cons)
  {
    if i > 0 {
      BootHartCompletes(cfg, trace, steps, i - 1);
      RunKeepsInv(cfg, trace, steps, i - 1);
      StepKeepsFlag(cfg, trace[i - 1], steps[i - 1]);
    }
  }

  // The monitor of an inactive hart finds no batch, and the process is complete.
  predicate FindsTheEnd(s: State, step: Step) {
    step.MonitorStep? && s.cons.status.Inactive? && s.queue == [] && s.cons.processCompleted
  }

  lemma StepCompletes(cfg: Config, s: State, step: Step)
    requires !cfg.hart.isBoot && Inv(cfg, s) && Enabled(cfg, s, step)
    ensures Apply(cfg, s, step).cons.status.Completed? <==> s.cons.status.Completed? || FindsTheEnd(s, step)
    ensures Apply(cfg, s, step).cons.processCompleted <==> s.cons.processCompleted || step.ProcessCompletes?
  {
    if step.ProceedStep? {
      var c := s.cons;
      if c.pc.Fetching? && c.pc.cur < c.pc.limit {
        UnreadPublished(cfg, s);
        FetchMoves(cfg, c);
      } else if c.pc.Retiring? {
        EndMoves(c);
      }
    }
  }

  ghost predicate HasFoundTheEnd(trace: seq<State>, steps: seq<Step>, i: nat)
    requires i <= |steps| < |trace|
  {
    exists j :: 0 <= j < i && FindsTheEnd(trace[j], steps[j])
  }

  ghost predicate ProcessHasCompleted(steps: seq<Step>, i: nat)
    requires i <= |steps|
  {
    exists j :: 0 <= j < i && steps[j].ProcessCompletes?
  }

  lemma OneStepLater(trace: seq<State>, steps: seq<Step>, i: nat)
    requires i < |steps| < |trace|
    ensures HasFoundTheEnd(trace, steps, i + 1) <==> HasFoundTheEnd(trace, steps, i) || FindsTheEnd(trace[i], steps[i])
    ensures ProcessHasCompleted(steps, i + 1) <==> ProcessHasCompleted(steps, i) || steps[i].ProcessCompletes?
  {
  }

  /** Any other hart is completed exactly from the first poll on that found it inactive, no batch for it, and its
      process complete; and it sees its process complete exactly once the boot hart has made it so. */
  lemma {:induction false} OtherHartCompletes(cfg: Config, trace: seq<State>, steps: seq<Step>, i: nat)
    requires Producer.SingleThread(cfg.script) && !cfg.hart.isBoot && IsRun(cfg, trace, steps) && i < |trace|
    ensures trace[i].cons.status.Completed? <==> HasFoundTheEnd(trace, steps, i)
    ensures trace[i].cons.processCompleted <==> ProcessHasCompleted(steps, i)
  {
    if i > 0 {
      var s, step := trace[i - 1], steps[i - 1];
      OtherHartCompletes(cfg, trace, steps, i - 1);
      RunKeepsInv(cfg, trace, steps, i - 1);
      StepCompletes(cfg, s, step);
      OneStepLater(trace, steps, i - 1);
    }
  }

  /* System calls */

  // The hart reads a system call in this step.
  predicate ReadsSyscall(c: Consumer.State, d: Consumer.State) {
    |d.popped| > |c.popped| && d.popped[|d.popped| - 1].SyscallApi?
  }

  // Its monitor receives a batch, or a start made by the monitor comes to its end.
  predicate Wakes(s: State, step: Step) {
    || (step.MonitorStep? && s.queue != [])
    || (step.ProceedStep? && s.cons.pc.Retiring? && s.cons.caller.MonitorHandler?)
  }

  /** A hart blocks exactly by reading a system call, whatever it has still to retire, and goes on exactly when its
      monitor receives a batch, which is then the one it reads, or at the end of a start that its monitor made. */
  lemma BlocksExactlyThen(cfg: Config, trace: seq<State>, steps: seq<Step>, i: nat)
    requires Producer.SingleThread(cfg.script) && IsRun(cfg, trace, steps) && i < |steps|
    ensures var c, d := trace[i].cons, trace[i + 1].cons;
            if c.status.BlockedSyscall? then !d.status.BlockedSyscall? <==> Wakes(trace[i], steps[i])
            else d.status.BlockedSyscall? <==> ReadsSyscall(c, d)
    ensures trace[i].cons.status.BlockedSyscall? && !trace[i + 1].cons.status.BlockedSyscall? ==>
              trace[i + 1].cons.status.Active? && trace[i + 1].cons.tickEvent && !trace[i + 1].cons.monitorEvent
    ensures trace[i].cons.status.BlockedSyscall? && steps[i].MonitorStep? && trace[i].queue != [] ==>
              && trace[i + 1].cons.buffer == trace[i].queue[0] && trace[i + 1].cons.header == 0
              && trace[i + 1].queue == trace[i].queue[1..]
  {
    RunKeepsInv(cfg, trace, steps, i);
    var s, step := trace[i], steps[i];
    assert Enabled(cfg, s, step) && trace[i + 1] == Apply(cfg, s, step);
    if step.ProceedStep? {
      var c := s.cons;
      if c.pc.Fetching? && c.pc.cur < c.pc.limit {
        UnreadPublished(cfg, s);
        FetchMoves(cfg, c);
      } else if c.pc.Retiring? {
        EndMoves(c);
      }
    }
  }

  /* Cycles and retired instructions */

  function TickSteps(steps: seq<Step>, n: nat): nat
    requires n <= |steps|
  {
    if n == 0 then 0 else TickSteps(steps, n - 1) + if steps[n - 1].TickStep? then 1 else 0
  }

  predicate InHandler(c: Consumer.State) {
    c.pc.Initializing? || c.pc.Fetching? || c.pc.Retiring?
  }

  // A hart starts up once, before it has read anything; every handler may retire one instruction.
  predicate RetiresSlowly(cfg: Config, c: Consumer.State) {
    && (c.pc.Initializing? ==> c.popped == [])
    && (c.status.Inactive? ==> c.popped == [] || (LastPopped(c) && !cfg.hart.isBoot))
    && |c.retired| + (if InHandler(c) then 1 else 0) <= c.cycle + 1
  }

  lemma ProceedRetires(cfg: Config, s: State)
    requires Inv(cfg, s) && RetiresSlowly(cfg, s.cons) && Enabled(cfg, s, ProceedStep)
    ensures var d := Consumer.Proceed(cfg.hart, s.cons); RetiresSlowly(cfg, d) && d.cycle == s.cons.cycle
  {
    var c := s.cons;
    if c.pc.Fetching? && c.pc.cur < c.pc.limit {
      UnreadPublished(cfg, s);
      FetchMoves(cfg, c);
    } else if c.pc.Retiring? {
      EndMoves(c);
    }
  }

  lemma PollRetires(cfg: Config, s: State)
    requires Inv(cfg, s) && RetiresSlowly(cfg, s.cons) && Enabled(cfg, s, MonitorStep)
    ensures var d := Apply(cfg, s, MonitorStep).cons; RetiresSlowly(cfg, d) && d.cycle == s.cons.cycle
  {
    if LastPopped(s.cons) {
      LastIsFinal(cfg, s);
    }
  }

  lemma StepRetires(cfg: Config, s: State, step: Step)
    requires Inv(cfg, s) && RetiresSlowly(cfg, s.cons) && Enabled(cfg, s, step)
    ensures var d := Apply(cfg, s, step).cons;
            RetiresSlowly(cfg, d) && d.cycle == s.cons.cycle + if step.TickStep? then 1 else 0
  {
    match step {
      case ProceedStep => ProceedRetires(cfg, s);
      case MonitorStep => PollRetires(cfg, s);
      case _ =>
    }
  }

  lemma {:induction false} RunRetires(cfg: Config, trace: seq<State>, steps: seq<Step>, i: nat)
    requires Producer.SingleThread(cfg.script) && IsRun(cfg, trace, steps) && i < |trace|
    ensures RetiresSlowly(cfg, trace[i].cons) && trace[i].cons.cycle == TickSteps(steps, i)
  {
    if i > 0 {
      RunRetires(cfg, trace, steps, i - 1);
      RunKeepsInv(cfg, trace, steps, i - 1);
      StepRetires(cfg, trace[i - 1], steps[i - 1]);
    }
  }

  /** The cycle counter counts the tick events, and a hart retires at most one instruction for each of them and one for
      its start. */
  lemma CyclesCountTicks(cfg: Config, trace: seq<State>, steps: seq<Step>, i: nat)
    requires Producer.SingleThread(cfg.script) && IsRun(cfg, trace, steps) && i < |trace|
    ensures trace[i].cons.cycle == TickSteps(steps, i)
    ensures |trace[i].cons.retired| <= TickSteps(steps, i) + 1
  {
    RunRetires(cfg, trace, steps, i);
  }
}
