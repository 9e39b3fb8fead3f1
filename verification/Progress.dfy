/** Liveness of the pipeline: under conditions on the guest script that can be read off before the run,
    every tick makes progress, no interleaving gets stuck, and none goes on without bound. */
module Progress {
  import opened Events
  import Producer
  import Consumer
  import opened Pipeline
  import opened Streams
  import FirstFetch

  /* Conditions on the guest script */

  // Every instruction fits into one fetch, and no fetch starting at one reaches the end of the address space.
  ghost predicate FetchesFit(cfg: Config) {
    var es := Executed(cfg);
    forall i :: 0 <= i < |es| ==> 0 < es[i].len < 256 && es[i].len <= cfg.hart.fetchWidth
                                  && es[i].pc + cfg.hart.fetchWidth < ADDR_SPACE
  }

  /** A whole run of a guest whose instructions fit their fetches, whose stream begins with an instruction, whose first
      transition sets the redirect flag, and which a hart started by its monitor does not read at once. */
  ghost predicate Runnable(cfg: Config) {
    && WholeRun(cfg) && FetchesFit(cfg) && Producer.SyscallsLate(cfg.script, cfg.maxHarts)
    && !BeginsWithStepBack(Executed(cfg))
    && (cfg.hart.isBoot || !FirstFetch.ReadAtOnce(cfg))
  }

  // A published instruction of such a run stands at its place in the script and leads to the next one.
  lemma LeadsOn(cfg: Config, s: State, k: nat)
    requires Runnable(cfg) && Inv(cfg, s) && k < |Insts(Producer.Published(s.prod))|
    ensures var inst, es := Insts(Producer.Published(s.prod))[k], Executed(cfg);
            && k < |es| && inst.pc == es[k].pc && inst.len == es[k].len
            && (k + 1 < |es| ==> SuccessorPc(inst) == es[k + 1].pc)
  {
    PublishedPlace(cfg, s, k);
    PublishedInstruction(cfg, s, k);
  }

  /* What a runnable script adds to the invariant */

  // The next pc is that of the first instruction that has not retired.
  ghost predicate NextPcRight(cfg: Config, c: Consumer.State) {
    |c.retired| < |Executed(cfg)| ==> c.nextPc == Executed(cfg)[|c.retired|].pc
  }

  predicate Started(c: Consumer.State) {
    c.pc.Fetching? || c.pc.Retiring? || (c.pc.Idle? && (c.status.Active? || c.status.BlockedSyscall?))
  }

  // Nothing fetched is waiting to retire.
  predicate Drained(c: Consumer.State) {
    c.instBuffer == [] && Consumer.Package(c.pc) == []
  }

  ghost predicate StreamReady(s: State) {
    Producer.Published(s.prod) != [] ==> Producer.Published(s.prod)[0].Insn?
  }

  ghost predicate HartReady(cfg: Config, c: Consumer.State) {
    && !c.pc.Aborted?
    && (c.pc.Initializing? ==> c.popped == [])
    && (c.status.Inactive? ==> c.popped == [] || LastPopped(c))
    && (c.status.Completed? ==> LastPopped(c))
    && (LastPopped(c) ==> c.status.Completed? || (c.status.Inactive? && !cfg.hart.isBoot))
    && (Started(c) ==> NextPcRight(cfg, c))
    && (c.pc.Fetching? && c.pc.package == [] ==>
          c.pc.cur == c.nextPc && c.pc.limit == AddAddr(c.nextPc, cfg.hart.fetchWidth))
    && (c.pc.Retiring? && Drained(c) ==> c.status.BlockedSyscall?)
    && (c.caller.MonitorHandler? && c.pc.Retiring? ==> !LastPopped(c))
  }

  ghost predicate Ready(cfg: Config, s: State) {
    FirstFetch.FirstInv(cfg, s) && StreamReady(s) && HartReady(cfg, s.cons)
  }

  lemma InitialReady(cfg: Config)
    ensures Ready(cfg, Initial(cfg))
  {
    InitialInv(cfg);
  }

  lemma GuestKeepsStream(cfg: Config, s: State)
    requires Producer.SyscallsLate(cfg.script, cfg.maxHarts)
    requires StreamReady(s) && Enabled(cfg, s, GuestStep) && Producer.Inv(s.prod, Done(cfg, s))
    ensures StreamReady(Apply(cfg, s, GuestStep))
  {
    var p := s.prod;
    match cfg.script[s.next] {
      case Exec(e) => Producer.PublishedAppend(p, false, Insn(p.eventCounter, Producer.Resolve(p.last, e), false));
      case Syscall =>
        assert cfg.maxHarts > 1 ==> |Producer.Execs(Done(cfg, s))| >= 2;
        InstsBound(Producer.Published(p));
        Producer.PublishedAppend(p, true, SyscallApi(p.eventCounter, false));
      case Exit => Producer.PublishedAppend(p, true, Insn(p.eventCounter, p.last, true));
    }
  }

  // With nothing else to retire, the fetch takes the next instruction.
  lemma NextInstructionFits(cfg: Config, s: State)
    requires Runnable(cfg) && Ready(cfg, s) && s.cons.pc.Fetching? && Drained(s.cons)
    requires !Consumer.AtEnd(s.cons) && s.cons.buffer[s.cons.header].Insn?
    ensures Consumer.Fits(s.cons.buffer[s.cons.header].inst, s.cons.pc.cur, s.cons.pc.limit)
  {
    NextEvent(cfg, s);
    assert Insts(s.cons.popped) == s.cons.retired;
    LeadsOn(cfg, s, |s.cons.retired|);
  }

  // A fetch that has not begun to fill its package is inside its window.
  lemma FetchBegins(cfg: Config, s: State)
    requires Runnable(cfg) && Ready(cfg, s) && s.cons.pc.Fetching? && s.cons.pc.package == []
    ensures s.cons.pc.cur < s.cons.pc.limit
  {
    InstructionsRemain(cfg, s);
  }

  // What the fetch loop meets next, as far as the rest of the system decides it.
  ghost predicate NextFits(c: Consumer.State)
    requires c.pc.Fetching? && !Consumer.AtEnd(c)
  {
    var ev := c.buffer[c.header];
    && !ev.ThreadApi? && (ev.isLast ==> ev.Insn?)
    && (ev.isLast && Consumer.Fits(ev.inst, c.pc.cur, c.pc.limit) ==> !c.caller.MonitorHandler?)
    && (ev.Insn? && Drained(c) ==> Consumer.Fits(ev.inst, c.pc.cur, c.pc.limit))
  }

  lemma FetchMeets(cfg: Config, s: State)
    requires Runnable(cfg) && Ready(cfg, s) && Enabled(cfg, s, ProceedStep)
    requires s.cons.pc.Fetching? && s.cons.pc.cur < s.cons.pc.limit
    ensures NextFits(s.cons)
  {
    var ev := s.cons.buffer[s.cons.header];
    UnreadPublished(cfg, s);
    if ev.Insn? && Drained(s.cons) {
      NextInstructionFits(cfg, s);
    }
    if ev.Insn? && Consumer.Fits(ev.inst, s.cons.pc.cur, s.cons.pc.limit) && s.cons.caller.MonitorHandler? {
      FirstFetch.WalkFits(cfg, s);
    }
  }

  lemma InsnKeepsReady(cfg: Config, c: Consumer.State)
    requires HartReady(cfg, c) && Consumer.HandlerAgrees(cfg.hart, c)
    requires c.pc.Fetching? && c.pc.cur < c.pc.limit && !Consumer.AtEnd(c) && NextFits(c)
    requires c.buffer[c.header].Insn? && Consumer.Fits(c.buffer[c.header].inst, c.pc.cur, c.pc.limit)
    ensures HartReady(cfg, Consumer.FetchStep(cfg.hart, c))
  {
    var ev := c.buffer[c.header];
    assert Consumer.PopEvent(cfg.hart, c, ev).popped == c.popped + [ev];
  }

  // A system call, or an instruction that does not fit behind others.
  lemma EndOfFetchKeepsReady(cfg: Config, c: Consumer.State)
    requires HartReady(cfg, c) && Consumer.HandlerAgrees(cfg.hart, c)
    requires c.pc.Fetching? && c.pc.cur < c.pc.limit && !Consumer.AtEnd(c) && NextFits(c)
    requires c.buffer[c.header].Insn? ==> !Consumer.Fits(c.buffer[c.header].inst, c.pc.cur, c.pc.limit)
    ensures HartReady(cfg, Consumer.FetchStep(cfg.hart, c))
  {
    var ev := c.buffer[c.header];
    assert ev.SyscallApi? ==> Consumer.FetchStep(cfg.hart, c).popped == c.popped + [ev];
  }

  lemma FetchKeepsReady(cfg: Config, c: Consumer.State)
    requires HartReady(cfg, c) && Consumer.HandlerAgrees(cfg.hart, c)
    requires c.pc.Fetching? && c.pc.cur < c.pc.limit && !Consumer.AtEnd(c) && NextFits(c)
    ensures HartReady(cfg, Consumer.FetchStep(cfg.hart, c))
  {
    var ev := c.buffer[c.header];
    if ev.Insn? && Consumer.Fits(ev.inst, c.pc.cur, c.pc.limit) {
      InsnKeepsReady(cfg, c);
    } else {
      EndOfFetchKeepsReady(cfg, c);
    }
  }

  lemma RetireKeepsNextPc(cfg: Config, s: State)
    requires Runnable(cfg) && Ready(cfg, s) && s.cons.pc.Retiring?
    ensures NextPcRight(cfg, Consumer.Retire(s.cons, s.cons.pc.package))
  {
    var c := s.cons;
    var b := c.instBuffer + c.pc.package;
    if b != [] {
      PoppedIsPrefix(s);
      assert Insts(c.popped) == c.retired + b;
      assert Insts(c.popped)[|c.retired|] == b[0];
      LeadsOn(cfg, s, |c.retired|);
    }
  }

  lemma EndKeepsReady(cfg: Config, c: Consumer.State)
    requires HartReady(cfg, c) && Consumer.HandlerAgrees(cfg.hart, c) && c.pc.Retiring?
    requires NextPcRight(cfg, Consumer.Retire(c, c.pc.package))
    ensures HartReady(cfg, Consumer.EndHandler(Consumer.Retire(c, c.pc.package)))
  {
    var r := Consumer.Retire(c, c.pc.package);
    assert r.(retired := c.retired, instBuffer := c.instBuffer, nextPc := c.nextPc) == c;
  }

  lemma InitializeKeepsReady(cfg: Config, s: State)
    requires Runnable(cfg) && Ready(cfg, s) && s.cons.pc.Initializing? && !Consumer.AtEnd(s.cons)
    ensures HartReady(cfg, Consumer.Initialize(cfg.hart, s.cons))
  {
    NextEvent(cfg, s);
    assert s.cons.retired == [];
    LeadsOn(cfg, s, 0);
  }

  // The end of the fetch window.
  lemma WindowKeepsReady(cfg: Config, c: Consumer.State)
    requires HartReady(cfg, c) && c.pc.Fetching? && c.pc.package != [] && c.status.Active?
    requires c.caller.MonitorHandler? ==> !LastPopped(c)
    ensures HartReady(cfg, c.(pc := Consumer.Retiring(c.pc.package)))
  {
  }

  lemma ProceedKeepsReady(cfg: Config, s: State)
    requires Runnable(cfg) && Ready(cfg, s) && Enabled(cfg, s, ProceedStep)
    ensures HartReady(cfg, Consumer.Proceed(cfg.hart, s.cons))
  {
    match s.cons.pc {
      case Initializing => InitializeKeepsReady(cfg, s);
      case Fetching(cur, limit, package) =>
        if cur < limit {
          FetchMeets(cfg, s);
          FetchKeepsReady(cfg, s.cons);
        } else {
          if package == [] {
            FetchBegins(cfg, s);
          }
          WindowKeepsReady(cfg, s.cons);
        }
      case Retiring(package) =>
        RetireKeepsNextPc(cfg, s);
        EndKeepsReady(cfg, s.cons);
    }
  }

  /** The one step that takes a hart out of the run before its end: its monitor finds no batch, so far the hart has
      received nothing, and the boot hart of its process has reached its end. */
  predicate SleepsEarly(s: State, step: Step) {
    && step.MonitorStep? && s.cons.status.Inactive? && s.queue == []
    && s.cons.processCompleted && s.cons.popped == []
  }

  lemma MonitorKeepsReady(cfg: Config, s: State)
    requires StreamReady(s) && HartReady(cfg, s.cons) && Enabled(cfg, s, MonitorStep) && !SleepsEarly(s, MonitorStep)
    requires LastPopped(s.cons) ==> s.queue == []
    requires Consumer.StatusAgrees(cfg.hart, s.cons)
    ensures HartReady(cfg, Apply(cfg, s, MonitorStep).cons)
  {
  }

  // Events of the hart itself, and what only touches its batch.
  lemma FireKeepsReady(cfg: Config, c: Consumer.State)
    requires HartReady(cfg, c)
    ensures HartReady(cfg, c.(processCompleted := true))
    ensures forall b :: HartReady(cfg, Consumer.LoadBatch(c, b))
    ensures c.pc.Idle? && c.startupEvent && Consumer.StatusAgrees(cfg.hart, c) && FirstFetch.StartRight(cfg, c)
            ==> HartReady(cfg, Consumer.FireStartup(c))
    ensures c.pc.Idle? && c.tickEvent && Consumer.StatusAgrees(cfg.hart, c)
            ==> HartReady(cfg, Consumer.FireTick(cfg.hart, c))
  {
  }

  lemma StepKeepsReady(cfg: Config, s: State, step: Step)
    requires Runnable(cfg) && Ready(cfg, s) && Enabled(cfg, s, step) && !SleepsEarly(s, step)
    ensures Ready(cfg, Apply(cfg, s, step))
  {
    FirstFetch.StepKeepsFirst(cfg, s, step);
    StepKeepsStream(cfg, s, step);
    match step {
      case MonitorStep =>
        FirstFetch.LastEnds(cfg, s);
        MonitorKeepsReady(cfg, s);
      case ProceedStep => ProceedKeepsReady(cfg, s);
      case _ => FireKeepsReady(cfg, s.cons);
    }
  }

  lemma StepKeepsStream(cfg: Config, s: State, step: Step)
    requires Producer.SyscallsLate(cfg.script, cfg.maxHarts)
    requires StreamReady(s) && Enabled(cfg, s, step) && s.next <= |cfg.script| && Producer.Inv(s.prod, Done(cfg, s))
    ensures StreamReady(Apply(cfg, s, step))
  {
    match step {
      case GuestStep => GuestKeepsStream(cfg, s);
      case SendStep => Producer.SettledPublishesTheSame(s.prod);
      case _ => assert Apply(cfg, s, step).prod == s.prod;
    }
  }

  // A hart that has slept early: it is completed and reads nothing more.
  ghost predicate Gone(cfg: Config, s: State) {
    Inv(cfg, s) && s.cons.pc.Idle? && s.cons.status.Completed? && s.cons.popped == []
  }

  lemma EarlySleeperGoes(cfg: Config, s: State, step: Step)
    requires Runnable(cfg) && Inv(cfg, s) && Enabled(cfg, s, step) && SleepsEarly(s, step)
    ensures Gone(cfg, Apply(cfg, s, step))
  {
    StepKeepsInv(cfg, s, step);
  }

  lemma StepKeepsGone(cfg: Config, s: State, step: Step)
    requires Runnable(cfg) && Gone(cfg, s) && Enabled(cfg, s, step)
    ensures Gone(cfg, Apply(cfg, s, step))
    ensures step.GuestStep? || step.SendStep? || step.ProcessCompletes?
  {
    StepKeepsInv(cfg, s, step);
  }

  ghost predicate SleptEarly(trace: seq<State>, steps: seq<Step>, i: nat)
    requires i <= |steps| < |trace|
  {
    exists j :: 0 <= j < i && SleepsEarly(trace[j], steps[j])
  }

  /** In every interleaving a runnable script keeps the hart ready, up to an early sleep. */
  lemma {:induction false} RunKeepsReady(cfg: Config, trace: seq<State>, steps: seq<Step>, i: nat)
    requires Runnable(cfg) && IsRun(cfg, trace, steps) && i < |trace|
    ensures if SleptEarly(trace, steps, i) then Gone(cfg, trace[i]) else Ready(cfg, trace[i])
  {
    if i == 0 {
      InitialReady(cfg);
    } else {
      var s, step := trace[i - 1], steps[i - 1];
      RunKeepsReady(cfg, trace, steps, i - 1);
      if SleptEarly(trace, steps, i - 1) {
        StepKeepsGone(cfg, s, step);
      } else if SleepsEarly(s, step) {
        EarlySleeperGoes(cfg, s, step);
      } else {
        StepKeepsReady(cfg, s, step);
      }
    }
  }

  /** A hart completes with its stream unread exactly when it has slept early, and it reads nothing more then. */
  lemma UnreadExactlyThen(cfg: Config, trace: seq<State>, steps: seq<Step>, i: nat)
    requires Runnable(cfg) && IsRun(cfg, trace, steps) && i < |trace|
    ensures trace[i].cons.status.Completed? && !LastPopped(trace[i].cons) <==> SleptEarly(trace, steps, i)
    ensures SleptEarly(trace, steps, i) ==> trace[i].cons.popped == []
  {
    RunKeepsReady(cfg, trace, steps, i);
  }
}
