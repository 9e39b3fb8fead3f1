/** What goes wrong where a condition of progress fails, with an input for each: a stream that begins with a system call
    aborts the hart, an early end of the process puts a hart to sleep for good, a start from the monitor that reads the
    whole stream forgets its end, a step back at the start stops the hart at its first instruction, and an instruction
    that no fetch takes stops it where it stands. */
module Conditions {
  import opened Events
  import Producer
  import Consumer
  import opened Pipeline
  import opened Streams
  import FirstFetch
  import Progress

  /* Streams that begin with a system call */

  // In every interleaving the producer is where its script alone would have put it, but for a batch being sent.
  lemma {:induction false} ProducerFollowsScript(cfg: Config, trace: seq<State>, steps: seq<Step>, i: nat)
    requires Producer.SingleThread(cfg.script) && IsRun(cfg, trace, steps) && i < |trace|
    ensures trace[i].next <= |cfg.script|
    ensures Producer.Settle(trace[i].prod) == Producer.Run(Done(cfg, trace[i]), cfg.maxHarts)
  {
    if i == 0 {
      assert Done(cfg, trace[0]) == [];
    } else {
      ProducerFollowsScript(cfg, trace, steps, i - 1);
      var s := trace[i - 1];
      assert Enabled(cfg, s, steps[i - 1]) && trace[i] == Apply(cfg, s, steps[i - 1]);
      if steps[i - 1].GuestStep? {
        assert Done(cfg, trace[i]) == Done(cfg, s) + [cfg.script[s.next]];
        assert (Done(cfg, s) + [cfg.script[s.next]])[..s.next] == Done(cfg, s);
      }
    }
  }

  lemma SyscallsLateSnoc(ops: seq<Producer.GuestOp>, op: Producer.GuestOp, maxHarts: nat)
    ensures Producer.SyscallsLate(ops + [op], maxHarts)
            <==> Producer.SyscallsLate(ops, maxHarts) && (maxHarts > 1 && op.Syscall? ==> |Producer.Execs(ops)| >= 2)
  {
    var all := ops + [op];
    assert all[..|ops|] == ops && all[|ops|] == op;
    assert forall i :: 0 <= i < |ops| ==> all[i] == ops[i] && all[..i] == ops[..i];
  }

  // What the kinds say of the first event, given the number of instructions executed.
  predicate First(kinds: seq<bool>, late: bool, executed: nat, exited: bool) {
    if kinds == [] then late && executed <= 1
    else (kinds[0] <==> late) && (kinds[0] ==> executed >= 2 || exited)
  }

  lemma FirstStep(kinds: seq<bool>, late: bool, executed: nat, maxHarts: nat, op: Producer.GuestOp)
    requires First(kinds, late, executed, false)
    ensures First(kinds + Producer.DueKind(executed == 0, maxHarts, op),
                  late && (maxHarts > 1 && op.Syscall? ==> executed >= 2),
                  if op.Exec? then executed + 1 else executed, op.Exit?)
  {
    var due := Producer.DueKind(executed == 0, maxHarts, op);
    assert kinds == [] ==> kinds + due == due;
  }

  lemma {:induction false} FirstKind(ops: seq<Producer.GuestOp>, maxHarts: nat)
    requires Producer.SingleThread(ops)
    ensures First(Producer.DueKinds(ops, maxHarts), Producer.SyscallsLate(ops, maxHarts),
                  |Producer.Execs(ops)|, Producer.Exited(ops))
  {
    if ops != [] {
      var front, op := ops[..|ops| - 1], ops[|ops| - 1];
      assert ops == front + [op];
      Producer.SingleThreadPrefix(ops, |front|);
      NothingAfterExit(front, op);
      FirstKind(front, maxHarts);
      Producer.ExecsSnoc(front, op);
      SyscallsLateSnoc(front, op, maxHarts);
      FirstStep(Producer.DueKinds(front, maxHarts), Producer.SyscallsLate(front, maxHarts),
                |Producer.Execs(front)|, maxHarts, op);
    }
  }

  lemma NothingAfterExit(ops: seq<Producer.GuestOp>, op: Producer.GuestOp)
    requires Producer.SingleThread(ops + [op])
    ensures !Producer.Exited(ops)
  {
    if ops != [] {
      assert (ops + [op])[|ops| - 1] == ops[|ops| - 1];
    }
  }

  /** The first event of a stream is an instruction exactly when two instructions run before the first system call. */
  lemma FirstEvent(ops: seq<Producer.GuestOp>, maxHarts: nat)
    requires Producer.SingleThread(ops) && Producer.Published(Producer.Run(ops, maxHarts)) != []
    ensures Producer.Published(Producer.Run(ops, maxHarts))[0].Insn? <==> Producer.SyscallsLate(ops, maxHarts)
  {
    var stream := Producer.Published(Producer.Run(ops, maxHarts));
    Producer.StreamOrder(ops, maxHarts);
    FirstKind(ops, maxHarts);
    KindAt(stream, 0);
  }

  lemma {:induction false} KindAt(es: seq<Event>, i: nat)
    requires i < |es|
    ensures |Producer.Kinds(es)| == |es| && Producer.Kinds(es)[i] == es[i].Insn?
  {
    var n := |es| - 1;
    if n > 0 {
      KindAt(es[..n], if i < n then i else 0);
    }
  }

  /** initCPUState aborts a hart that starts up exactly when a published system call came too early in the script. */
  lemma AbortsExactlyThen(cfg: Config, trace: seq<State>, steps: seq<Step>, i: nat)
    requires Producer.SingleThread(cfg.script) && IsRun(cfg, trace, steps) && i < |steps|
    requires steps[i].ProceedStep? && trace[i].cons.pc.Initializing? && trace[i].cons.popped == []
    ensures trace[i].next <= |cfg.script|
    ensures trace[i + 1].cons.pc.Aborted? <==> !Producer.SyscallsLate(Done(cfg, trace[i]), cfg.maxHarts)
  {
    RunKeepsInv(cfg, trace, steps, i);
    var s := trace[i];
    assert Enabled(cfg, s, steps[i]) && trace[i + 1] == Apply(cfg, s, steps[i]);
    UnreadPublished(cfg, s);
    ProducerFollowsScript(cfg, trace, steps, i);
    Producer.SettledPublishesTheSame(s.prod);
    Producer.SingleThreadPrefix(cfg.script, s.next);
    FirstEvent(Done(cfg, s), cfg.maxHarts);
  }

  /* Processes that end early */

  /** A completed hart reads nothing more. */
  lemma {:induction false} CompletedIsFinal(cfg: Config, trace: seq<State>, steps: seq<Step>, i: nat, j: nat)
    requires Producer.SingleThread(cfg.script) && IsRun(cfg, trace, steps) && i <= j < |trace|
    requires trace[i].cons.pc.Idle? && trace[i].cons.status.Completed?
    ensures trace[j].cons.pc.Idle? && trace[j].cons.status.Completed? && trace[j].cons.popped == trace[i].cons.popped
  {
    if i < j {
      CompletedIsFinal(cfg, trace, steps, i, j - 1);
      StatusAgreesAfterHandlers(cfg, trace, steps, j - 1);
      assert Enabled(cfg, trace[j - 1], steps[j - 1]) && trace[j] == Apply(cfg, trace[j - 1], steps[j - 1]);
    }
  }

  /** The input for Progress.UnreadExactlyThen: whatever the script, if the boot hart of the process ends first, the
      next poll of the monitor is an early sleep. */
  lemma EarlySleepExample(cfg: Config)
    requires !cfg.hart.isBoot
    ensures var done := Apply(cfg, Initial(cfg), ProcessCompletes);
            && Enabled(cfg, Initial(cfg), ProcessCompletes) && Enabled(cfg, done, MonitorStep)
            && Progress.SleepsEarly(done, MonitorStep)
            && Apply(cfg, done, MonitorStep).cons.status.Completed?
  {
  }

  /* Streams that the start from the monitor reads at once */

  // One instruction and the exit, on a hart that its monitor starts.
  const SHORT: Config :=
    Config([Producer.Exec(CacheEntry(0x1000, 0, 4)), Producer.Exit], 1, Consumer.Config(false, 8))

  const ONLY: StaticInst := StaticInst(0, 0x1000, 0, 4, false, 0)

  lemma ShortIsReadAtOnce()
    ensures WholeRun(SHORT) && FirstFetch.ReadAtOnce(SHORT)
  {
    var first := SHORT.script[..1];
    assert first == [Producer.Exec(CacheEntry(0x1000, 0, 4))] && first[..0] == [];
    assert Producer.Execs(first) == [CacheEntry(0x1000, 0, 4)];
    assert Executed(SHORT) == [CacheEntry(0x1000, 0, 4)];
  }

  // The producer sends one batch with the one instruction.
  lemma ShortIsSent() returns (s1: State, s2: State, s3: State)
    ensures Enabled(SHORT, Initial(SHORT), GuestStep) && s1 == Apply(SHORT, Initial(SHORT), GuestStep)
    ensures Enabled(SHORT, s1, GuestStep) && s2 == Apply(SHORT, s1, GuestStep)
    ensures Enabled(SHORT, s2, SendStep) && s3 == Apply(SHORT, s2, SendStep)
    ensures s3.queue == [[Insn(0, ONLY, true)]] && s3.cons == Consumer.Assigned(SHORT.hart)
  {
    s1 := Apply(SHORT, Initial(SHORT), GuestStep);
    assert SHORT.script[0] == Producer.Exec(CacheEntry(0x1000, 0, 4)) && s1.prod.last == ONLY;
    s2 := Apply(SHORT, s1, GuestStep);
    assert SHORT.script[1] == Producer.Exit && s2.prod.buffer == [Insn(0, ONLY, true)];
    s3 := Apply(SHORT, s2, SendStep);
  }

  // The monitor takes the batch, and the start it calls reads it.
  lemma ShortIsRead(s3: State) returns (s4: State, s5: State, s6: State, s7: State)
    requires s3.queue == [[Insn(0, ONLY, true)]] && s3.cons == Consumer.Assigned(SHORT.hart)
    ensures Enabled(SHORT, s3, MonitorStep) && s4 == Apply(SHORT, s3, MonitorStep)
    ensures Enabled(SHORT, s4, ProceedStep) && s5 == Apply(SHORT, s4, ProceedStep)
    ensures Enabled(SHORT, s5, ProceedStep) && s6 == Apply(SHORT, s5, ProceedStep)
    ensures Enabled(SHORT, s6, ProceedStep) && s7 == Apply(SHORT, s6, ProceedStep)
    ensures s7.cons.pc.Idle? && LastPopped(s7.cons) && s7.cons.status.Active?
  {
    s4 := Apply(SHORT, s3, MonitorStep);
    s5 := Apply(SHORT, s4, ProceedStep);
    assert s5.cons.pc == Consumer.Fetching(0x1000, 0x1008, []);
    s6 := Apply(SHORT, s5, ProceedStep);
    assert s6.cons.pc == Consumer.Retiring([ONLY]) && s6.cons.popped == [Insn(0, ONLY, true)];
    s7 := Apply(SHORT, s6, ProceedStep);
  }

  /** The input for FirstFetch.SleepsExactlyUnless: its hart has read the last event, and is active. */
  lemma ReadAtOnceExample()
    ensures WholeRun(SHORT) && !SHORT.hart.isBoot && FirstFetch.ReadAtOnce(SHORT)
    ensures exists trace: seq<State>, steps: seq<Step> :: IsRun(SHORT, trace, steps) &&
              var c := trace[|steps|].cons; c.pc.Idle? && LastPopped(c) && c.status.Active?
  {
    ShortIsReadAtOnce();
    var s1, s2, s3 := ShortIsSent();
    var s4, s5, s6, s7 := ShortIsRead(s3);
    var trace, steps := [Initial(SHORT)], [];
    trace, steps := OneStepOn(SHORT, trace, steps, GuestStep);
    trace, steps := OneStepOn(SHORT, trace, steps, GuestStep);
    trace, steps := OneStepOn(SHORT, trace, steps, SendStep);
    trace, steps := OneStepOn(SHORT, trace, steps, MonitorStep);
    trace, steps := OneStepOn(SHORT, trace, steps, ProceedStep);
    trace, steps := OneStepOn(SHORT, trace, steps, ProceedStep);
    trace, steps := OneStepOn(SHORT, trace, steps, ProceedStep);
  }

  lemma OneStepOn(cfg: Config, trace: seq<State>, steps: seq<Step>, step: Step)
    returns (longer: seq<State>, more: seq<Step>)
    requires IsRun(cfg, trace, steps) && Enabled(cfg, trace[|steps|], step)
    ensures IsRun(cfg, longer, more) && longer[|more|] == Apply(cfg, trace[|steps|], step)
  {
    longer, more := trace + [Apply(cfg, trace[|steps|], step)], steps + [step];
  }

  /* Runs that begin with a step back */

  // Where the second instruction ends where the first one starts, the consumer expects another one after the first.
  ghost predicate StepsBack(cfg: Config) {
    Producer.LengthsOk(Executed(cfg)) && BeginsWithStepBack(Executed(cfg))
  }

  function ExpectedSecond(es: seq<CacheEntry>): Addr
    requires es != []
  {
    AddAddr(es[0].pc, es[0].len)
  }

  lemma SecondIsElsewhere(cfg: Config)
    requires StepsBack(cfg)
    ensures ExpectedSecond(Executed(cfg)) != Executed(cfg)[1].pc
  {
    var es := Executed(cfg);
    Producer.TwoStepsDoNotReturn(es[1].pc, es[1].len, es[0].len);
  }

  // At most the first instruction has been read, and the next pc is not that of the second.
  ghost predicate AtFirst(cfg: Config, c: Consumer.State) {
    |Insts(c.popped)| <= 1 &&
    (|Insts(c.popped)| == 1 && Executed(cfg) != [] ==>
       var second := ExpectedSecond(Executed(cfg));
       && (c.pc.Idle? ==> |c.retired| == 1)
       && (|c.retired| == 1 ==> c.nextPc == second)
       && (c.pc.Fetching? ==> c.pc.cur == second)
       && SuccessorPc(Insts(c.popped)[0]) == second)
  }

  lemma FirstSuccessor(cfg: Config, s: State)
    requires WholeRun(cfg) && StepsBack(cfg) && Inv(cfg, s) && Insts(Producer.Published(s.prod)) != []
    ensures SuccessorPc(Insts(Producer.Published(s.prod))[0]) == ExpectedSecond(Executed(cfg))
  {
    var es, done := Executed(cfg), Producer.Execs(Done(cfg, s));
    ExecsPrefix(cfg.script, s.next);
    if |done| <= 1 {
      FirstFetch.WholeScriptDone(cfg, s);
    }
    assert Insts(Producer.Published(s.prod))[0] == Producer.Stamped(done, 0);
    assert !Producer.EverRedirected(done, -1) && done[0] == es[0] && done[1] == es[1];
  }

  // What the fetch meets: the first instruction, and after it none at the expected pc.
  ghost predicate MeetsFirst(cfg: Config, c: Consumer.State)
    requires !Consumer.AtEnd(c)
  {
    var ev, es := c.buffer[c.header], Executed(cfg);
    ev.Insn? && es != [] && |Insts(c.popped)| <= 1 ==>
      if |Insts(c.popped)| == 1 then ev.inst.pc != ExpectedSecond(es)
      else ev.inst.pc == es[0].pc && ev.inst.len == es[0].len && SuccessorPc(ev.inst) == ExpectedSecond(es)
  }

  lemma FetchMeetsFirst(cfg: Config, s: State)
    requires WholeRun(cfg) && StepsBack(cfg) && Inv(cfg, s) && !Consumer.AtEnd(s.cons)
    ensures MeetsFirst(cfg, s.cons)
  {
    var c := s.cons;
    NextEvent(cfg, s);
    if c.buffer[c.header].Insn? {
      PublishedPlace(cfg, s, |Insts(c.popped)|);
      SecondIsElsewhere(cfg);
      FirstSuccessor(cfg, s);
    }
  }

  lemma PopReadsOne(cfg: Config, c: Consumer.State, ev: Event)
    ensures var d := Consumer.PopEvent(cfg.hart, c, ev);
            d.popped == c.popped + [ev] && d.retired == c.retired && d.nextPc == c.nextPc
  {
  }

  // One turn of the fetch loop: the first instruction, an event that is none, or nothing is popped.
  lemma FetchReadsOne(cfg: Config, c: Consumer.State)
    requires c.pc.Fetching? && c.pc.cur < c.pc.limit && !Consumer.AtEnd(c)
    ensures var ev, d := c.buffer[c.header], Consumer.FetchStep(cfg.hart, c);
            && d.retired == c.retired && d.nextPc == c.nextPc
            && if ev.Insn? && !Consumer.Fits(ev.inst, c.pc.cur, c.pc.limit) then d.popped == c.popped && d.pc.Retiring?
               else
                 && d.popped == c.popped + [ev]
                 && (d.pc.Fetching? ==> ev.Insn? && d.pc.cur == AddAddr(c.pc.cur, ev.inst.len))
  {
    var ev := c.buffer[c.header];
    PopReadsOne(cfg, c, ev);
    PopReadsOne(cfg, Consumer.OnSyscall(c), ev);
    match ev {
      case ThreadApi(_, _) =>
      case SyscallApi(_, _) => assert Consumer.OnSyscall(c).popped == c.popped;
      case Insn(_, inst, isLast) =>
    }
  }

  lemma FetchKeepsFirst(cfg: Config, c: Consumer.State)
    requires AtFirst(cfg, c) && Executed(cfg) != [] && c.pc.Fetching? && c.pc.cur < c.pc.limit
    requires !Consumer.AtEnd(c) && MeetsFirst(cfg, c) && (Insts(c.popped) == [] ==> c.retired == [])
    ensures AtFirst(cfg, Consumer.FetchStep(cfg.hart, c))
  {
    var ev, d := c.buffer[c.header], Consumer.FetchStep(cfg.hart, c);
    FetchReadsOne(cfg, c);
    FirstPopped(cfg, c, d, ev);
  }

  lemma FirstPopped(cfg: Config, c: Consumer.State, d: Consumer.State, ev: Event)
    requires AtFirst(cfg, c) && Executed(cfg) != [] && c.pc.Fetching?
    requires !Consumer.AtEnd(c) && c.buffer[c.header] == ev && MeetsFirst(cfg, c)
    requires Insts(c.popped) == [] ==> c.retired == []
    requires d.retired == c.retired && d.nextPc == c.nextPc && (d.pc.Fetching? || d.pc.Retiring?)
    requires || (d.popped == c.popped && d.pc.Retiring?)
             || (d.popped == c.popped + [ev] && (ev.Insn? ==> ev.inst.pc == c.pc.cur)
                 && (d.pc.Fetching? ==> ev.Insn? && d.pc.cur == AddAddr(c.pc.cur, ev.inst.len)))
    ensures AtFirst(cfg, d)
  {
    if d.popped != c.popped {
      InstsSnoc(c.popped, ev);
      if ev.Insn? {
        assert Insts(c.popped) == [] && Insts(d.popped) == [ev.inst];
      } else {
        assert Insts(d.popped) == Insts(c.popped);
      }
    }
  }

  lemma RetireKeepsFirst(cfg: Config, c: Consumer.State)
    requires AtFirst(cfg, c) && Consumer.Inv(cfg.hart, c) && c.pc.Retiring?
    ensures AtFirst(cfg, Consumer.EndHandler(Consumer.Retire(c, c.pc.package)))
  {
    var b := c.instBuffer + c.pc.package;
    assert Insts(c.popped) == c.retired + b;
    FirstFetch.RetireReadsNothing(c);
  }

  // A hart's own events and batches do not touch what it has read and retired.
  lemma FireKeepsFirst(cfg: Config, c: Consumer.State, d: Consumer.State)
    requires AtFirst(cfg, c) && d.popped == c.popped && d.retired == c.retired && d.nextPc == c.nextPc
    requires d.pc.Idle? ==> c.pc.Idle?
    requires d.pc.Fetching? ==> d.pc == c.pc || (c.pc.Idle? && d.pc.cur == d.nextPc)
    ensures AtFirst(cfg, d)
  {
  }

  lemma ProceedKeepsAtFirst(cfg: Config, s: State)
    requires WholeRun(cfg) && StepsBack(cfg) && FirstFetch.FirstInv(cfg, s) && AtFirst(cfg, s.cons)
    requires Enabled(cfg, s, ProceedStep)
    ensures AtFirst(cfg, Consumer.Proceed(cfg.hart, s.cons))
  {
    match s.cons.pc {
      case Initializing => assert Insts(s.cons.popped) == [];
      case Fetching(cur, limit, _) =>
        if cur < limit {
          FetchMeetsFirst(cfg, s);
          FetchKeepsFirst(cfg, s.cons);
        }
      case Retiring(_) => RetireKeepsFirst(cfg, s.cons);
    }
  }

  lemma StepKeepsAtFirst(cfg: Config, s: State, step: Step)
    requires WholeRun(cfg) && StepsBack(cfg) && FirstFetch.FirstInv(cfg, s) && AtFirst(cfg, s.cons)
    requires Enabled(cfg, s, step)
    ensures AtFirst(cfg, Apply(cfg, s, step).cons)
  {
    if step.ProceedStep? {
      ProceedKeepsAtFirst(cfg, s);
    } else {
      FireKeepsFirst(cfg, s.cons, Apply(cfg, s, step).cons);
    }
  }

  lemma {:induction false} RunStaysAtFirst(cfg: Config, trace: seq<State>, steps: seq<Step>, i: nat)
    requires WholeRun(cfg) && StepsBack(cfg) && IsRun(cfg, trace, steps) && i < |trace|
    ensures AtFirst(cfg, trace[i].cons)
  {
    if i > 0 {
      RunStaysAtFirst(cfg, trace, steps, i - 1);
      FirstFetch.RunKeepsFirst(cfg, trace, steps, i - 1);
      StepKeepsAtFirst(cfg, trace[i - 1], steps[i - 1]);
    }
  }

  /** After a step back at its start, no interleaving of the run reads more than its first instruction. */
  lemma NeverPastFirst(cfg: Config, trace: seq<State>, steps: seq<Step>, i: nat)
    requires WholeRun(cfg) && StepsBack(cfg) && IsRun(cfg, trace, steps) && i < |trace|
    ensures |Insts(trace[i].cons.popped)| <= 1 && !LastPopped(trace[i].cons)
  {
    RunStaysAtFirst(cfg, trace, steps, i);
    RunKeepsInv(cfg, trace, steps, i);
    FirstFetch.WalkingIsNotLast(cfg, trace[i]);
  }

  /* Instructions that no fetch takes */

  // The hart is active with nothing to retire, and its next fetch takes nothing: its window wraps around or is empty,
  // or the instruction at the cursor does not fit into it.
  ghost predicate Stalled(cfg: Config, c: Consumer.State) {
    var limit := AddAddr(c.nextPc, cfg.hart.fetchWidth);
    && c.status.Active? && c.tickEvent && !c.monitorEvent && !c.startupEvent && c.instBuffer == []
    && (c.nextPc >= limit
        || (!Consumer.AtEnd(c) && c.buffer[c.header].Insn? && !Consumer.Fits(c.buffer[c.header].inst, c.nextPc, limit)))
    && (c.pc.Idle? ||
        (c.caller.TickHandler? && (c.pc == Consumer.Fetching(c.nextPc, limit, []) || c.pc == Consumer.Retiring([]))))
  }

  lemma StepKeepsStalled(cfg: Config, s: State, step: Step)
    requires Stalled(cfg, s.cons) && Enabled(cfg, s, step)
    ensures Stalled(cfg, Apply(cfg, s, step).cons) && Apply(cfg, s, step).cons.popped == s.cons.popped
  {
  }

  lemma StillStalled(cfg: Config, trace: seq<State>, steps: seq<Step>, i: nat)
    requires IsRun(cfg, trace, steps) && i < |steps| && Stalled(cfg, trace[i].cons)
    ensures Stalled(cfg, trace[i + 1].cons) && trace[i + 1].cons.popped == trace[i].cons.popped
  {
    StepKeepsStalled(cfg, trace[i], steps[i]);
  }

  /** A hart that stands before an instruction its fetch does not take ticks for ever without reading another event. */
  lemma {:induction false} StalledForGood(cfg: Config, trace: seq<State>, steps: seq<Step>, i: nat, j: nat)
    requires IsRun(cfg, trace, steps) && i <= j < |trace| && Stalled(cfg, trace[i].cons)
    ensures Stalled(cfg, trace[j].cons) && trace[j].cons.popped == trace[i].cons.popped
    decreases j - i
  {
    if i < j {
      StalledForGood(cfg, trace, steps, i, j - 1);
      StillStalled(cfg, trace, steps, j - 1);
    }
  }

  /* A run that begins with a step back */

  // Two instructions, the second just before the first, and the exit, on a boot hart.
  const BACKWARD: Config :=
    Config([Producer.Exec(CacheEntry(0x1004, 0, 4)), Producer.Exec(CacheEntry(0x1000, 0, 4)), Producer.Exit],
           1, Consumer.Config(true, 8))

  // The first one carries no redirect, although the second is not at its end.
  const FROM: Event := Insn(0, StaticInst(0, 0x1004, 0, 4, false, 0x1000), false)
  const BACK: Event := Insn(1, StaticInst(1, 0x1000, 0, 4, false, 0x1000), true)

  lemma BackwardStepsBack()
    ensures WholeRun(BACKWARD) && StepsBack(BACKWARD)
  {
    var front := BACKWARD.script[..2];
    assert front == [Producer.Exec(CacheEntry(0x1004, 0, 4)), Producer.Exec(CacheEntry(0x1000, 0, 4))];
    assert front[..1] == [Producer.Exec(CacheEntry(0x1004, 0, 4))] && front[..1][..0] == [];
    assert Producer.Execs(front[..1]) == [CacheEntry(0x1004, 0, 4)];
    assert Executed(BACKWARD) == [CacheEntry(0x1004, 0, 4), CacheEntry(0x1000, 0, 4)];
  }

  lemma BackwardIsSent() returns (s1: State, s2: State, s3: State, s4: State)
    ensures Enabled(BACKWARD, Initial(BACKWARD), GuestStep) && s1 == Apply(BACKWARD, Initial(BACKWARD), GuestStep)
    ensures Enabled(BACKWARD, s1, GuestStep) && s2 == Apply(BACKWARD, s1, GuestStep)
    ensures Enabled(BACKWARD, s2, GuestStep) && s3 == Apply(BACKWARD, s2, GuestStep)
    ensures Enabled(BACKWARD, s3, SendStep) && s4 == Apply(BACKWARD, s3, SendStep)
    ensures s4.queue == [[FROM, BACK]] && s4.cons == Consumer.Assigned(BACKWARD.hart)
  {
    s1 := Apply(BACKWARD, Initial(BACKWARD), GuestStep);
    assert BACKWARD.script[0] == Producer.Exec(CacheEntry(0x1004, 0, 4));
    s2 := Apply(BACKWARD, s1, GuestStep);
    assert BACKWARD.script[1] == Producer.Exec(CacheEntry(0x1000, 0, 4)) && s2.prod.buffer == [FROM];
    s3 := Apply(BACKWARD, s2, GuestStep);
    assert BACKWARD.script[2] == Producer.Exit && s3.prod.buffer == [FROM, BACK];
    s4 := Apply(BACKWARD, s3, SendStep);
  }

  // The hart starts up and looks for the second instruction at the end of the first.
  lemma BackwardIsNotRead(s4: State) returns (s5: State, s6: State, s7: State, s8: State, s9: State, s10: State)
    requires s4.queue == [[FROM, BACK]] && s4.cons == Consumer.Assigned(BACKWARD.hart)
    ensures Enabled(BACKWARD, s4, StartupStep) && s5 == Apply(BACKWARD, s4, StartupStep)
    ensures Enabled(BACKWARD, s5, TakeStep) && s6 == Apply(BACKWARD, s5, TakeStep)
    ensures Enabled(BACKWARD, s6, ProceedStep) && s7 == Apply(BACKWARD, s6, ProceedStep)
    ensures Enabled(BACKWARD, s7, ProceedStep) && s8 == Apply(BACKWARD, s7, ProceedStep)
    ensures Enabled(BACKWARD, s8, ProceedStep) && s9 == Apply(BACKWARD, s8, ProceedStep)
    ensures Enabled(BACKWARD, s9, ProceedStep) && s10 == Apply(BACKWARD, s9, ProceedStep)
    ensures s10.cons.popped == [FROM] && Stalled(BACKWARD, s10.cons)
  {
    s5 := Apply(BACKWARD, s4, StartupStep);
    s6 := Apply(BACKWARD, s5, TakeStep);
    s7 := Apply(BACKWARD, s6, ProceedStep);
    assert s7.cons.pc == Consumer.Fetching(0x1004, 0x100c, []);
    s8 := Apply(BACKWARD, s7, ProceedStep);
    assert s8.cons.pc == Consumer.Fetching(0x1008, 0x100c, [FROM.inst]) && s8.cons.popped == [FROM];
    s9 := Apply(BACKWARD, s8, ProceedStep);
    assert s9.cons.pc == Consumer.Retiring([FROM.inst]);
    s10 := Apply(BACKWARD, s9, ProceedStep);
  }

  /** An input for NeverPastFirst, and a run that stops after the first instruction, by StalledForGood for good. */
  lemma StepBackExample()
    ensures WholeRun(BACKWARD) && StepsBack(BACKWARD)
    ensures exists trace: seq<State>, steps: seq<Step> :: IsRun(BACKWARD, trace, steps) &&
              var c := trace[|steps|].cons; c.popped == [FROM] && Stalled(BACKWARD, c)
  {
    BackwardStepsBack();
    var s1, s2, s3, s4 := BackwardIsSent();
    var s5, s6, s7, s8, s9, s10 := BackwardIsNotRead(s4);
    var trace, steps := [Initial(BACKWARD)], [];
    trace, steps := OneStepOn(BACKWARD, trace, steps, GuestStep);
    trace, steps := OneStepOn(BACKWARD, trace, steps, GuestStep);
    trace, steps := OneStepOn(BACKWARD, trace, steps, GuestStep);
    trace, steps := OneStepOn(BACKWARD, trace, steps, SendStep);
    trace, steps := OneStepOn(BACKWARD, trace, steps, StartupStep);
    trace, steps := OneStepOn(BACKWARD, trace, steps, TakeStep);
    trace, steps := OneStepOn(BACKWARD, trace, steps, ProceedStep);
    trace, steps := OneStepOn(BACKWARD, trace, steps, ProceedStep);
    trace, steps := OneStepOn(BACKWARD, trace, steps, ProceedStep);
    trace, steps := OneStepOn(BACKWARD, trace, steps, ProceedStep);
  }
}
