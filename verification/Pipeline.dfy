/** One hart's event pipeline as a protocol: atomic producer and consumer steps, interleaved in any order
    over a bounded FIFO of batches. */
module Pipeline {
  import opened Events
  import Producer
  import Consumer

  // `script` is what the guest thread does; `hart` is the consuming side.
  datatype Config = Config(script: seq<Producer.GuestOp>, maxHarts: nat, hart: Consumer.Config)

  datatype State = State(next: nat, prod: Producer.State, queue: seq<Batch>, cons: Consumer.State)

  datatype Step =
    | GuestStep          // the guest performs its next operation and the plugin reacts
    | SendStep           // the channel accepts the batch being published
    | ProcessCompletes   // the boot hart of the process reaches its end
    | StartupStep | TickStep | MonitorStep   // the simulator fires an event of the hart
    | TakeStep           // a waiting handler receives a batch
    | ProceedStep        // a handler goes on to its next step

  function Initial(cfg: Config): State {
    State(0, Producer.INITIAL, [], Consumer.Assigned(cfg.hart))
  }

  predicate Enabled(cfg: Config, s: State, step: Step) {
    match step
    case GuestStep => s.next < |cfg.script| && !s.prod.sending
    case SendStep => s.prod.sending && |s.queue| < MESSAGE_BUFFER_SIZE
    case ProcessCompletes => !cfg.hart.isBoot
    case StartupStep => s.cons.pc.Idle? && s.cons.startupEvent
    case TickStep => s.cons.pc.Idle? && s.cons.tickEvent
    case MonitorStep => s.cons.pc.Idle? && s.cons.monitorEvent
    case TakeStep => Consumer.NeedsEvent(s.cons) && Consumer.AtEnd(s.cons) && s.queue != []
    case ProceedStep => Consumer.CanProceed(s.cons)
  }

  // Does this poll of the monitor take a batch?
  predicate MonitorTakes(s: State) {
    s.queue != [] && (s.cons.status.Inactive? || s.cons.status.BlockedSyscall?)
  }

  function Apply(cfg: Config, s: State, step: Step): State
    requires Enabled(cfg, s, step)
  {
    match step
    case GuestStep => s.(next := s.next + 1, prod := Producer.Perform(s.prod, cfg.maxHarts, cfg.script[s.next]))
    case SendStep => s.(prod := Producer.Accept(s.prod), queue := s.queue + [s.prod.buffer])
    case ProcessCompletes => s.(cons := s.cons.(processCompleted := true))
    case StartupStep => s.(cons := Consumer.FireStartup(s.cons))
    case TickStep => s.(cons := Consumer.FireTick(cfg.hart, s.cons))
    case MonitorStep =>
      s.(cons := Consumer.FireMonitor(s.cons, s.queue), queue := if MonitorTakes(s) then s.queue[1..] else s.queue)
    case TakeStep => s.(cons := Consumer.LoadBatch(s.cons, s.queue[0]), queue := s.queue[1..])
    case ProceedStep => s.(cons := Consumer.Proceed(cfg.hart, s.cons))
  }

  // The states of a run, one more than its steps.
  ghost predicate IsRun(cfg: Config, trace: seq<State>, steps: seq<Step>) {
    && |trace| == |steps| + 1
    && trace[0] == Initial(cfg)
    && forall i :: 0 <= i < |steps| ==>
         Enabled(cfg, trace[i], steps[i]) && trace[i + 1] == Apply(cfg, trace[i], steps[i])
  }

  /* The invariant */

  function Done(cfg: Config, s: State): seq<Producer.GuestOp>
    requires s.next <= |cfg.script|
  {
    cfg.script[..s.next]
  }

  // The FIFO: every published event has been popped, is unread, is queued, or is in the publisher's buffer.
  ghost predicate Transported(s: State) {
    Flatten(s.prod.sent) == s.cons.popped + Consumer.Unread(s.cons) + Flatten(s.queue)
  }

  lemma StreamSplits(s: State)
    requires Transported(s)
    ensures Producer.Published(s.prod)
            == s.cons.popped + (Consumer.Unread(s.cons) + Flatten(s.queue) + s.prod.buffer)
  {
    Regroup(s.cons.popped, Consumer.Unread(s.cons), Flatten(s.queue), s.prod.buffer);
  }

  // A hart that waits for its monitor has read its whole batch.
  ghost predicate MonitoredAtEnd(c: Consumer.State) {
    (c.pc.Idle? || c.pc.Retiring?) && !c.status.Active? ==> Consumer.AtEnd(c)
  }

  // The part of the invariant that the hart's own steps are about.
  ghost predicate HartSide(cfg: Config, s: State) {
    && Consumer.Inv(cfg.hart, s.cons)
    && Transported(s)
    && |s.queue| <= MESSAGE_BUFFER_SIZE && Producer.BatchesOk(s.queue)
    && (s.cons.buffer == [] || Producer.BatchOk(s.cons.buffer))
    && MonitoredAtEnd(s.cons)
  }

  ghost predicate Inv(cfg: Config, s: State) {
    s.next <= |cfg.script| && Producer.Inv(s.prod, Done(cfg, s)) && HartSide(cfg, s)
  }

  lemma InitialInv(cfg: Config)
    ensures Inv(cfg, Initial(cfg))
  {
    assert Done(cfg, Initial(cfg)) == [];
  }

  lemma GuestKeepsInv(cfg: Config, s: State)
    requires Producer.SingleThread(cfg.script) && Inv(cfg, s) && Enabled(cfg, s, GuestStep)
    ensures Inv(cfg, Apply(cfg, s, GuestStep))
  {
    var op := cfg.script[s.next];
    assert cfg.script[..s.next + 1] == Done(cfg, s) + [op];
    Producer.SingleThreadPrefix(cfg.script, s.next + 1);
    Producer.PerformKeepsInv(s.prod, Done(cfg, s), cfg.maxHarts, op);
    PublishingKeepsSide(cfg, s, op);
  }

  lemma PublishingKeepsSide(cfg: Config, s: State, op: Producer.GuestOp)
    requires HartSide(cfg, s)
    ensures HartSide(cfg, s.(next := s.next + 1, prod := Producer.Perform(s.prod, cfg.maxHarts, op)))
  {
    assert Producer.Perform(s.prod, cfg.maxHarts, op).sent == s.prod.sent;
  }

  lemma SendKeepsTransport(s: State, b: Batch)
    requires Transported(s)
    ensures Flatten(s.prod.sent + [b]) == s.cons.popped + Consumer.Unread(s.cons) + Flatten(s.queue + [b])
  {
    FlattenSnoc(s.prod.sent, b);
    FlattenSnoc(s.queue, b);
    var read := s.cons.popped + Consumer.Unread(s.cons);
    assert read + (Flatten(s.queue) + b) == read + Flatten(s.queue) + b;
  }

  lemma SendKeepsInv(cfg: Config, s: State)
    requires Inv(cfg, s) && Enabled(cfg, s, SendStep)
    ensures Inv(cfg, Apply(cfg, s, SendStep))
  {
    Producer.AcceptKeepsInv(s.prod, Done(cfg, s));
    SendKeepsTransport(s, s.prod.buffer);
  }

  // Receiving the next batch when the current one has been read loses nothing.
  lemma LoadKeepsTransport(s: State, c: Consumer.State)
    requires Transported(s) && Consumer.AtEnd(s.cons) && s.queue != []
    requires c.buffer == s.queue[0] && c.header == 0 && c.popped == s.cons.popped
    ensures Transported(s.(cons := c, queue := s.queue[1..]))
  {
    var b, later := s.queue[0], Flatten(s.queue[1..]);
    assert Consumer.Unread(s.cons) == [] && Consumer.Unread(c) == b;
    assert c.popped + [] + (b + later) == c.popped + b + later;
  }

  lemma PollKeepsHart(cfg: Config, s: State)
    requires Consumer.Inv(cfg.hart, s.cons) && Enabled(cfg, s, MonitorStep) && !MonitorTakes(s)
    ensures var c := Consumer.FireMonitor(s.cons, s.queue);
            && Consumer.Inv(cfg.hart, c) && c.popped == s.cons.popped && c.pc.Idle?
            && c.buffer == s.cons.buffer && c.header == s.cons.header && (c.status.Active? <==> s.cons.status.Active?)
  {
  }

  lemma PollKeepsSide(cfg: Config, s: State)
    requires HartSide(cfg, s) && Enabled(cfg, s, MonitorStep) && !MonitorTakes(s)
    ensures HartSide(cfg, Apply(cfg, s, MonitorStep))
  {
    PollKeepsHart(cfg, s);
    assert Consumer.Unread(Consumer.FireMonitor(s.cons, s.queue)) == Consumer.Unread(s.cons);
  }

  lemma WakeKeepsSide(cfg: Config, s: State)
    requires HartSide(cfg, s) && Enabled(cfg, s, MonitorStep) && MonitorTakes(s)
    ensures HartSide(cfg, Apply(cfg, s, MonitorStep))
  {
    MonitorLoads(s);
    LoadKeepsTransport(s, Apply(cfg, s, MonitorStep).cons);
  }

  lemma TakeKeepsSide(cfg: Config, s: State)
    requires HartSide(cfg, s) && Enabled(cfg, s, TakeStep)
    ensures HartSide(cfg, Apply(cfg, s, TakeStep))
  {
    LoadKeepsTransport(s, Consumer.LoadBatch(s.cons, s.queue[0]));
  }

  // The steps that leave the batches where they are.
  lemma FireKeepsSide(cfg: Config, s: State, step: Step)
    requires HartSide(cfg, s) && Enabled(cfg, s, step)
    requires step.StartupStep? || step.TickStep? || step.ProcessCompletes?
    ensures HartSide(cfg, Apply(cfg, s, step))
  {
    var c := Apply(cfg, s, step).cons;
    assert c.popped == s.cons.popped && Consumer.Unread(c) == Consumer.Unread(s.cons);
  }

  lemma MonitorLoads(s: State)
    requires MonitorTakes(s)
    ensures var c := Consumer.FireMonitor(s.cons, s.queue);
            c.buffer == s.queue[0] && c.header == 0 && c.popped == s.cons.popped
  {
  }

  // Unread events are published, so a last event among them is an instruction.
  lemma UnreadPublished(cfg: Config, s: State)
    requires Inv(cfg, s) && !Consumer.AtEnd(s.cons)
    ensures var ev, k := s.cons.buffer[s.cons.header], |s.cons.popped|;
            && k < |Producer.Published(s.prod)| && Producer.Published(s.prod)[k] == ev
            && (ev.isLast ==> ev.Insn?) && !ev.ThreadApi?
  {
    var unread := Consumer.Unread(s.cons);
    assert unread[0] == s.cons.buffer[s.cons.header];
    assert Producer.Published(s.prod) == s.cons.popped + unread + (Flatten(s.queue) + s.prod.buffer);
  }

  lemma PopKeepsTransport(s: State, c: Consumer.State)
    requires Transported(s) && !Consumer.AtEnd(s.cons)
    requires c.buffer == s.cons.buffer && c.header == s.cons.header + 1
    requires c.popped == s.cons.popped + [s.cons.buffer[s.cons.header]]
    ensures Transported(s.(cons := c))
  {
    var ev := s.cons.buffer[s.cons.header];
    assert Consumer.Unread(s.cons) == [ev] + Consumer.Unread(c);
    MoveAcross(s.cons.popped, ev, Consumer.Unread(c));
  }

  lemma MoveAcross<T>(a: seq<T>, x: T, b: seq<T>)
    ensures a + ([x] + b) == (a + [x]) + b
  {
  }

  // The event that puts a hart to sleep is the last one of its batch.
  lemma SleepingEventEndsBatch(cfg: Config, c: Consumer.State)
    requires c.pc.Fetching? && c.pc.cur < c.pc.limit && c.status.Active? && !Consumer.AtEnd(c)
    requires Producer.BatchOk(c.buffer)
    ensures MonitoredAtEnd(Consumer.FetchStep(cfg.hart, c))
  {
    assert c.header < |c.buffer| - 1 ==> c.buffer[..|c.buffer| - 1][c.header] == c.buffer[c.header];
  }

  lemma FetchKeepsInv(cfg: Config, s: State)
    requires Inv(cfg, s) && Enabled(cfg, s, ProceedStep) && s.cons.pc.Fetching? && s.cons.pc.cur < s.cons.pc.limit
    ensures Inv(cfg, Apply(cfg, s, ProceedStep))
  {
    var c, d := s.cons, Consumer.FetchStep(cfg.hart, s.cons);
    UnreadPublished(cfg, s);
    Consumer.FetchStepKeepsInv(cfg.hart, c);
    SleepingEventEndsBatch(cfg, c);
    if c.header < d.header {
      PopKeepsTransport(s, d);
    }
  }

  lemma ProceedKeepsInv(cfg: Config, s: State)
    requires Inv(cfg, s) && Enabled(cfg, s, ProceedStep)
    ensures Inv(cfg, Apply(cfg, s, ProceedStep))
  {
    var c := s.cons;
    if c.pc.Fetching? && c.pc.cur < c.pc.limit {
      FetchKeepsInv(cfg, s);
    } else {
      if !Consumer.AtEnd(c) {
        UnreadPublished(cfg, s);
      }
      Consumer.ProceedKeepsInv(cfg.hart, c);
      OtherStepsReadNothing(cfg, c);
    }
  }

  lemma OtherStepsReadNothing(cfg: Config, c: Consumer.State)
    requires Consumer.CanProceed(c) && MonitoredAtEnd(c)
    requires c.pc.Fetching? ==> c.status.Active? && c.pc.cur >= c.pc.limit
    ensures var d := Consumer.Proceed(cfg.hart, c);
            d.buffer == c.buffer && d.header == c.header && d.popped == c.popped && MonitoredAtEnd(d)
  {
    if c.pc.Retiring? {
      var r := Consumer.Retire(c, c.pc.package);
      assert r.buffer == c.buffer && r.header == c.header && r.popped == c.popped && r.status == c.status;
    }
  }

  lemma StepKeepsInv(cfg: Config, s: State, step: Step)
    requires Producer.SingleThread(cfg.script) && Inv(cfg, s) && Enabled(cfg, s, step)
    ensures Inv(cfg, Apply(cfg, s, step))
  {
    match step {
      case GuestStep => GuestKeepsInv(cfg, s);
      case SendStep => SendKeepsInv(cfg, s);
      case ProceedStep => ProceedKeepsInv(cfg, s);
      case TakeStep => TakeKeepsSide(cfg, s);
      case MonitorStep =>
        if MonitorTakes(s) {
          WakeKeepsSide(cfg, s);
        } else {
          PollKeepsSide(cfg, s);
        }
      case _ => FireKeepsSide(cfg, s, step);
    }
  }

  lemma {:induction false} RunKeepsInv(cfg: Config, trace: seq<State>, steps: seq<Step>, i: nat)
    requires Producer.SingleThread(cfg.script) && IsRun(cfg, trace, steps) && i < |trace|
    ensures Inv(cfg, trace[i])
  {
    if i == 0 {
      InitialInv(cfg);
    } else {
      RunKeepsInv(cfg, trace, steps, i - 1);
      StepKeepsInv(cfg, trace[i - 1], steps[i - 1]);
    }
  }

  /* What the invariant means */

  // The instruction that has been executed and not yet published.
  function Pending(cfg: Config, s: State): seq<StaticInst>
    requires s.next <= |cfg.script|
  {
    if Producer.Exited(Done(cfg, s)) || s.prod.instCounter == 0 then [] else [s.prod.last]
  }

  // Every instruction in the system, from the retired ones back to the pending one.
  function InSystem(cfg: Config, s: State): seq<StaticInst>
    requires s.next <= |cfg.script|
  {
    s.cons.retired + s.cons.instBuffer + Consumer.Package(s.cons.pc) + Insts(Consumer.Unread(s.cons))
    + Insts(Flatten(s.queue)) + Insts(s.prod.buffer) + Pending(cfg, s)
  }

  lemma PublishedSplits(cfg: Config, s: State)
    requires Inv(cfg, s)
    ensures InSystem(cfg, s) == Insts(Producer.Published(s.prod)) + Pending(cfg, s)
  {
    var c := s.cons;
    InstsConcat(Flatten(s.prod.sent), s.prod.buffer);
    InstsConcat(c.popped + Consumer.Unread(c), Flatten(s.queue));
    InstsConcat(c.popped, Consumer.Unread(c));
  }

  /** Conservation, in every interleaving: what has retired, then the CPU's instruction buffer, the package being
      fetched, the unread tail of the batch, the queued batches, the publisher's buffer and the pending instruction
      are together the instructions executed so far, each once and in execution order. */
  lemma Conservation(cfg: Config, trace: seq<State>, steps: seq<Step>, i: nat)
    requires Producer.SingleThread(cfg.script) && IsRun(cfg, trace, steps) && i < |trace|
    ensures trace[i].next <= |cfg.script|
    ensures var executed, insts := Producer.Execs(Done(cfg, trace[i])), InSystem(cfg, trace[i]);
            && |insts| == |executed|
            && forall k :: 0 <= k < |executed| ==>
                 insts[k].uid == k && CacheEntry(insts[k].pc, insts[k].opcode, insts[k].len) == executed[k]
  {
    RunKeepsInv(cfg, trace, steps, i);
    PublishedSplits(cfg, trace[i]);
    PendingCompletes(cfg, trace[i]);
  }

  // The published instructions and the pending one are those of the script so far.
  lemma PendingCompletes(cfg: Config, s: State)
    requires s.next <= |cfg.script| && Producer.Inv(s.prod, Done(cfg, s))
    ensures var executed, insts := Producer.Execs(Done(cfg, s)), Insts(Producer.Published(s.prod)) + Pending(cfg, s);
            && |insts| == |executed|
            && forall k :: 0 <= k < |executed| ==>
                 insts[k].uid == k && CacheEntry(insts[k].pc, insts[k].opcode, insts[k].len) == executed[k]
  {
    var executed, published := Producer.Execs(Done(cfg, s)), Insts(Producer.Published(s.prod));
    var insts := published + Pending(cfg, s);
    forall k | 0 <= k < |executed|
      ensures insts[k].uid == k && CacheEntry(insts[k].pc, insts[k].opcode, insts[k].len) == executed[k]
    {
      if k < |published| {
        assert insts[k] == if k + 1 < |executed| then Producer.Stamped(executed, k) else Producer.Held(executed, k);
      } else {
        assert insts[k] == Producer.Held(executed, k);
      }
    }
  }

  /** tryTake overwrites the subscriber's batch unconditionally; whenever the monitor calls it, the batch has been
      read to its end, because the event that put the hart to sleep forced its batch out. */
  lemma TryTakeDiscardsNothing(cfg: Config, trace: seq<State>, steps: seq<Step>, i: nat)
    requires Producer.SingleThread(cfg.script) && IsRun(cfg, trace, steps) && i < |steps|
    requires steps[i] == MonitorStep && (trace[i].cons.status.Inactive? || trace[i].cons.status.BlockedSyscall?)
    ensures Consumer.Unread(trace[i].cons) == []
  {
    RunKeepsInv(cfg, trace, steps, i);
    assert Enabled(cfg, trace[i], steps[i]);
  }

  /** The channel of a hart holds up to four batches, and accepts one exactly while there is room; a batch has up to
      16384 events, and fewer only if it ends with a system call or the last event of its hart. */
  lemma ChannelBounds(cfg: Config, trace: seq<State>, steps: seq<Step>, i: nat)
    requires Producer.SingleThread(cfg.script) && IsRun(cfg, trace, steps) && i < |trace|
    ensures |trace[i].queue| <= 4
    ensures Enabled(cfg, trace[i], SendStep) <==> trace[i].prod.sending && |trace[i].queue| < 4
    ensures forall b: Batch :: b in trace[i].queue ==>
              && 0 < |b| <= 16384
              && (|b| < 16384 ==> b[|b| - 1].SyscallApi? || b[|b| - 1].isLast)
  {
    RunKeepsInv(cfg, trace, steps, i);
    assert forall j :: 0 <= j < |trace[i].queue| ==> Producer.BatchOk(trace[i].queue[j]);
  }

  /** After every handler the status says which events are scheduled, although wakeUpMonitor sets
      the status again after the startUp it calls. */
  lemma StatusAgreesAfterHandlers(cfg: Config, trace: seq<State>, steps: seq<Step>, i: nat)
    requires Producer.SingleThread(cfg.script) && IsRun(cfg, trace, steps) && i < |trace|
    requires trace[i].cons.pc.Idle?
    ensures Consumer.StatusAgrees(cfg.hart, trace[i].cons)
  {
    RunKeepsInv(cfg, trace, steps, i);
  }
}
