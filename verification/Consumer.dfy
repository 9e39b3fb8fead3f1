/** The consuming end of a hart's event channel: EventSubscriber, QemuISS and SimpleCPU,
    as functions on one hart's state. A handler that has to wait for events stops in between,
    so the state carries the point inside the handler at which it stands. */
module Consumer {
  import opened Events

  datatype Status = Inactive | Active | BlockedSyscall | Completed

  // The event handler that is running.
  datatype Caller = StartUpHandler | TickHandler | MonitorHandler

  /** Where the hart stands: between handlers; in initCPUState; at the loop test of generateFetchRequest;
      after that loop, with the package to push and an instruction to retire; or stopped by a failed assertion. */
  datatype Pc =
    | Idle
    | Initializing
    | Fetching(cur: Addr, limit: Addr, package: seq<StaticInst>)
    | Retiring(package: seq<StaticInst>)
    | Aborted

  datatype Config = Config(isBoot: bool, fetchWidth: nat)

  /** `retired` and `popped` record everything retired and everything popped from the subscriber so far. */
  datatype State = State(
    status: Status, startupEvent: bool, tickEvent: bool, monitorEvent: bool, processCompleted: bool,
    cycle: nat, bootPc: Addr, nextPc: Addr,
    instBuffer: seq<StaticInst>, retired: seq<StaticInst>,
    buffer: Batch, header: nat, popped: seq<Event>,
    pc: Pc, caller: Caller)

  // A hart to which setProcess has been applied.
  function Assigned(cfg: Config): State {
    State(Inactive, cfg.isBoot, false, !cfg.isBoot, false, 0, 0, 0, [], [], [], 0, [], Idle, StartUpHandler)
  }

  /* EventSubscriber */

  predicate AtEnd(c: State) {
    c.header >= |c.buffer|
  }

  function Unread(c: State): seq<Event> {
    if AtEnd(c) then [] else c.buffer[c.header..]
  }

  function LoadBatch(c: State, b: Batch): State {
    c.(buffer := b, header := 0)
  }

  /* Handlers up to their first wait */

  function BeginFetch(cfg: Config, c: State): State {
    c.(pc := Fetching(c.nextPc, AddAddr(c.nextPc, cfg.fetchWidth), []))
  }

  function FireStartup(c: State): State {
    c.(startupEvent := false, pc := Initializing, caller := StartUpHandler)
  }

  function FireTick(cfg: Config, c: State): State {
    BeginFetch(cfg, c.(tickEvent := true, cycle := c.cycle + 1, caller := TickHandler))
  }

  // handleWakeUpMonitorEvent; `arrived` is what the channel delivers to tryTake, if anything.
  function FireMonitor(c: State, arrived: seq<Batch>): State {
    var d := c.(monitorEvent := true, caller := MonitorHandler);
    match c.status
    case Inactive =>
      if arrived != [] then LoadBatch(d, arrived[0]).(pc := Initializing)
      else if c.processCompleted then d.(status := Completed, monitorEvent := false)
      else d
    case BlockedSyscall =>
      if arrived != [] then LoadBatch(d, arrived[0]).(status := Active, monitorEvent := false, tickEvent := true)
      else d
    case _ => d
  }

  /* Inside a handler */

  predicate NeedsEvent(c: State) {
    c.pc.Initializing? || (c.pc.Fetching? && c.pc.cur < c.pc.limit)
  }

  predicate CanProceed(c: State) {
    (c.pc.Initializing? || c.pc.Fetching? || c.pc.Retiring?) && (NeedsEvent(c) ==> !AtEnd(c))
  }

  // initCPUState with its assertion, reset, and the start of the first tick.
  function Initialize(cfg: Config, c: State): State
    requires c.pc.Initializing? && !AtEnd(c)
  {
    var ev := c.buffer[c.header];
    if !ev.Insn? then c.(pc := Aborted)
    else BeginFetch(cfg, c.(bootPc := ev.inst.pc, status := Active, nextPc := ev.inst.pc, tickEvent := true))
  }

  function OnSyscall(c: State): State {
    if c.status.Active? then c.(status := BlockedSyscall, tickEvent := false, monitorEvent := true) else c
  }

  function OnLast(cfg: Config, c: State): State {
    if cfg.isBoot then c.(tickEvent := false, status := Completed, processCompleted := true)
    else c.(tickEvent := false, status := Inactive, monitorEvent := true)
  }

  function PopEvent(cfg: Config, c: State, ev: Event): State {
    (if ev.isLast then OnLast(cfg, c) else c).(header := c.header + 1, popped := c.popped + [ev])
  }

  // Does the fetch loop take this instruction into its package?
  predicate Fits(inst: StaticInst, cur: Addr, limit: Addr) {
    inst.pc == cur && AddAddr(cur, inst.len) <= limit
  }

  // One iteration of the fetch loop.
  function FetchStep(cfg: Config, c: State): (d: State)
    requires c.pc.Fetching? && c.pc.cur < c.pc.limit && !AtEnd(c)
    ensures d.buffer == c.buffer && c.header <= d.header <= c.header + 1
    ensures d.pc.Retiring? || (d.pc.Fetching? && d.header == c.header + 1)
  {
    var Fetching(cur, limit, package) := c.pc;
    var ev := c.buffer[c.header];
    match ev
    case ThreadApi(_, _) => PopEvent(cfg, c, ev).(pc := Retiring(package))
    case SyscallApi(_, _) => PopEvent(cfg, OnSyscall(c), ev).(pc := Retiring(package))
    case Insn(_, inst, isLast) =>
      if !Fits(inst, cur, limit) then c.(pc := Retiring(package))
      else if isLast then PopEvent(cfg, c, ev).(pc := Retiring(package + [inst]))
      else PopEvent(cfg, c, ev).(pc := Fetching(AddAddr(cur, inst.len), limit, package + [inst]))
  }

  // The part of SimpleCPU::tick after the fetch.
  function Retire(c: State, package: seq<StaticInst>): State {
    var b := c.instBuffer + package;
    if b == [] then c
    else c.(retired := c.retired + [b[0]], instBuffer := b[1..], nextPc := SuccessorPc(b[0]))
  }

  // The rest of the handler after its tick; wakeUpMonitor sets the status after startUp returns.
  function EndHandler(c: State): State {
    var d := c.(pc := Idle);
    if c.caller.MonitorHandler? then d.(status := Active, monitorEvent := false, tickEvent := true) else d
  }

  function Proceed(cfg: Config, c: State): State
    requires CanProceed(c)
  {
    match c.pc
    case Initializing => Initialize(cfg, c)
    case Fetching(cur, limit, package) =>
      if cur < limit then FetchStep(cfg, c) else c.(pc := Retiring(package))
    case Retiring(package) => EndHandler(Retire(c, package))
  }

  /* What one hart keeps on its own */

  function Package(pc: Pc): seq<StaticInst> {
    match pc
    case Fetching(_, _, package) => package
    case Retiring(package) => package
    case _ => []
  }

  // Between handlers, the status and the scheduled events agree.
  predicate StatusAgrees(cfg: Config, c: State) {
    match c.status
    case Active => c.tickEvent && !c.monitorEvent && !c.startupEvent
    case BlockedSyscall => !c.tickEvent && c.monitorEvent && !c.startupEvent
    case Inactive => !c.tickEvent && c.monitorEvent == !cfg.isBoot && c.startupEvent == cfg.isBoot
    case Completed => !c.tickEvent && !c.monitorEvent && !c.startupEvent
  }

  // While a handler is under way, and once a hart has aborted.
  predicate HandlerAgrees(cfg: Config, c: State) {
    var monitoring := c.caller.MonitorHandler?;
    && !c.startupEvent
    && (monitoring ==> !cfg.isBoot)
    && (c.status.Active? ==> c.tickEvent && c.monitorEvent == monitoring)
    && (c.status.BlockedSyscall? ==> !c.tickEvent && c.monitorEvent)
    && (c.status.Completed? ==> cfg.isBoot && !c.tickEvent && !c.monitorEvent)
    && (c.status.Inactive? ==> !c.tickEvent && (c.pc.Initializing? || c.pc.Aborted? || (!cfg.isBoot && c.monitorEvent)))
    && (c.pc.Initializing? ==> c.status.Inactive? && !c.caller.TickHandler? && c.monitorEvent == monitoring)
    && (c.pc.Fetching? ==> c.status.Active?)
  }

  predicate Inv(cfg: Config, c: State) {
    && c.header <= |c.buffer|
    && Insts(c.popped) == c.retired + c.instBuffer + Package(c.pc)
    && (if c.pc.Idle? then StatusAgrees(cfg, c) else HandlerAgrees(cfg, c))
  }

  lemma PopKeepsInsts(cfg: Config, c: State, ev: Event)
    ensures Insts(PopEvent(cfg, c, ev).popped) == Insts(c.popped) + (if ev.Insn? then [ev.inst] else [])
  {
    InstsSnoc(c.popped, ev);
  }

  lemma InsnKeepsInv(cfg: Config, c: State)
    requires Inv(cfg, c) && c.pc.Fetching? && c.pc.cur < c.pc.limit && !AtEnd(c) && c.buffer[c.header].Insn?
    ensures Inv(cfg, FetchStep(cfg, c))
  {
    var ev := c.buffer[c.header];
    if Fits(ev.inst, c.pc.cur, c.pc.limit) {
      PopKeepsInsts(cfg, c, ev);
      Associate(c.retired + c.instBuffer, c.pc.package, [ev.inst]);
      assert FetchStep(cfg, c).popped == PopEvent(cfg, c, ev).popped;
    }
  }

  lemma ApiKeepsInv(cfg: Config, c: State)
    requires Inv(cfg, c) && c.pc.Fetching? && c.pc.cur < c.pc.limit && !AtEnd(c)
    requires !c.buffer[c.header].Insn? && !c.buffer[c.header].isLast
    ensures Inv(cfg, FetchStep(cfg, c))
  {
    var ev := c.buffer[c.header];
    PopKeepsInsts(cfg, OnSyscall(c), ev);
    PopKeepsInsts(cfg, c, ev);
    assert Insts(c.popped) + [] == Insts(c.popped);
  }

  lemma FetchStepKeepsInv(cfg: Config, c: State)
    requires Inv(cfg, c) && c.pc.Fetching? && c.pc.cur < c.pc.limit && !AtEnd(c)
    requires c.buffer[c.header].isLast ==> c.buffer[c.header].Insn?
    ensures Inv(cfg, FetchStep(cfg, c))
  {
    if c.buffer[c.header].Insn? {
      InsnKeepsInv(cfg, c);
    } else {
      ApiKeepsInv(cfg, c);
    }
  }

  lemma ProceedKeepsInv(cfg: Config, c: State)
    requires Inv(cfg, c) && CanProceed(c)
    requires !AtEnd(c) && c.buffer[c.header].isLast ==> c.buffer[c.header].Insn?
    ensures Inv(cfg, Proceed(cfg, c))
  {
    if c.pc.Fetching? && c.pc.cur < c.pc.limit {
      FetchStepKeepsInv(cfg, c);
    } else if c.pc.Retiring? {
      var b := c.instBuffer + c.pc.package;
      assert c.retired + c.instBuffer + c.pc.package == c.retired + b;
      assert b != [] ==> c.retired + b == c.retired + [b[0]] + b[1..] + [];
    }
  }
}
