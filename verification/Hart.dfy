/** The consumer as the program writes it: the subscriber, the instruction set simulator and the CPU as
    objects whose handlers update them in place. */
module Hart {
  import opened Events
  import opened Consumer
  import opened Handlers
  import opened Processes
  import opened Wrappers

  // The batches among the results of successive polls of the channel.
  function Deliveries(polls: seq<Option<Batch>>): seq<Batch> {
    if polls == [] then []
    else (if polls[0].Some? then [polls[0].value] else []) + Deliveries(polls[1..])
  }

  class EventSubscriber {
    // What each later call of m_subscriber->take() returns.
    var polls: seq<Option<Batch>>
    var buffer: Batch
    var header: nat
    ghost var popped: seq<Event>

    constructor (polls: seq<Option<Batch>>)
      ensures this.polls == polls && buffer == [] && header == 0 && popped == []
    {
      this.polls := polls;
      buffer, header, popped := [], 0, [];
    }

    // Take: polls until a batch arrives. It returns only if one does.
    method Take()
      requires Deliveries(polls) != []
      modifies `polls, `buffer, `header
      ensures buffer == old(Deliveries(polls))[0] && header == 0
      ensures Deliveries(polls) == old(Deliveries(polls))[1..]
    {
      var taken := false;
      while !taken
        invariant if taken then buffer == old(Deliveries(polls))[0] && header == 0
                                && Deliveries(polls) == old(Deliveries(polls))[1..]
                  else Deliveries(polls) == old(Deliveries(polls))
        decreases |polls|, !taken
      {
        taken := TryTake();
      }
    }

    // One poll; a batch that arrives replaces the current one, read or not.
    method TryTake() returns (ok: bool)
      modifies `polls, `buffer, `header
      ensures ok <==> old(polls) != [] && old(polls)[0].Some?
      ensures polls == if old(polls) == [] then [] else old(polls)[1..]
      ensures if ok then buffer == old(polls)[0].value && header == 0
              else buffer == old(buffer) && header == old(header)
      ensures Deliveries(polls) == if ok then old(Deliveries(polls))[1..] else old(Deliveries(polls))
      ensures ok ==> old(Deliveries(polls)) != [] && buffer == old(Deliveries(polls))[0]
    {
      ok := false;
      if polls != [] {
        if polls[0].Some? {
          buffer, header, ok := polls[0].value, 0, true;
        }
        polls := polls[1..];
      }
    }

    // Front: the event at the cursor, after waiting for a batch if the cursor is at the end of this one.
    method Front() returns (ev: Event)
      requires header >= |buffer| ==> Deliveries(polls) != [] && Deliveries(polls)[0] != []
      modifies `polls, `buffer, `header
      ensures header < |buffer| && ev == buffer[header]
      ensures if old(header >= |buffer|)
              then buffer == old(Deliveries(polls))[0] && header == 0
                   && Deliveries(polls) == old(Deliveries(polls))[1..]
              else buffer == old(buffer) && header == old(header) && Deliveries(polls) == old(Deliveries(polls))
    {
      if header >= |buffer| {
        Take();
      }
      ev := buffer[header];
    }

    method PopFront()
      requires header < |buffer|
      modifies `header, `popped
      ensures header == old(header) + 1 && popped == old(popped) + [buffer[old(header)]]
    {
      popped := popped + [buffer[header]];
      header := header + 1;
    }
  }

  // No batch is empty; the publisher sends none.
  ghost predicate NonEmpty(bs: seq<Batch>) {
    forall i :: 0 <= i < |bs| ==> bs[i] != []
  }

  class SimpleCpu {
    const hartId: nat
    const fetchWidth: nat
    const process: Process
    const queue: EventSubscriber
    var status: Status
    var startupEvent: bool
    var tickEvent: bool
    var monitorEvent: bool
    var cycle: nat
    var bootPc: Addr
    var nextPc: Addr
    var instBuffer: seq<StaticInst>
    var instret: nat
    var fetchBuffer: seq<seq<StaticInst>>   // QemuISS::m_fetch_buffer
    ghost var retired: seq<StaticInst>

    // setProcess is part of the construction: it schedules the first event of the hart.
    constructor (hartId: nat, fetchWidth: nat, process: Process, queue: EventSubscriber)
      requires queue.buffer == [] && queue.header == 0 && queue.popped == [] && !process.isCompleted
      ensures this.process == process && this.queue == queue && fetchBuffer == [] && Counted()
      ensures View(Idle, StartUpHandler) == Assigned(Config(process.bootHart == hartId, fetchWidth))
    {
      this.hartId, this.fetchWidth, this.process, this.queue := hartId, fetchWidth, process, queue;
      status, tickEvent, cycle, bootPc, nextPc := Inactive, false, 0, 0, 0;
      instBuffer, instret, fetchBuffer, retired := [], 0, [], [];
      startupEvent := process.bootHart == hartId;
      monitorEvent := process.bootHart != hartId;
    }

    ghost function Cfg(): Config
      reads process`bootHart
    {
      Config(process.bootHart == hartId, fetchWidth)
    }

    ghost function View(pc: Pc, caller: Caller): State
      reads this, process, queue
    {
      State(status, startupEvent, tickEvent, monitorEvent, process.isCompleted, cycle, bootPc, nextPc,
            instBuffer, retired, queue.buffer, queue.header, queue.popped, pc, caller)
    }

    ghost function Incoming(): seq<Batch>
      reads queue
    {
      Deliveries(queue.polls)
    }

    ghost predicate Counted()
      reads this
    {
      instret == |retired|
    }

    /* QemuISS */

    // initCPUState; `ok` is false where its assertion fails.
    method InitCPUState(ghost caller: Caller) returns (ok: bool)
      requires NonEmpty(Incoming()) && (AtEnd(View(Initializing, caller)) ==> Incoming() != [])
      modifies `bootPc, `status, queue`polls, queue`buffer, queue`header
      ensures !AtEnd(View(Initializing, caller)) && NonEmpty(Incoming())
      ensures var c, incoming := old(View(Initializing, caller)), old(Incoming());
              var d := Waited(c, incoming);
              && !AtEnd(d) && Incoming() == StillToCome(c, incoming) && (ok <==> d.buffer[d.header].Insn?)
              && View(Initializing, caller)
                 == if ok then d.(bootPc := d.buffer[d.header].inst.pc, status := Active) else d
    {
      var first := queue.Front();
      ok := first.Insn?;
      if ok {
        bootPc := first.inst.pc;
        status := Active;
      }
    }

    method HandleSyscallApi(ghost pc: Pc, ghost caller: Caller)
      modifies `status, `tickEvent, `monitorEvent
      ensures View(pc, caller) == OnSyscall(old(View(pc, caller)))
      ensures if old(status) == Active then status == BlockedSyscall && !tickEvent && monitorEvent
              else status == old(status) && tickEvent == old(tickEvent) && monitorEvent == old(monitorEvent)
    {
      if status == Active {
        status := BlockedSyscall;
        tickEvent := false;
        monitorEvent := true;
      }
    }

    // The part of the fetch loop that pops the event at the cursor.
    method PopEvent(ev: Event, ghost pc: Pc, ghost caller: Caller)
      requires queue.header < |queue.buffer| && ev == queue.buffer[queue.header]
      modifies `status, `tickEvent, `monitorEvent, process`isCompleted, queue`header, queue`popped
      ensures View(pc, caller) == Consumer.PopEvent(Cfg(), old(View(pc, caller)), ev)
      ensures process.isCompleted <==> old(process.isCompleted) || (ev.isLast && hartId == process.bootHart)
      ensures if !ev.isLast then status == old(status) && tickEvent == old(tickEvent)
              else !tickEvent && status == if hartId == process.bootHart then Completed else Inactive
      ensures monitorEvent <==> old(monitorEvent) || (ev.isLast && hartId != process.bootHart)
    {
      if ev.isLast {
        tickEvent := false;
        if hartId == process.bootHart {
          status := Completed;
          process.isCompleted := true;
        } else {
          status := Inactive;
          monitorEvent := true;
        }
      }
      queue.PopFront();
    }

    // Where the fetch loop stands.
    ghost function LoopPc(exitLoop: bool, cur: Addr, limit: Addr, package: seq<StaticInst>): Pc {
      if exitLoop then Retiring(package) else Fetching(cur, limit, package)
    }

    // The events of the current batch that the cursor has not passed.
    ghost function Unseen(): nat
      reads queue
    {
      if queue.header < |queue.buffer| then |queue.buffer| - queue.header else 0
    }

    // The body of the fetch loop after front().
    method FetchNext(cur: Addr, limit: Addr, package: seq<StaticInst>, ev: Event, ghost caller: Caller)
      returns (newCur: Addr, newPackage: seq<StaticInst>, exitLoop: bool)
      requires cur < limit && queue.header < |queue.buffer| && ev == queue.buffer[queue.header]
      modifies `status, `tickEvent, `monitorEvent, process`isCompleted, queue`header, queue`popped
      ensures View(LoopPc(exitLoop, newCur, limit, newPackage), caller)
           == FetchStep(Cfg(), old(View(Fetching(cur, limit, package), caller)))
    {
      newCur, newPackage, exitLoop := cur, package, false;
      var doPop := true;
      if ev.ThreadApi? {
        exitLoop := true;
      } else if ev.SyscallApi? {
        HandleSyscallApi(Fetching(cur, limit, package), caller);
        exitLoop := true;
      } else if cur == ev.inst.pc && AddAddr(cur, ev.inst.len) <= limit {
        newPackage := package + [ev.inst];
        newCur := AddAddr(cur, ev.inst.len);
      } else {
        exitLoop := true;
        doPop := false;
      }
      if doPop {
        PopEvent(ev, Fetching(cur, limit, package), caller);
        exitLoop := exitLoop || ev.isLast;
      }
    }

    // One turn of the fetch loop, which waits for a batch if it has to.
    method FetchTurn(cur: Addr, limit: Addr, package: seq<StaticInst>, ghost caller: Caller)
      returns (newCur: Addr, newPackage: seq<StaticInst>, exitLoop: bool)
      requires cur < limit && NonEmpty(Incoming())
      requires RunFetch(Cfg(), View(Fetching(cur, limit, package), caller), Incoming()).Returned?
      modifies `status, `tickEvent, `monitorEvent, process`isCompleted, queue
      ensures NonEmpty(Incoming())
      ensures RunFetch(Cfg(), View(LoopPc(exitLoop, newCur, limit, newPackage), caller), Incoming())
           == old(RunFetch(Cfg(), View(Fetching(cur, limit, package), caller), Incoming()))
      ensures exitLoop || |Incoming()| < old(|Incoming()|)
              || (|Incoming()| == old(|Incoming()|) && Unseen() < old(Unseen()))
    {
      var ev := queue.Front();
      assert RunFetch(Cfg(), View(Fetching(cur, limit, package), caller), Incoming())
          == old(RunFetch(Cfg(), View(Fetching(cur, limit, package), caller), Incoming()));
      newCur, newPackage, exitLoop := FetchNext(cur, limit, package, ev, caller);
    }

    method GenerateFetchRequest(addr: Addr, fetchSize: nat, ghost caller: Caller)
      requires NonEmpty(Incoming())
      requires RunFetch(Cfg(), View(Fetching(addr, AddAddr(addr, fetchSize), []), caller), Incoming()).Returned?
      modifies `status, `tickEvent, `monitorEvent, `fetchBuffer, process`isCompleted, queue
      ensures NonEmpty(Incoming())
      ensures var o := old(RunFetch(Cfg(), View(Fetching(addr, AddAddr(addr, fetchSize), []), caller), Incoming()));
              && o.cons.pc.Retiring? && View(o.cons.pc, caller) == o.cons && Incoming() == o.incoming
              && fetchBuffer == old(fetchBuffer) + [o.cons.pc.package]
    {
      ghost var o := RunFetch(Cfg(), View(Fetching(addr, AddAddr(addr, fetchSize), []), caller), Incoming());
      var limit := AddAddr(addr, fetchSize);
      var cur, package, exitLoop := addr, [], false;
      while !exitLoop && cur < limit
        invariant NonEmpty(Incoming()) && fetchBuffer == old(fetchBuffer)
        invariant o == RunFetch(Cfg(), View(LoopPc(exitLoop, cur, limit, package), caller), Incoming())
        decreases !exitLoop, |Incoming()|, Unseen()
      {
        cur, package, exitLoop := FetchTurn(cur, limit, package, caller);
      }
      fetchBuffer := fetchBuffer + [package];
    }

    method ProcessFetchResponse() returns (group: seq<StaticInst>)
      requires fetchBuffer != []
      modifies `fetchBuffer
      ensures group == old(fetchBuffer)[0] && fetchBuffer == old(fetchBuffer)[1..]
    {
      group := fetchBuffer[0];
      fetchBuffer := fetchBuffer[1..];
    }

    /* SimpleCPU and AbstractCPU */

    method Reset()
      modifies `nextPc
      ensures nextPc == bootPc
    {
      nextPc := bootPc;
    }

    method PushInstructions(group: seq<StaticInst>)
      modifies `instBuffer
      ensures instBuffer == old(instBuffer) + group
    {
      for i := 0 to |group|
        invariant instBuffer == old(instBuffer) + group[..i]
      {
        instBuffer := instBuffer + [group[i]];
      }
      assert group[..|group|] == group;
    }

    // The part of tick after the fetch; d is the hart before the package was pushed.
    method RetireOldest(ghost d: State, ghost package: seq<StaticInst>, ghost caller: Caller)
      requires Counted() && View(d.pc, caller) == d.(instBuffer := d.instBuffer + package)
      modifies `instBuffer, `instret, `nextPc, `retired
      ensures Counted() && View(d.pc, caller) == Retire(d, package)
      ensures if old(instBuffer) == [] then instBuffer == [] && instret == old(instret) && nextPc == old(nextPc)
              else
                var inst := old(instBuffer)[0];
                && instBuffer == old(instBuffer)[1..] && instret == old(instret) + 1
                && nextPc == if inst.redirect then inst.targetPc else AddAddr(inst.pc, inst.len)
    {
      if instBuffer != [] {
        var inst := instBuffer[0];
        instret := instret + 1;
        retired := retired + [inst];
        instBuffer := instBuffer[1..];
        if inst.redirect {
          nextPc := inst.targetPc;
        } else {
          nextPc := AddAddr(inst.pc, inst.len);
        }
      }
    }

    // tick; afterwards the hart stands at the end of the handler that called it.
    method Tick(ghost caller: Caller)
      requires NonEmpty(Incoming()) && Counted() && fetchBuffer == []
      requires RunTick(Cfg(), BeginFetch(Cfg(), View(Idle, caller)), Incoming()).Returned?
      modifies this, process`isCompleted, queue
      ensures NonEmpty(Incoming()) && Counted() && fetchBuffer == []
      ensures var o := old(RunTick(Cfg(), BeginFetch(Cfg(), View(Idle, caller)), Incoming()));
              o.cons.pc.Retiring? && View(o.cons.pc, caller) == o.cons && Incoming() == o.incoming
    {
      ghost var d := RunFetch(Cfg(), BeginFetch(Cfg(), View(Idle, caller)), Incoming()).cons;
      GenerateFetchRequest(nextPc, fetchWidth, caller);
      var group := ProcessFetchResponse();
      PushInstructions(group);
      RetireOldest(d, d.pc.package, caller);
    }

    // startUp from reset on, when initCPUState has accepted the first event of d.
    method FirstTick(ghost d: State, ghost caller: Caller)
      requires NonEmpty(Incoming()) && Counted() && fetchBuffer == []
      requires d.pc.Initializing? && d.caller == caller && !AtEnd(d) && d.buffer[d.header].Insn?
      requires View(Initializing, caller) == d.(bootPc := d.buffer[d.header].inst.pc, status := Active)
      requires RunTick(Cfg(), Initialize(Cfg(), d), Incoming()).Returned?
      modifies this, process`isCompleted, queue
      ensures NonEmpty(Incoming()) && Counted() && fetchBuffer == []
      ensures var o := old(RunTick(Cfg(), Initialize(Cfg(), d), Incoming()));
              o.cons.pc.Retiring? && View(o.cons.pc, caller) == o.cons && Incoming() == o.incoming
    {
      Reset();
      tickEvent := true;
      assert BeginFetch(Cfg(), View(Idle, caller)) == Initialize(Cfg(), d);
      Tick(caller);
    }

    // startUp; `ok` is false where initCPUState aborts.
    method StartUp(ghost caller: Caller) returns (ok: bool)
      requires NonEmpty(Incoming()) && Counted() && fetchBuffer == []
      requires RunStartUp(Cfg(), View(Initializing, caller), Incoming()).Returned?
      modifies this, process`isCompleted, queue
      ensures NonEmpty(Incoming()) && Counted() && fetchBuffer == []
      ensures var o := old(RunStartUp(Cfg(), View(Initializing, caller), Incoming()));
              && (ok <==> !o.cons.pc.Aborted?) && (ok ==> o.cons.pc.Retiring?)
              && View(o.cons.pc, caller) == o.cons && Incoming() == o.incoming
    {
      ghost var c, incoming := View(Initializing, caller), Incoming();
      StartUpBegins(Cfg(), c, incoming);
      ok := InitCPUState(caller);
      if ok {
        FirstTick(Waited(c, incoming), caller);
      }
    }

    method HandleStartUpEvent() returns (ok: bool)
      requires startupEvent && NonEmpty(Incoming()) && Counted() && fetchBuffer == []
      requires RunHandler(Cfg(), FireStartup(View(Idle, StartUpHandler)), Incoming()).Returned?
      modifies this, process`isCompleted, queue
      ensures NonEmpty(Incoming()) && Counted() && fetchBuffer == []
      ensures var o := old(RunHandler(Cfg(), FireStartup(View(Idle, StartUpHandler)), Incoming()));
              && View(if ok then Idle else Aborted, StartUpHandler) == o.cons && Incoming() == o.incoming
    {
      HandlerIsStartUp(Cfg(), FireStartup(View(Idle, StartUpHandler)), Incoming());
      startupEvent := false;
      ok := StartUp(StartUpHandler);
    }

    method HandleTickEvent()
      requires tickEvent && NonEmpty(Incoming()) && Counted() && fetchBuffer == []
      requires RunHandler(Cfg(), FireTick(Cfg(), View(Idle, TickHandler)), Incoming()).Returned?
      modifies this, process`isCompleted, queue
      ensures NonEmpty(Incoming()) && Counted() && fetchBuffer == []
      ensures var o := old(RunHandler(Cfg(), FireTick(Cfg(), View(Idle, TickHandler)), Incoming()));
              View(Idle, TickHandler) == o.cons && Incoming() == o.incoming
    {
      ghost var c := FireTick(Cfg(), View(Idle, TickHandler));
      HandlerIsTick(Cfg(), c, Incoming());
      tickEvent := true;
      cycle := cycle + 1;
      assert BeginFetch(Cfg(), View(Idle, TickHandler)) == c;
      Tick(TickHandler);
    }

    // What the next poll of the channel delivers to a monitor that makes it.
    ghost function Arriving(): seq<Batch>
      reads this, queue
    {
      if (status.Inactive? || status.BlockedSyscall?) && queue.polls != [] && queue.polls[0].Some?
      then [queue.polls[0].value] else []
    }

    ghost function AfterPoll(): seq<Batch>
      reads this, queue
    {
      if Arriving() == [] then Incoming() else Incoming()[1..]
    }

    // A monitor that has received a batch starts the hart up, and sets its status again afterwards.
    method StartWoken() returns (ok: bool)
      requires NonEmpty(Incoming()) && Counted() && fetchBuffer == []
      requires RunHandler(Cfg(), View(Initializing, MonitorHandler), Incoming()).Returned?
      modifies this, process`isCompleted, queue
      ensures NonEmpty(Incoming()) && Counted() && fetchBuffer == []
      ensures var o := old(RunHandler(Cfg(), View(Initializing, MonitorHandler), Incoming()));
              && View(if ok then Idle else Aborted, MonitorHandler) == o.cons && Incoming() == o.incoming
    {
      HandlerIsStartUp(Cfg(), View(Initializing, MonitorHandler), Incoming());
      ok := StartUp(MonitorHandler);
      if ok {
        status := Active;
        monitorEvent := false;
        tickEvent := true;
      }
    }

    // The INACTIVE case when no batch has arrived.
    method FindNothing()
      requires status.Inactive? && monitorEvent
      modifies `status, `monitorEvent
      ensures View(Idle, MonitorHandler) == FireMonitor(old(View(Idle, MonitorHandler)), [])
      ensures if process.isCompleted then status.Completed? && !monitorEvent else status.Inactive? && monitorEvent
    {
      if process.isCompleted {
        status := Completed;
        monitorEvent := false;
      }
    }

    // The INACTIVE case of wakeUpMonitor.
    method WakeInactive() returns (ok: bool)
      requires status.Inactive? && monitorEvent && NonEmpty(Incoming()) && Counted() && fetchBuffer == []
      requires RunHandler(Cfg(), FireMonitor(View(Idle, MonitorHandler), Arriving()), AfterPoll()).Returned?
      modifies this, process`isCompleted, queue
      ensures NonEmpty(Incoming()) && Counted() && fetchBuffer == []
      ensures var o := old(RunHandler(Cfg(), FireMonitor(View(Idle, MonitorHandler), Arriving()), AfterPoll()));
              && View(if ok then Idle else Aborted, MonitorHandler) == o.cons && Incoming() == o.incoming
    {
      ghost var c, rest := FireMonitor(View(Idle, MonitorHandler), Arriving()), AfterPoll();
      ok := true;
      var taken := queue.TryTake();
      if taken {
        assert View(Initializing, MonitorHandler) == c;
        ok := StartWoken();
      } else {
        assert RunHandler(Cfg(), c, rest) == Returned(c, rest);
        FindNothing();
      }
    }

    // The BLOCKED_SYSCALL case.
    method WakeBlocked()
      requires status.BlockedSyscall? && monitorEvent && NonEmpty(Incoming())
      modifies this, queue
      ensures NonEmpty(Incoming()) && instret == old(instret) && retired == old(retired)
      ensures fetchBuffer == old(fetchBuffer)
      ensures View(Idle, MonitorHandler) == old(FireMonitor(View(Idle, MonitorHandler), Arriving()))
      ensures Incoming() == old(AfterPoll())
    {
      var taken := queue.TryTake();
      if taken {
        status := Active;
        monitorEvent := false;
        tickEvent := true;
      }
    }

    method WakeUpMonitor() returns (ok: bool)
      requires monitorEvent && NonEmpty(Incoming()) && Counted() && fetchBuffer == []
      requires RunHandler(Cfg(), FireMonitor(View(Idle, MonitorHandler), Arriving()), AfterPoll()).Returned?
      modifies this, process`isCompleted, queue
      ensures NonEmpty(Incoming()) && Counted() && fetchBuffer == []
      ensures var o := old(RunHandler(Cfg(), FireMonitor(View(Idle, MonitorHandler), Arriving()), AfterPoll()));
              && View(if ok then Idle else Aborted, MonitorHandler) == o.cons && Incoming() == o.incoming
    {
      ghost var c, rest := FireMonitor(View(Idle, MonitorHandler), Arriving()), AfterPoll();
      ok := true;
      match status {
        case Inactive => ok := WakeInactive();
        case BlockedSyscall =>
          assert RunHandler(Cfg(), c, rest) == Returned(c, rest);
          WakeBlocked();
        case _ =>
          assert RunHandler(Cfg(), c, rest) == Returned(c, rest);
      }
    }

    method HandleWakeUpMonitorEvent() returns (ok: bool)
      requires monitorEvent && NonEmpty(Incoming()) && Counted() && fetchBuffer == []
      requires RunHandler(Cfg(), FireMonitor(View(Idle, MonitorHandler), Arriving()), AfterPoll()).Returned?
      modifies this, process`isCompleted, queue
      ensures NonEmpty(Incoming()) && Counted() && fetchBuffer == []
      ensures var o := old(RunHandler(Cfg(), FireMonitor(View(Idle, MonitorHandler), Arriving()), AfterPoll()));
              && View(if ok then Idle else Aborted, MonitorHandler) == o.cons && Incoming() == o.incoming
    {
      monitorEvent := true;
      ok := WakeUpMonitor();
    }
  }
}
