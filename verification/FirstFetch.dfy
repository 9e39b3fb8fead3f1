/** A hart that its monitor starts fetches once before the monitor sets its status to active. Whether it ever sleeps
    again depends on whether that one fetch reads the last event, and that can be told from the script. */
module FirstFetch {
  import opened Events
  import Producer
  import Consumer
  import opened Pipeline
  import opened Streams

  /* The condition on the script */

  // Does the process publish system calls, and does the guest make one among the first n operations?
  ghost predicate PublishesSyscall(cfg: Config, n: nat) {
    cfg.maxHarts > 1 && exists i :: 0 <= i < n && i < |cfg.script| && cfg.script[i].Syscall?
  }

  // The first n instructions follow one another inside the window of a fetch that starts at the first.
  ghost predicate InOneWindow(es: seq<CacheEntry>, width: nat, n: nat)
    requires n <= |es|
  {
    forall i :: 0 <= i < n ==>
      && es[i].pc < AddAddr(es[0].pc, width)
      && AddAddr(es[i].pc, es[i].len) <= AddAddr(es[0].pc, width)
      && (i > 0 ==> es[i].pc == AddAddr(es[i - 1].pc, es[i - 1].len))
  }

  /** The whole stream is read by one fetch: no system call is published, and all instructions are in one window. */
  ghost predicate ReadAtOnce(cfg: Config) {
    var es := Executed(cfg);
    es != [] && !PublishesSyscall(cfg, |cfg.script|) && InOneWindow(es, cfg.hart.fetchWidth, |es|)
  }

  /* System calls in the stream */

  ghost predicate SyscallsShow(cfg: Config, s: State) {
    PublishesSyscall(cfg, s.next) <==> |Insts(Producer.Published(s.prod))| < |Producer.Published(s.prod)|
  }

  lemma StreamGrows(cfg: Config, s: State, t: State, added: seq<Event>)
    requires SyscallsShow(cfg, s) && t.next == s.next + 1 <= |cfg.script|
    requires |added| <= 1 && Producer.Published(t.prod) == Producer.Published(s.prod) + added
    requires cfg.maxHarts > 1 && cfg.script[s.next].Syscall? <==> added != [] && !added[0].Insn?
    ensures SyscallsShow(cfg, t)
  {
    var stream := Producer.Published(s.prod);
    InstsConcat(stream, added);
    InstsBound(stream);
    assert added != [] ==> added[1..] == [];
    assert PublishesSyscall(cfg, t.next)
           <==> PublishesSyscall(cfg, s.next) || (cfg.maxHarts > 1 && cfg.script[s.next].Syscall?);
  }

  lemma GuestKeepsSyscalls(cfg: Config, s: State)
    requires SyscallsShow(cfg, s) && Enabled(cfg, s, GuestStep)
    ensures SyscallsShow(cfg, Apply(cfg, s, GuestStep))
  {
    var p, t := s.prod, Apply(cfg, s, GuestStep);
    match cfg.script[s.next] {
      case Exec(e) =>
        var ev := Insn(p.eventCounter, Producer.Resolve(p.last, e), false);
        Producer.PublishedAppend(p, false, ev);
        StreamGrows(cfg, s, t, if p.instCounter == 0 then [] else [ev]);
      case Syscall =>
        var ev := SyscallApi(p.eventCounter, false);
        Producer.PublishedAppend(p, true, ev);
        StreamGrows(cfg, s, t, if cfg.maxHarts > 1 then [ev] else []);
      case Exit =>
        var ev := Insn(p.eventCounter, p.last, true);
        Producer.PublishedAppend(p, true, ev);
        StreamGrows(cfg, s, t, [ev]);
    }
  }

  lemma {:induction false} AllInstructions(es: seq<Event>)
    ensures |Insts(es)| == |es| <==> forall i :: 0 <= i < |es| ==> es[i].Insn?
  {
    if es != [] {
      AllInstructions(es[1..]);
      InstsBound(es[1..]);
      assert forall i :: 1 <= i < |es| ==> es[i] == es[1..][i - 1];
    }
  }

  /* The walk of the first fetch through the stream */

  function NextPlace(es: seq<CacheEntry>, k: nat): Addr
    requires k <= |es| && es != []
  {
    if k == 0 then es[0].pc else AddAddr(es[k - 1].pc, es[k - 1].len)
  }

  // It has read the first k events, which are the first k instructions, all in its window.
  ghost predicate Walks(cfg: Config, c: Consumer.State)
    requires c.pc.Fetching?
  {
    var es, k := Executed(cfg), |c.popped|;
    && |Insts(c.popped)| == k < |es| && InOneWindow(es, cfg.hart.fetchWidth, k)
    && c.pc.limit == AddAddr(es[0].pc, cfg.hart.fetchWidth) && c.pc.cur == NextPlace(es, k)
  }

  // A hart up to the end of its start.
  ghost predicate StartRight(cfg: Config, c: Consumer.State) {
    && (c.pc.Initializing? ==> c.popped == [] && (c.caller.StartUpHandler? ==> cfg.hart.isBoot))
    && (c.status.Inactive? ==> c.popped == [] || (LastPopped(c) && !cfg.hart.isBoot))
    && (c.caller.MonitorHandler? && c.pc.Fetching? ==> Walks(cfg, c))
    && (c.caller.MonitorHandler? && c.pc.Retiring? ==> (LastPopped(c) <==> ReadAtOnce(cfg)))
  }

  ghost predicate FirstInv(cfg: Config, s: State) {
    Inv(cfg, s) && SyscallsShow(cfg, s) && StartRight(cfg, s.cons)
  }

  // A walk has not reached the end of the script.
  lemma WalkingIsNotLast(cfg: Config, s: State)
    requires WholeRun(cfg) && Inv(cfg, s) && |Insts(s.cons.popped)| < |Executed(cfg)|
    ensures !LastPopped(s.cons)
  {
    if LastPopped(s.cons) {
      LastIsFinal(cfg, s);
      WholeScriptDone(cfg, s);
    }
  }

  lemma WholeScriptDone(cfg: Config, s: State)
    requires WholeRun(cfg) && Inv(cfg, s) && Producer.Exited(Done(cfg, s))
    ensures s.next == |cfg.script| && Done(cfg, s) == cfg.script
    ensures |Insts(Producer.Published(s.prod))| == |Executed(cfg)|
  {
    assert cfg.script[s.next - 1].Exit?;
  }

  lemma InitializeStarts(cfg: Config, s: State)
    requires FirstInv(cfg, s) && s.cons.pc.Initializing? && !Consumer.AtEnd(s.cons)
    ensures StartRight(cfg, Consumer.Initialize(cfg.hart, s.cons))
  {
    NextEvent(cfg, s);
    if s.cons.buffer[s.cons.header].Insn? {
      PublishedPlace(cfg, s, 0);
    }
  }

  // The instruction a walk meets is the one at its place in the script.
  lemma WalkMeets(cfg: Config, s: State)
    requires Inv(cfg, s) && s.cons.pc.Fetching? && Walks(cfg, s.cons) && !Consumer.AtEnd(s.cons)
    ensures var ev, k := s.cons.buffer[s.cons.header], |s.cons.popped|;
            ev.Insn? ==> ev.inst.pc == Executed(cfg)[k].pc && ev.inst.len == Executed(cfg)[k].len
  {
    NextEvent(cfg, s);
    if s.cons.buffer[s.cons.header].Insn? {
      PublishedPlace(cfg, s, |s.cons.popped|);
    }
  }

  lemma WindowGrows(es: seq<CacheEntry>, width: nat, k: nat)
    requires k < |es| && InOneWindow(es, width, k)
    ensures InOneWindow(es, width, k + 1)
            <==> && es[k].pc == NextPlace(es, k) < AddAddr(es[0].pc, width)
                 && AddAddr(es[k].pc, es[k].len) <= AddAddr(es[0].pc, width)
  {
  }

  lemma WholeWindow(es: seq<CacheEntry>, width: nat, k: nat)
    requires k < |es|
    ensures InOneWindow(es, width, |es|) ==> es[k].pc == NextPlace(es, k) && InOneWindow(es, width, k + 1)
  {
  }

  // An instruction that does not fit ends the walk before the script does.
  lemma WalkStops(cfg: Config, s: State)
    requires Inv(cfg, s) && s.cons.pc.Fetching? && s.cons.pc.cur < s.cons.pc.limit && Walks(cfg, s.cons)
    requires !Consumer.AtEnd(s.cons) && s.cons.buffer[s.cons.header].Insn?
    requires !Consumer.Fits(s.cons.buffer[s.cons.header].inst, s.cons.pc.cur, s.cons.pc.limit)
    ensures !ReadAtOnce(cfg)
  {
    WalkMeets(cfg, s);
    WholeWindow(Executed(cfg), cfg.hart.fetchWidth, |s.cons.popped|);
  }

  lemma WalkGrows(cfg: Config, s: State)
    requires Inv(cfg, s) && s.cons.pc.Fetching? && s.cons.pc.cur < s.cons.pc.limit && Walks(cfg, s.cons)
    requires !Consumer.AtEnd(s.cons) && s.cons.buffer[s.cons.header].Insn?
    requires Consumer.Fits(s.cons.buffer[s.cons.header].inst, s.cons.pc.cur, s.cons.pc.limit)
    ensures var ev, c, es, k := s.cons.buffer[s.cons.header], s.cons, Executed(cfg), |s.cons.popped|;
            && |Insts(c.popped + [ev])| == k + 1 && InOneWindow(es, cfg.hart.fetchWidth, k + 1)
            && AddAddr(c.pc.cur, ev.inst.len) == NextPlace(es, k + 1)
  {
    var ev, c := s.cons.buffer[s.cons.header], s.cons;
    WalkMeets(cfg, s);
    WindowGrows(Executed(cfg), cfg.hart.fetchWidth, |c.popped|);
    InstsConcat(c.popped, [ev]);
    assert |Insts([ev])| == 1;
  }

  // Once the last event is popped, the walk has read the whole script.
  lemma WalkEnds(cfg: Config, t: State)
    requires WholeRun(cfg) && Inv(cfg, t) && SyscallsShow(cfg, t) && LastPopped(t.cons)
    requires var n := |t.cons.popped|;
             |Insts(t.cons.popped)| == n <= |Executed(cfg)| && InOneWindow(Executed(cfg), cfg.hart.fetchWidth, n)
    ensures ReadAtOnce(cfg)
  {
    LastIsFinal(cfg, t);
    WholeScriptDone(cfg, t);
  }

  lemma FittingStep(cfg: Config, c: Consumer.State)
    requires c.pc.Fetching? && c.pc.cur < c.pc.limit && !Consumer.AtEnd(c) && c.buffer[c.header].Insn?
    requires Consumer.Fits(c.buffer[c.header].inst, c.pc.cur, c.pc.limit)
    ensures var ev, d := c.buffer[c.header], Consumer.FetchStep(cfg.hart, c);
            && d.popped == c.popped + [ev] && (d.pc.Fetching? <==> !ev.isLast)
            && (!ev.isLast ==> d.pc.cur == AddAddr(c.pc.cur, ev.inst.len) && d.pc.limit == c.pc.limit)
  {
  }

  // An instruction that fits takes the walk further, to the end of the script only if it is the last.
  lemma WalkFits(cfg: Config, s: State)
    requires WholeRun(cfg) && FirstInv(cfg, s) && Enabled(cfg, s, ProceedStep)
    requires s.cons.pc.Fetching? && s.cons.pc.cur < s.cons.pc.limit && Walks(cfg, s.cons)
    requires s.cons.buffer[s.cons.header].Insn?
    requires Consumer.Fits(s.cons.buffer[s.cons.header].inst, s.cons.pc.cur, s.cons.pc.limit)
    ensures var ev, d := s.cons.buffer[s.cons.header], Consumer.FetchStep(cfg.hart, s.cons);
            if ev.isLast then LastPopped(d) && ReadAtOnce(cfg) else Walks(cfg, d)
  {
    var t := Apply(cfg, s, ProceedStep);
    WalkGrows(cfg, s);
    FittingStep(cfg, s.cons);
    FetchKeepsInv(cfg, s);
    if LastPopped(t.cons) {
      WalkEnds(cfg, t);
    } else {
      InstructionsRemain(cfg, t);
    }
  }

  // A walk goes on, or ends, as it should.
  lemma WalkStep(cfg: Config, s: State)
    requires WholeRun(cfg) && FirstInv(cfg, s) && Enabled(cfg, s, ProceedStep)
    requires s.cons.pc.Fetching? && s.cons.pc.cur < s.cons.pc.limit && Walks(cfg, s.cons)
    ensures var d := Consumer.FetchStep(cfg.hart, s.cons);
            if d.pc.Fetching? then Walks(cfg, d) else LastPopped(d) <==> ReadAtOnce(cfg)
  {
    var c := s.cons;
    var ev := c.buffer[c.header];
    UnreadPublished(cfg, s);
    if !ev.Insn? {
      SyscallShows(cfg, s, |c.popped|);
    } else if Consumer.Fits(ev.inst, c.pc.cur, c.pc.limit) {
      WalkFits(cfg, s);
      FittingStep(cfg, c);
    } else {
      WalkingIsNotLast(cfg, s);
      WalkStops(cfg, s);
    }
  }

  // A published system call comes from the script.
  lemma SyscallShows(cfg: Config, s: State, k: nat)
    requires Inv(cfg, s) && SyscallsShow(cfg, s)
    requires k < |Producer.Published(s.prod)| && !Producer.Published(s.prod)[k].Insn?
    ensures PublishesSyscall(cfg, |cfg.script|)
  {
    AllInstructions(Producer.Published(s.prod));
    InstsBound(Producer.Published(s.prod));
  }

  lemma FetchKeepsStart(cfg: Config, s: State)
    requires WholeRun(cfg) && FirstInv(cfg, s) && Enabled(cfg, s, ProceedStep)
    requires s.cons.pc.Fetching? && s.cons.pc.cur < s.cons.pc.limit
    ensures StartRight(cfg, Consumer.FetchStep(cfg.hart, s.cons))
  {
    UnreadPublished(cfg, s);
    if s.cons.caller.MonitorHandler? {
      WalkStep(cfg, s);
    }
  }

  // The window ends before the script does.
  lemma WindowEnds(cfg: Config, s: State)
    requires WholeRun(cfg) && FirstInv(cfg, s)
    requires s.cons.pc.Fetching? && s.cons.pc.cur >= s.cons.pc.limit && Walks(cfg, s.cons)
    ensures !LastPopped(s.cons) && !ReadAtOnce(cfg)
  {
    WalkingIsNotLast(cfg, s);
    WholeWindow(Executed(cfg), cfg.hart.fetchWidth, |s.cons.popped|);
  }

  lemma RetireKeepsStart(cfg: Config, c: Consumer.State)
    requires StartRight(cfg, c) && Consumer.HandlerAgrees(cfg.hart, c) && c.pc.Retiring?
    ensures StartRight(cfg, Consumer.EndHandler(Consumer.Retire(c, c.pc.package)))
  {
    RetireReadsNothing(c);
  }

  lemma WindowKeepsStart(cfg: Config, s: State)
    requires WholeRun(cfg) && FirstInv(cfg, s) && s.cons.pc.Fetching? && s.cons.pc.cur >= s.cons.pc.limit
    ensures StartRight(cfg, s.cons.(pc := Consumer.Retiring(s.cons.pc.package)))
  {
    if s.cons.caller.MonitorHandler? {
      WindowEnds(cfg, s);
    }
  }

  lemma ProceedKeepsStart(cfg: Config, s: State)
    requires WholeRun(cfg) && FirstInv(cfg, s) && Enabled(cfg, s, ProceedStep)
    ensures StartRight(cfg, Consumer.Proceed(cfg.hart, s.cons))
  {
    match s.cons.pc {
      case Initializing => InitializeStarts(cfg, s);
      case Fetching(cur, limit, _) =>
        if cur < limit {
          FetchKeepsStart(cfg, s);
        } else {
          WindowKeepsStart(cfg, s);
        }
      case Retiring(_) => RetireKeepsStart(cfg, s.cons);
    }
  }

  lemma MonitorKeepsStart(cfg: Config, s: State)
    requires FirstInv(cfg, s) && Enabled(cfg, s, MonitorStep)
    ensures StartRight(cfg, Apply(cfg, s, MonitorStep).cons)
  {
    if LastPopped(s.cons) {
      LastIsFinal(cfg, s);
    }
  }

  lemma StepKeepsSyscalls(cfg: Config, s: State, step: Step)
    requires SyscallsShow(cfg, s) && Enabled(cfg, s, step)
    ensures SyscallsShow(cfg, Apply(cfg, s, step))
  {
    match step {
      case GuestStep => GuestKeepsSyscalls(cfg, s);
      case SendStep => Producer.SettledPublishesTheSame(s.prod);
      case _ => assert Apply(cfg, s, step).prod == s.prod;
    }
  }

  // Events of the hart itself, and what only touches its batch.
  lemma FireKeepsStart(cfg: Config, c: Consumer.State)
    requires StartRight(cfg, c)
    ensures StartRight(cfg, c.(processCompleted := true))
    ensures c.pc.Idle? && c.startupEvent && Consumer.StatusAgrees(cfg.hart, c)
            ==> StartRight(cfg, Consumer.FireStartup(c))
    ensures StartRight(cfg, Consumer.FireTick(cfg.hart, c))
    ensures forall b :: StartRight(cfg, Consumer.LoadBatch(c, b))
  {
  }

  lemma StepKeepsFirst(cfg: Config, s: State, step: Step)
    requires WholeRun(cfg) && FirstInv(cfg, s) && Enabled(cfg, s, step)
    ensures FirstInv(cfg, Apply(cfg, s, step))
  {
    StepKeepsInv(cfg, s, step);
    StepKeepsSyscalls(cfg, s, step);
    FireKeepsStart(cfg, s.cons);
    match step {
      case MonitorStep => MonitorKeepsStart(cfg, s);
      case ProceedStep => ProceedKeepsStart(cfg, s);
      case _ =>
    }
  }

  lemma {:induction false} RunKeepsFirst(cfg: Config, trace: seq<State>, steps: seq<Step>, i: nat)
    requires WholeRun(cfg) && IsRun(cfg, trace, steps) && i < |trace|
    ensures FirstInv(cfg, trace[i])
  {
    if i == 0 {
      InitialInv(cfg);
    } else {
      RunKeepsFirst(cfg, trace, steps, i - 1);
      StepKeepsFirst(cfg, trace[i - 1], steps[i - 1]);
    }
  }

  /** The fetch of a start from the monitor ends with the last event read exactly when the script can be read at
      once. */
  lemma FirstFetchReadsAll(cfg: Config, trace: seq<State>, steps: seq<Step>, i: nat)
    requires WholeRun(cfg) && IsRun(cfg, trace, steps) && i < |trace|
    requires trace[i].cons.pc.Retiring? && trace[i].cons.caller.MonitorHandler?
    ensures LastPopped(trace[i].cons) <==> ReadAtOnce(cfg)
  {
    RunKeepsFirst(cfg, trace, steps, i);
  }

  /* After the last event */

  // The hart looks active, but its stream has ended.
  predicate Dozing(cfg: Config, s: State) {
    && s.next == |cfg.script| && !s.prod.sending && s.queue == []
    && Consumer.AtEnd(s.cons) && s.cons.status.Active?
    && s.cons.tickEvent && !s.cons.monitorEvent && !s.cons.startupEvent
    && (s.cons.pc.Idle? || (!s.cons.caller.MonitorHandler? && (s.cons.pc.Fetching? || s.cons.pc.Retiring?)))
  }

  lemma StepKeepsDozing(cfg: Config, s: State, step: Step)
    requires Dozing(cfg, s) && Enabled(cfg, s, step)
    ensures Dozing(cfg, Apply(cfg, s, step))
  {
  }

  lemma DozingReadsNothing(cfg: Config, s: State, step: Step)
    requires Dozing(cfg, s) && Enabled(cfg, s, step)
    ensures Apply(cfg, s, step).cons.popped == s.cons.popped
  {
  }

  predicate Asleep(cfg: Config, c: Consumer.State) {
    c.status.Completed? || (c.status.Inactive? && !cfg.hart.isBoot)
  }

  // The start from the monitor of a hart whose stream can be read at once.
  predicate InStart(c: Consumer.State) {
    || (c.pc.Idle? && c.popped == [] && (c.status.Inactive? || c.status.Completed?))
    || c.pc.Initializing? || c.pc.Aborted? || (c.caller.MonitorHandler? && c.pc.Fetching?)
  }

  ghost predicate EndRight(cfg: Config, s: State) {
    if !cfg.hart.isBoot && ReadAtOnce(cfg) then
      if LastPopped(s.cons) then (s.cons.pc.Retiring? && s.cons.caller.MonitorHandler?) || Dozing(cfg, s)
      else InStart(s.cons)
    else LastPopped(s.cons) ==> Asleep(cfg, s.cons)
  }

  predicate Ended(cfg: Config, s: State) {
    s.next == |cfg.script| && !s.prod.sending && s.queue == [] && Consumer.AtEnd(s.cons)
  }

  lemma LastEnds(cfg: Config, s: State)
    requires WholeRun(cfg) && Inv(cfg, s)
    ensures LastPopped(s.cons) ==> Ended(cfg, s)
  {
    if LastPopped(s.cons) {
      LastIsFinal(cfg, s);
      WholeScriptDone(cfg, s);
    }
  }

  // At the end of a handler: only a start that read the last event leaves the hart awake after it.
  lemma RetireKeepsEnd(cfg: Config, s: State)
    requires EndRight(cfg, s) && s.cons.pc.Retiring? && !Dozing(cfg, s)
    requires StartRight(cfg, s.cons) && Consumer.HandlerAgrees(cfg.hart, s.cons)
    requires LastPopped(s.cons) ==> Ended(cfg, s)
    ensures EndRight(cfg, Apply(cfg, s, ProceedStep))
  {
    RetireReadsNothing(s.cons);
  }

  lemma RetireReadsNothing(c: Consumer.State)
    requires c.pc.Retiring?
    ensures var d := Consumer.EndHandler(Consumer.Retire(c, c.pc.package));
            && d.popped == c.popped && d.buffer == c.buffer && d.header == c.header && d.pc.Idle?
            && d.startupEvent == c.startupEvent
            && if c.caller.MonitorHandler? then d.status.Active? && d.tickEvent && !d.monitorEvent
               else d.status == c.status && d.tickEvent == c.tickEvent && d.monitorEvent == c.monitorEvent
  {
  }

  // A fetch that reads the last event leaves the hart asleep, for the time being.
  lemma FetchKeepsAsleep(cfg: Config, c: Consumer.State)
    requires c.pc.Fetching? && Consumer.CanProceed(c) && !LastPopped(c)
    ensures var d := Consumer.Proceed(cfg.hart, c);
            && d.caller == c.caller && (d.pc.Fetching? || d.pc.Retiring?)
            && (LastPopped(d) ==> Asleep(cfg, d) && d.pc.Retiring?)
  {
    if c.pc.cur < c.pc.limit {
      var ev, d := c.buffer[c.header], Consumer.FetchStep(cfg.hart, c);
      if ev.isLast {
        assert d.popped != c.popped ==> Asleep(cfg, d) && d.pc.Retiring?;
      } else {
        assert d.popped == c.popped || d.popped == c.popped + [ev];
      }
    }
  }

  lemma FetchKeepsEnd(cfg: Config, s: State, d: Consumer.State)
    requires EndRight(cfg, s) && !Dozing(cfg, s) && s.cons.pc.Fetching? && !LastPopped(s.cons)
    requires d.caller == s.cons.caller && (d.pc.Fetching? || d.pc.Retiring?)
    requires LastPopped(d) ==> Asleep(cfg, d) && d.pc.Retiring?
    requires !cfg.hart.isBoot && ReadAtOnce(cfg) && s.cons.caller.MonitorHandler? ==> d.pc.Fetching? || LastPopped(d)
    ensures EndRight(cfg, s.(cons := d))
  {
  }

  // The first fetch of a script that can be read at once goes on until it has read the last event.
  lemma FirstFetchGoesOn(cfg: Config, s: State)
    requires WholeRun(cfg) && FirstInv(cfg, s) && Enabled(cfg, s, ProceedStep) && s.cons.pc.Fetching?
    requires ReadAtOnce(cfg) && s.cons.caller.MonitorHandler?
    ensures var d := Consumer.Proceed(cfg.hart, s.cons); d.pc.Fetching? || LastPopped(d)
  {
    if s.cons.pc.cur < s.cons.pc.limit {
      WalkStep(cfg, s);
    } else {
      WindowEnds(cfg, s);
    }
  }

  lemma MonitorKeepsEnd(cfg: Config, s: State)
    requires EndRight(cfg, s) && Enabled(cfg, s, MonitorStep) && !Dozing(cfg, s)
    requires Consumer.StatusAgrees(cfg.hart, s.cons) && (LastPopped(s.cons) ==> Ended(cfg, s))
    ensures EndRight(cfg, Apply(cfg, s, MonitorStep))
  {
  }

  // The other events of the hart, when it is not dozing.
  lemma FireKeepsEnd(cfg: Config, s: State, step: Step)
    requires EndRight(cfg, s) && Enabled(cfg, s, step) && !Dozing(cfg, s)
    requires Consumer.Inv(cfg.hart, s.cons) && StartRight(cfg, s.cons)
    requires step.StartupStep? || step.TickStep? || step.TakeStep?
    ensures EndRight(cfg, Apply(cfg, s, step))
  {
  }

  lemma InitializeKeepsEnd(cfg: Config, s: State)
    requires EndRight(cfg, s) && Enabled(cfg, s, ProceedStep) && s.cons.pc.Initializing?
    requires StartRight(cfg, s.cons) && Consumer.HandlerAgrees(cfg.hart, s.cons)
    ensures EndRight(cfg, Apply(cfg, s, ProceedStep))
  {
  }

  lemma StepKeepsEnd(cfg: Config, s: State, step: Step)
    requires WholeRun(cfg) && FirstInv(cfg, s) && EndRight(cfg, s) && Enabled(cfg, s, step)
    ensures EndRight(cfg, Apply(cfg, s, step))
  {
    LastEnds(cfg, s);
    if Dozing(cfg, s) {
      StepKeepsDozing(cfg, s, step);
      DozingReadsNothing(cfg, s, step);
    } else {
      match step {
        case ProceedStep =>
          if s.cons.pc.Retiring? {
            RetireKeepsEnd(cfg, s);
          } else if s.cons.pc.Fetching? {
            if ReadAtOnce(cfg) && s.cons.caller.MonitorHandler? {
              FirstFetchGoesOn(cfg, s);
            }
            FetchKeepsAsleep(cfg, s.cons);
            FetchKeepsEnd(cfg, s, Consumer.Proceed(cfg.hart, s.cons));
          } else {
            InitializeKeepsEnd(cfg, s);
          }
        case MonitorStep => MonitorKeepsEnd(cfg, s);
        case StartupStep => FireKeepsEnd(cfg, s, step);
        case TickStep => FireKeepsEnd(cfg, s, step);
        case TakeStep => FireKeepsEnd(cfg, s, step);
        case _ =>
      }
    }
  }

  lemma {:induction false} RunKeepsEnd(cfg: Config, trace: seq<State>, steps: seq<Step>, i: nat)
    requires WholeRun(cfg) && IsRun(cfg, trace, steps) && i < |trace|
    ensures EndRight(cfg, trace[i])
  {
    if i > 0 {
      RunKeepsEnd(cfg, trace, steps, i - 1);
      RunKeepsFirst(cfg, trace, steps, i - 1);
      StepKeepsEnd(cfg, trace[i - 1], steps[i - 1]);
    }
  }

  /** A hart that has read its last event sleeps between handlers, the boot hart completed and any other inactive or
      completed, unless it was started by its monitor and its script can be read at once; then, and only then, it is
      active. */
  lemma SleepsExactlyUnless(cfg: Config, trace: seq<State>, steps: seq<Step>, i: nat)
    requires WholeRun(cfg) && IsRun(cfg, trace, steps) && i < |trace|
    requires LastPopped(trace[i].cons) && trace[i].cons.pc.Idle?
    ensures Asleep(cfg, trace[i].cons) <==> cfg.hart.isBoot || !ReadAtOnce(cfg)
    ensures trace[i].cons.status.Active? <==> !cfg.hart.isBoot && ReadAtOnce(cfg)
  {
    RunKeepsEnd(cfg, trace, steps, i);
  }

  /** Such a hart stays active for ever, with no event left to come. */
  lemma {:induction false} StaysActive(cfg: Config, trace: seq<State>, steps: seq<Step>, i: nat, j: nat)
    requires WholeRun(cfg) && IsRun(cfg, trace, steps) && i <= j < |trace|
    requires !cfg.hart.isBoot && ReadAtOnce(cfg) && LastPopped(trace[i].cons) && trace[i].cons.pc.Idle?
    ensures Dozing(cfg, trace[j])
    decreases j - i
  {
    if i == j {
      RunKeepsEnd(cfg, trace, steps, i);
    } else {
      StaysActive(cfg, trace, steps, i, j - 1);
      StepKeepsDozing(cfg, trace[j - 1], steps[j - 1]);
    }
  }
}
