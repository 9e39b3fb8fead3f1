/** Whole handlers of one hart, run against the batches that the channel will deliver, and what one
    fetch makes of the stream. */
module Handlers {
  import opened Events
  import opened Consumer
  import Pipeline

  // A handler returns, leaving the batches it did not take, or waits for a batch that never comes.
  datatype Outcome = Starved | Returned(cons: State, incoming: seq<Batch>)

  function Remaining(c: State): nat {
    if AtEnd(c) then 0 else |c.buffer| - c.header
  }

  // generateFetchRequest from its loop test on, up to the package it leaves behind.
  function RunFetch(cfg: Config, c: State, incoming: seq<Batch>): Outcome
    requires c.pc.Fetching? || c.pc.Retiring?
    decreases |incoming|, Remaining(c), c.pc.Fetching?
  {
    if c.pc.Retiring? then Returned(c, incoming)
    else if c.pc.cur >= c.pc.limit then Returned(c.(pc := Retiring(c.pc.package)), incoming)
    else if !AtEnd(c) then RunFetch(cfg, FetchStep(cfg, c), incoming)
    else if incoming == [] then Starved
    else RunFetch(cfg, LoadBatch(c, incoming[0]), incoming[1..])
  }

  function Stage(pc: Pc): nat {
    match pc
    case Initializing => 3
    case Fetching(_, _, _) => 2
    case Retiring(_) => 1
    case _ => 0
  }

  // Within a handler, each step reads an event or goes on to a later stage.
  lemma ProceedDescends(cfg: Config, c: State)
    requires CanProceed(c)
    ensures var d := Proceed(cfg, c);
            Remaining(d) < Remaining(c) || (Remaining(d) == Remaining(c) && Stage(d.pc) < Stage(c.pc))
  {
    if c.pc.Retiring? {
      var r := Retire(c, c.pc.package);
      assert r.buffer == c.buffer && r.header == c.header;
    }
  }

  // Any handler from any point inside it, up to its end.
  function RunHandler(cfg: Config, c: State, incoming: seq<Batch>): Outcome
    decreases |incoming|, Remaining(c), Stage(c.pc)
  {
    if c.pc.Idle? || c.pc.Aborted? then Returned(c, incoming)
    else if CanProceed(c) then
      ProceedDescends(cfg, c);
      RunHandler(cfg, Proceed(cfg, c), incoming)
    else if incoming == [] then Starved
    else RunHandler(cfg, LoadBatch(c, incoming[0]), incoming[1..])
  }

  // A tick is its fetch, then one retirement, then the end of its handler.
  lemma {:induction false} HandlerFromFetch(cfg: Config, c: State, incoming: seq<Batch>)
    requires c.pc.Fetching? || c.pc.Retiring?
    ensures match RunFetch(cfg, c, incoming)
            case Starved => RunHandler(cfg, c, incoming).Starved?
            case Returned(d, rest) =>
              d.pc.Retiring? && RunHandler(cfg, c, incoming) == Returned(EndHandler(Retire(d, d.pc.package)), rest)
    decreases |incoming|, Remaining(c), c.pc.Fetching?
  {
    if c.pc.Retiring? {
      var d := EndHandler(Retire(c, c.pc.package));
      assert RunHandler(cfg, d, incoming) == Returned(d, incoming);
    } else if c.pc.cur >= c.pc.limit {
      HandlerFromFetch(cfg, c.(pc := Retiring(c.pc.package)), incoming);
    } else {
      if !AtEnd(c) {
        HandlerFromFetch(cfg, FetchStep(cfg, c), incoming);
      } else if incoming != [] {
        HandlerFromFetch(cfg, LoadBatch(c, incoming[0]), incoming[1..]);
      }
    }
  }

  // tick() after its fetch has begun, up to but not including the end of the handler that called it.
  function RunTick(cfg: Config, c: State, incoming: seq<Batch>): Outcome
    requires c.pc.Fetching?
  {
    match RunFetch(cfg, c, incoming)
    case Starved => Starved
    case Returned(d, rest) =>
      if d.pc.Retiring? then Returned(Retire(d, d.pc.package), rest) else Starved
  }

  // startUp(), likewise.
  function RunStartUp(cfg: Config, c: State, incoming: seq<Batch>): Outcome
    requires c.pc.Initializing?
    decreases |incoming|
  {
    if !AtEnd(c) then
      var d := Initialize(cfg, c);
      if d.pc.Aborted? then Returned(d, incoming) else RunTick(cfg, d, incoming)
    else if incoming == [] then Starved
    else RunStartUp(cfg, LoadBatch(c, incoming[0]), incoming[1..])
  }

  // The hart, and the batches still to come, once it has an event to look at.
  function Waited(c: State, incoming: seq<Batch>): State {
    if AtEnd(c) && incoming != [] then LoadBatch(c, incoming[0]) else c
  }

  function StillToCome(c: State, incoming: seq<Batch>): seq<Batch> {
    if AtEnd(c) && incoming != [] then incoming[1..] else incoming
  }

  // A start that waits for one batch at most begins its tick on the first event.
  lemma StartUpBegins(cfg: Config, c: State, incoming: seq<Batch>)
    requires c.pc.Initializing? && (AtEnd(c) ==> incoming != [] && incoming[0] != [])
    ensures var d, rest := Waited(c, incoming), StillToCome(c, incoming);
            RunStartUp(cfg, c, incoming)
            == if d.buffer[d.header].Insn? then RunTick(cfg, Initialize(cfg, d), rest)
               else Returned(d.(pc := Aborted), rest)
  {
  }

  function EndOf(o: Outcome): Outcome {
    match o
    case Starved => Starved
    case Returned(d, rest) => if d.pc.Aborted? then o else Returned(EndHandler(d), rest)
  }

  lemma HandlerIsTick(cfg: Config, c: State, incoming: seq<Batch>)
    requires c.pc.Fetching?
    ensures RunHandler(cfg, c, incoming) == EndOf(RunTick(cfg, c, incoming))
  {
    HandlerFromFetch(cfg, c, incoming);
  }

  lemma {:induction false} HandlerIsStartUp(cfg: Config, c: State, incoming: seq<Batch>)
    requires c.pc.Initializing?
    ensures RunHandler(cfg, c, incoming) == EndOf(RunStartUp(cfg, c, incoming))
    decreases |incoming|
  {
    if !AtEnd(c) {
      var d := Initialize(cfg, c);
      if d.pc.Aborted? {
        assert RunHandler(cfg, d, incoming) == Returned(d, incoming);
      } else {
        HandlerIsTick(cfg, d, incoming);
      }
    } else if incoming != [] {
      HandlerIsStartUp(cfg, LoadBatch(c, incoming[0]), incoming[1..]);
    }
  }

  /* Interleaved handlers */

  // The batches the hart takes in the steps from i to j of a run.
  function Taken(trace: seq<Pipeline.State>, steps: seq<Pipeline.Step>, i: nat, j: nat): seq<Batch>
    requires i <= j <= |steps| < |trace|
    requires forall k :: i <= k < j && steps[k].TakeStep? ==> trace[k].queue != []
    decreases j - i
  {
    if i == j then []
    else (if steps[i].TakeStep? then [trace[i].queue[0]] else []) + Taken(trace, steps, i + 1, j)
  }

  function Flagged(o: Outcome, completed: bool): Outcome {
    match o
    case Starved => Starved
    case Returned(d, rest) => Returned(Mark(d, completed), rest)
  }

  function Mark(c: State, completed: bool): State {
    c.(processCompleted := completed)
  }

  // Within a handler, a hart that does not boot its process neither reads nor sets the process's completion flag.
  lemma PopIgnoresFlag(cfg: Config, c: State, ev: Event, completed: bool)
    requires !cfg.isBoot
    ensures PopEvent(cfg, Mark(c, completed), ev) == Mark(PopEvent(cfg, c, ev), completed)
  {
  }

  lemma SyscallIgnoresFlag(c: State, completed: bool)
    ensures OnSyscall(Mark(c, completed)) == Mark(OnSyscall(c), completed)
  {
  }

  lemma InsnIgnoresFlag(cfg: Config, c: State, completed: bool)
    requires !cfg.isBoot && c.pc.Fetching? && c.pc.cur < c.pc.limit && !AtEnd(c) && c.buffer[c.header].Insn?
    ensures FetchStep(cfg, Mark(c, completed)) == Mark(FetchStep(cfg, c), completed)
  {
    var ev := c.buffer[c.header];
    if Fits(ev.inst, c.pc.cur, c.pc.limit) {
      PopIgnoresFlag(cfg, c, ev, completed);
    }
  }

  lemma ApiIgnoresFlag(cfg: Config, c: State, completed: bool)
    requires !cfg.isBoot && c.pc.Fetching? && c.pc.cur < c.pc.limit && !AtEnd(c) && !c.buffer[c.header].Insn?
    ensures FetchStep(cfg, Mark(c, completed)) == Mark(FetchStep(cfg, c), completed)
  {
    var ev := c.buffer[c.header];
    if ev.SyscallApi? {
      SyscallIgnoresFlag(c, completed);
      PopIgnoresFlag(cfg, OnSyscall(c), ev, completed);
    } else {
      PopIgnoresFlag(cfg, c, ev, completed);
    }
  }

  lemma RetireIgnoresFlag(c: State, package: seq<StaticInst>, completed: bool)
    ensures EndHandler(Retire(Mark(c, completed), package)) == Mark(EndHandler(Retire(c, package)), completed)
  {
    assert Retire(Mark(c, completed), package) == Mark(Retire(c, package), completed);
    EndIgnoresFlag(Retire(c, package), completed);
  }

  lemma EndIgnoresFlag(c: State, completed: bool)
    ensures EndHandler(Mark(c, completed)) == Mark(EndHandler(c), completed)
  {
  }

  lemma ProceedIgnoresFlag(cfg: Config, c: State, completed: bool)
    requires !cfg.isBoot && CanProceed(c)
    ensures Proceed(cfg, Mark(c, completed)) == Mark(Proceed(cfg, c), completed)
  {
    match c.pc {
      case Initializing =>
      case Fetching(cur, limit, _) =>
        if cur < limit {
          if c.buffer[c.header].Insn? {
            InsnIgnoresFlag(cfg, c, completed);
          } else {
            ApiIgnoresFlag(cfg, c, completed);
          }
        }
      case Retiring(package) => RetireIgnoresFlag(c, package, completed);
    }
  }

  lemma {:induction false} HandlerIgnoresFlag(cfg: Config, c: State, incoming: seq<Batch>, completed: bool)
    requires !cfg.isBoot
    ensures RunHandler(cfg, Mark(c, completed), incoming) == Flagged(RunHandler(cfg, c, incoming), completed)
    decreases |incoming|, Remaining(c), Stage(c.pc)
  {
    if c.pc.Idle? || c.pc.Aborted? {
    } else if CanProceed(c) {
      ProceedDescends(cfg, c);
      ProceedIgnoresFlag(cfg, c, completed);
      HandlerIgnoresFlag(cfg, Proceed(cfg, c), incoming, completed);
    } else if incoming != [] {
      assert LoadBatch(Mark(c, completed), incoming[0]) == Mark(LoadBatch(c, incoming[0]), completed);
      HandlerIgnoresFlag(cfg, LoadBatch(c, incoming[0]), incoming[1..], completed);
    }
  }

  /** A handler of an interleaved run, however the producer's steps and the end of the process fall between its own,
      does to the hart exactly what it does when run in one piece on the batches it takes, but for the completion flag
      that another hart of its process may set meanwhile. */
  lemma {:induction false} InterleavedHandler(
    cfg: Pipeline.Config, trace: seq<Pipeline.State>, steps: seq<Pipeline.Step>, i: nat, j: nat)
    requires Pipeline.IsRun(cfg, trace, steps) && i <= j <= |steps|
    requires forall k :: i <= k < j ==> !trace[k].cons.pc.Idle?
    requires trace[j].cons.pc.Idle? || trace[j].cons.pc.Aborted?
    ensures forall k :: i <= k < j && steps[k].TakeStep? ==> trace[k].queue != []
    ensures var o, d := RunHandler(cfg.hart, trace[i].cons, Taken(trace, steps, i, j)), trace[j].cons;
            Flagged(o, d.processCompleted) == Returned(d, []) && (cfg.hart.isBoot ==> o == Returned(d, []))
    decreases j - i
  {
    if i < j {
      InterleavedHandler(cfg, trace, steps, i + 1, j);
      assert Pipeline.Enabled(cfg, trace[i], steps[i]) && trace[i + 1] == Pipeline.Apply(cfg, trace[i], steps[i]);
      var c, rest := trace[i].cons, Taken(trace, steps, i + 1, j);
      if steps[i].TakeStep? {
        var incoming := [trace[i].queue[0]] + rest;
        assert incoming[1..] == rest;
        assert Taken(trace, steps, i, j) == incoming;
      } else {
        assert Taken(trace, steps, i, j) == rest;
        if steps[i].ProcessCompletes? {
          HandlerIgnoresFlag(cfg.hart, c, rest, true);
        }
      }
    }
  }

  /* The fetch package, as a function of the stream alone */

  // The instructions taken, how many events were popped, and whether the loop ended or waits for more.
  datatype Fetched = Fetched(package: seq<StaticInst>, popped: nat, complete: bool)

  function FetchFrom(cur: Addr, limit: Addr, es: seq<Event>): Fetched
    decreases |es|
  {
    if cur >= limit then Fetched([], 0, true)
    else if es == [] then Fetched([], 0, false)
    else if !es[0].Insn? then Fetched([], 1, true)
    else if !Fits(es[0].inst, cur, limit) then Fetched([], 0, true)
    else if es[0].isLast then Fetched([es[0].inst], 1, true)
    else
      var r := FetchFrom(AddAddr(cur, es[0].inst.len), limit, es[1..]);
      Fetched([es[0].inst] + r.package, r.popped + 1, r.complete)
  }

  function Stream(c: State, incoming: seq<Batch>): seq<Event> {
    Unread(c) + Flatten(incoming)
  }

  // The fetch of the hart is that of the stream, wherever the batches are cut.
  ghost predicate FetchMatches(o: Outcome, c: State, incoming: seq<Batch>, f: Fetched)
    requires c.pc.Fetching?
  {
    match o
    case Starved => !f.complete
    case Returned(d, rest) =>
      && f.complete && f.popped <= |Stream(c, incoming)|
      && d.pc == Retiring(c.pc.package + f.package)
      && d.popped == c.popped + Stream(c, incoming)[..f.popped]
      && Stream(d, rest) == Stream(c, incoming)[f.popped..]
  }

  lemma FetchStepStream(cfg: Config, c: State, incoming: seq<Batch>)
    requires c.pc.Fetching? && c.pc.cur < c.pc.limit && !AtEnd(c)
    ensures var d, ev, stream := FetchStep(cfg, c), c.buffer[c.header], Stream(c, incoming);
            && stream == [ev] + stream[1..]
            && (if d.header == c.header then d.popped == c.popped && Stream(d, incoming) == stream
                else d.popped == c.popped + [ev] && Stream(d, incoming) == stream[1..])
            && (d.pc.Fetching? <==> ev.Insn? && Fits(ev.inst, c.pc.cur, c.pc.limit) && !ev.isLast)
            && (d.header == c.header <==> ev.Insn? && !Fits(ev.inst, c.pc.cur, c.pc.limit))
            && (d.pc.Fetching? ==>
                  d.pc == Fetching(AddAddr(c.pc.cur, ev.inst.len), c.pc.limit, c.pc.package + [ev.inst]))
            && (!d.pc.Fetching? ==> d.pc == Retiring(c.pc.package +
                 if ev.Insn? && Fits(ev.inst, c.pc.cur, c.pc.limit) then [ev.inst] else []))
  {
    var d, ev := FetchStep(cfg, c), c.buffer[c.header];
    assert Unread(c) == [ev] + c.buffer[c.header + 1..];
    assert d.header == c.header + 1 ==> Unread(d) == c.buffer[c.header + 1..];
    assert Stream(c, incoming) == [ev] + (c.buffer[c.header + 1..] + Flatten(incoming));
  }

  lemma SliceCons<T>(x: T, s: seq<T>, n: nat)
    requires n <= |s|
    ensures ([x] + s)[..n + 1] == [x] + s[..n] && ([x] + s)[n + 1..] == s[n..]
  {
  }

  lemma FetchMatchesExtends(o: Outcome, c: State, d: State, incoming: seq<Batch>, ev: Event, f: Fetched)
    requires c.pc.Fetching? && d.pc.Fetching? && ev.Insn?
    requires d.pc.package == c.pc.package + [ev.inst] && d.popped == c.popped + [ev]
    requires Stream(c, incoming) == [ev] + Stream(d, incoming)
    requires FetchMatches(o, d, incoming, f)
    ensures FetchMatches(o, c, incoming, Fetched([ev.inst] + f.package, f.popped + 1, f.complete))
  {
    if o.Returned? {
      var later := Stream(d, incoming);
      SliceCons(ev, later, f.popped);
      Associate(c.popped, [ev], later[..f.popped]);
      Associate(c.pc.package, [ev.inst], f.package);
    }
  }

  // The step that leaves the loop.
  lemma FetchStops(cfg: Config, c: State, incoming: seq<Batch>)
    requires c.pc.Fetching? && c.pc.cur < c.pc.limit && !AtEnd(c) && !FetchStep(cfg, c).pc.Fetching?
    ensures FetchMatches(RunFetch(cfg, c, incoming), c, incoming, FetchFrom(c.pc.cur, c.pc.limit, Stream(c, incoming)))
  {
    var d, ev := FetchStep(cfg, c), c.buffer[c.header];
    FetchStepStream(cfg, c, incoming);
    assert RunFetch(cfg, d, incoming) == Returned(d, incoming);
    assert Stream(c, incoming)[..1] == [ev];
    assert c.pc.package + [] == c.pc.package;
  }

  lemma {:induction false} FetchIsOfStream(cfg: Config, c: State, incoming: seq<Batch>)
    requires c.pc.Fetching?
    ensures FetchMatches(RunFetch(cfg, c, incoming), c, incoming, FetchFrom(c.pc.cur, c.pc.limit, Stream(c, incoming)))
    decreases |incoming|, Remaining(c)
  {
    var stream := Stream(c, incoming);
    if c.pc.cur >= c.pc.limit {
      assert c.pc.package + [] == c.pc.package;
    } else if !AtEnd(c) {
      var d, ev := FetchStep(cfg, c), c.buffer[c.header];
      FetchStepStream(cfg, c, incoming);
      if d.pc.Fetching? {
        FetchIsOfStream(cfg, d, incoming);
        var f := FetchFrom(d.pc.cur, d.pc.limit, stream[1..]);
        FetchMatchesExtends(RunFetch(cfg, d, incoming), c, d, incoming, ev, f);
      } else {
        FetchStops(cfg, c, incoming);
      }
    } else if incoming == [] {
      assert stream == [];
    } else {
      assert Stream(LoadBatch(c, incoming[0]), incoming[1..]) == stream;
      FetchIsOfStream(cfg, LoadBatch(c, incoming[0]), incoming[1..]);
    }
  }

  // Each instruction of the package starts where the one before it ends, from `addr` to `end`.
  ghost predicate Contiguous(addr: int, p: seq<StaticInst>, end: int)
    decreases |p|
  {
    if p == [] then addr == end
    else p[0].pc == addr && p[0].len > 0 && Contiguous(addr + p[0].len, p[1..], end)
  }

  // Instructions have a length, and none reaches the end of the address space.
  ghost predicate InSpace(es: seq<Event>) {
    forall i :: 0 <= i < |es| && es[i].Insn? ==> 0 < es[i].inst.len < ADDR_SPACE - es[i].inst.pc
  }

  // Why a fetch that popped the first n events stopped at `cur`.
  ghost predicate FetchEnds(es: seq<Event>, n: nat, cur: int, limit: int)
    requires n <= |es|
  {
    || cur == limit
    || (n > 0 && (!es[n - 1].Insn? || es[n - 1].isLast))
    || (n < |es| && es[n].Insn? && (es[n].inst.pc != cur || cur + es[n].inst.len > limit))
  }

  lemma NoWrap(a: Addr, len: nat)
    requires a + len < ADDR_SPACE
    ensures AddAddr(a, len) == a + len
  {
  }

  /** One fetch, from any position in its window: the package starts at `cur` and is contiguous, it stays within the
      window, the events popped are the package and at most one API event after it, and a fetch that is
      complete stopped no earlier than it had to. It is complete once one event per byte of the window is available. */
  lemma {:induction false} FetchPackage(cur: Addr, limit: Addr, es: seq<Event>)
    requires cur <= limit && InSpace(es)
    ensures var f := FetchFrom(cur, limit, es);
            && |f.package| <= f.popped <= |f.package| + 1 && f.popped <= |es|
            && Insts(es[..f.popped]) == f.package
            && (f.popped > |f.package| ==> !es[f.popped - 1].Insn?)
            && (exists end :: cur <= end <= limit && Contiguous(cur, f.package, end)
                              && (f.complete ==> FetchEnds(es, f.popped, end, limit)))
            && (f.complete || (f.popped == |es| < limit - cur))
    decreases |es|
  {
    var f := FetchFrom(cur, limit, es);
    if cur >= limit || es == [] || !es[0].Insn? || !Fits(es[0].inst, cur, limit) {
      assert Contiguous(cur, f.package, cur);
      if cur < limit && es != [] {
        if es[0].Insn? {
          NoWrap(es[0].inst.pc, es[0].inst.len);
        }
        assert es[..1][1..] == [];
      }
      assert f.complete ==> FetchEnds(es, f.popped, cur, limit);
    } else {
      var inst, next := es[0].inst, AddAddr(cur, es[0].inst.len);
      NoWrap(cur, inst.len);
      if es[0].isLast {
        assert es[..1][1..] == [];
        assert Contiguous(next, [inst][1..], next) && Contiguous(cur, f.package, next);
        assert FetchEnds(es, 1, next, limit);
      } else {
        FetchPackage(next, limit, es[1..]);
        var g := FetchFrom(next, limit, es[1..]);
        var end :| next <= end <= limit && Contiguous(next, g.package, end)
                   && (g.complete ==> FetchEnds(es[1..], g.popped, end, limit));
        assert f.package[1..] == g.package && Contiguous(cur, f.package, end);
        assert es[..f.popped][1..] == es[1..][..g.popped];
        assert f.complete ==> FetchEnds(es, f.popped, end, limit);
      }
    }
  }

  /** Where the window of a fetch wraps around the end of the address space, the fetch loop does not run at all. */
  lemma WrappedWindowFetchesNothing(addr: Addr, size: nat, es: seq<Event>)
    requires size < ADDR_SPACE && addr + size >= ADDR_SPACE
    ensures FetchFrom(addr, AddAddr(addr, size), es) == Fetched([], 0, true)
  {
    assert AddAddr(addr, size) == addr + size - ADDR_SPACE;
  }

  /** A fetch at the pc of the next instruction in the stream takes nothing, so that the hart stalls, exactly when its
      window wraps around or is narrower than the instruction. */
  lemma FetchStalls(addr: Addr, size: nat, es: seq<Event>)
    requires size < ADDR_SPACE && es != [] && es[0].Insn?
    requires es[0].inst.pc == addr && 0 < es[0].inst.len < ADDR_SPACE - addr
    ensures FetchFrom(addr, AddAddr(addr, size), es).popped == 0 <==> addr + size >= ADDR_SPACE || es[0].inst.len > size
  {
    NoWrap(addr, es[0].inst.len);
    if addr + size >= ADDR_SPACE {
      WrappedWindowFetchesNothing(addr, size, es);
    } else {
      NoWrap(addr, size);
    }
  }
}
