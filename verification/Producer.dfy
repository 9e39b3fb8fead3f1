/** The producing end of a hart's event channel: InstrumentPlugin and EventPublisher,
    as functions on the per-vcpu state. One guest thread runs on the vcpu. */
module Producer {
  import opened Events

  // The callbacks QEMU makes for one guest thread.
  datatype GuestOp = Exec(entry: CacheEntry) | Syscall | Exit

  /** Per-vcpu state. `last` is the executed instruction that is not published yet; `buffer` is the
      publisher's batch; `sending` says that publishCopyOf(buffer) has begun and has not been accepted;
      `sent` lists every batch the channel accepted. */
  datatype State = State(
    instCounter: nat, eventCounter: nat, last: StaticInst,
    buffer: Batch, sending: bool, sent: seq<Batch>)

  const INITIAL := State(0, 0, StaticInst(0, 0, 0, 0, false, 0), [], false, [])

  function Published(p: State): seq<Event> {
    Flatten(p.sent) + p.buffer
  }

  /* Steps */

  function Publish(p: State, force: bool, ev: Event): State {
    var b := p.buffer + [ev];
    p.(buffer := b, sending := |b| == MESSAGE_VECTOR_SIZE || force, eventCounter := p.eventCounter + 1)
  }

  // The channel takes the batch that is being sent.
  function Accept(p: State): State {
    p.(buffer := [], sending := false, sent := p.sent + [p.buffer])
  }

  // The redirect test exactly as the plugin makes it: `last` against the end of `next`.
  predicate Redirects(lastPc: Addr, next: CacheEntry) {
    lastPc != AddAddr(next.pc, next.len)
  }

  // The published form of `last` once its successor is known; `redirect` is never cleared.
  function Resolve(last: StaticInst, next: CacheEntry): StaticInst {
    last.(targetPc := next.pc, redirect := last.redirect || Redirects(last.pc, next))
  }

  // `last` becomes the record of the instruction that just ran; its branch fields stay as they are.
  function Hold(p: State, last: StaticInst, e: CacheEntry): State {
    p.(last := last.(uid := p.instCounter, pc := e.pc, opcode := e.opcode, len := e.len),
       instCounter := p.instCounter + 1)
  }

  function ExecuteInstruction(p: State, e: CacheEntry): State {
    if p.instCounter == 0 then Hold(p, p.last, e)
    else
      var resolved := Resolve(p.last, e);
      Hold(Publish(p, false, Insn(p.eventCounter, resolved, false)), resolved, e)
  }

  function SystemCall(p: State, maxHarts: nat): State {
    if maxHarts > 1 then Publish(p, true, SyscallApi(p.eventCounter, false)) else p
  }

  function ThreadExit(p: State): State {
    Publish(p, true, Insn(p.eventCounter, p.last, true))
  }

  function Perform(p: State, maxHarts: nat, op: GuestOp): State {
    match op
    case Exec(e) => ExecuteInstruction(p, e)
    case Syscall => SystemCall(p, maxHarts)
    case Exit => ThreadExit(p)
  }

  /* What the guest executed, and what must be published about it */

  function Execs(ops: seq<GuestOp>): seq<CacheEntry> {
    if ops == [] then []
    else
      var before := Execs(ops[..|ops| - 1]);
      if ops[|ops| - 1].Exec? then before + [ops[|ops| - 1].entry] else before
  }

  predicate Exited(ops: seq<GuestOp>) {
    ops != [] && ops[|ops| - 1].Exit?
  }

  // Scripts of a single guest thread: nothing follows its exit, and it exits after some instruction.
  ghost predicate SingleThread(ops: seq<GuestOp>) {
    forall i :: 0 <= i < |ops| && ops[i].Exit? ==> i == |ops| - 1 && Execs(ops[..i]) != []
  }

  lemma SingleThreadPrefix(ops: seq<GuestOp>, n: nat)
    requires SingleThread(ops) && n <= |ops|
    ensures SingleThread(ops[..n])
  {
    var front := ops[..n];
    forall i | 0 <= i < n && front[i].Exit?
      ensures i == n - 1 && Execs(front[..i]) != []
    {
      assert ops[i].Exit?;
      assert front[..i] == ops[..i];
    }
  }

  // Does one of the transitions 0..i of the run not step back to the instruction that ends where the other one starts?
  ghost predicate EverRedirected(es: seq<CacheEntry>, i: int)
    requires i + 1 < |es|
  {
    exists k :: 0 <= k <= i && es[k].pc != AddAddr(es[k + 1].pc, es[k + 1].len)
  }

  // Instruction i of the run as it is held before its successor runs.
  ghost function Held(es: seq<CacheEntry>, i: nat): StaticInst
    requires i < |es|
  {
    StaticInst(i, es[i].pc, es[i].opcode, es[i].len, EverRedirected(es, i - 1), if i == 0 then 0 else es[i].pc)
  }

  // Instruction i of the run as it is published once its successor ran.
  ghost function Stamped(es: seq<CacheEntry>, i: nat): StaticInst
    requires i + 1 < |es|
  {
    StaticInst(i, es[i].pc, es[i].opcode, es[i].len, EverRedirected(es, i), es[i + 1].pc)
  }

  // The instructions published after `es` ran, without or with the exit of the thread.
  ghost predicate PublishedFor(insts: seq<StaticInst>, es: seq<CacheEntry>, exited: bool) {
    && |insts| == (if exited || es == [] then |es| else |es| - 1)
    && (forall i :: 0 <= i < |insts| && i + 1 < |es| ==> insts[i] == Stamped(es, i))
    && (exited && es != [] ==> insts[|es| - 1] == Held(es, |es| - 1))
  }

  // Events after which the publisher flushes without waiting for a full batch.
  predicate Forced(ev: Event) {
    ev.SyscallApi? || ev.isLast
  }

  ghost predicate Unforced(b: Batch) {
    forall i :: 0 <= i < |b| ==> !Forced(b[i])
  }

  // A batch goes out exactly when it is full or its last event forces it, and no earlier event forced it.
  ghost predicate BatchOk(b: Batch) {
    && 0 < |b| <= MESSAGE_VECTOR_SIZE
    && Unforced(b[..|b| - 1])
    && (|b| == MESSAGE_VECTOR_SIZE || Forced(b[|b| - 1]))
  }

  ghost predicate BatchesOk(bs: seq<Batch>) {
    forall i :: 0 <= i < |bs| ==> BatchOk(bs[i])
  }

  ghost predicate EventsOk(es: seq<Event>, exited: bool) {
    && (forall i :: 0 <= i < |es| ==> es[i].id == i && !es[i].ThreadApi?)
    && (forall i :: 0 <= i < |es| ==> (es[i].isLast <==> exited && i == |es| - 1))
    && (forall i :: 0 <= i < |es| && es[i].isLast ==> es[i].Insn?)
    && (exited ==> es != [])
  }

  ghost predicate BufferOk(p: State) {
    if p.sending then BatchOk(p.buffer)
    else |p.buffer| < MESSAGE_VECTOR_SIZE && Unforced(p.buffer)
  }

  ghost predicate Inv(p: State, ops: seq<GuestOp>) {
    var es := Execs(ops);
    && p.instCounter == |es|
    && p.eventCounter == |Published(p)|
    && (es == [] ==> p.last == INITIAL.last)
    && (es != [] ==> p.last == Held(es, |es| - 1))
    && PublishedFor(Insts(Published(p)), es, Exited(ops))
    && EventsOk(Published(p), Exited(ops))
    && BatchesOk(p.sent)
    && BufferOk(p)
  }

  /* Every step keeps the invariant */

  lemma EverRedirectedExtends(es: seq<CacheEntry>, e: CacheEntry, i: int)
    requires i + 1 < |es|
    ensures EverRedirected(es + [e], i) == EverRedirected(es, i)
  {
    assert forall k :: 0 <= k < |es| ==> (es + [e])[k] == es[k];
  }

  lemma OneTransitionOn(es: seq<CacheEntry>, n: nat)
    requires n + 1 < |es|
    ensures EverRedirected(es, n) <==> EverRedirected(es, n - 1) || es[n].pc != AddAddr(es[n + 1].pc, es[n + 1].len)
  {
    if EverRedirected(es, n) {
      var k :| 0 <= k <= n && es[k].pc != AddAddr(es[k + 1].pc, es[k + 1].len);
      assert k <= n - 1 || k == n;
    }
    if EverRedirected(es, n - 1) {
      var k :| 0 <= k <= n - 1 && es[k].pc != AddAddr(es[k + 1].pc, es[k + 1].len);
      assert k <= n;
    }
  }

  lemma PublishedAppend(p: State, force: bool, ev: Event)
    ensures Published(Publish(p, force, ev)) == Published(p) + [ev]
    ensures Insts(Published(Publish(p, force, ev))) == Insts(Published(p)) + (if ev.Insn? then [ev.inst] else [])
  {
    assert Flatten(p.sent) + (p.buffer + [ev]) == Published(p) + [ev];
    InstsSnoc(Published(p), ev);
  }

  lemma PublishKeepsBatches(p: State, force: bool, ev: Event)
    requires !p.sending && BufferOk(p) && BatchesOk(p.sent) && (force <==> Forced(ev))
    ensures BufferOk(Publish(p, force, ev)) && BatchesOk(Publish(p, force, ev).sent)
  {
    var b := p.buffer + [ev];
    assert b[..|b| - 1] == p.buffer;
  }

  lemma AcceptKeepsInv(p: State, ops: seq<GuestOp>)
    requires Inv(p, ops) && p.sending
    ensures Inv(Accept(p), ops) && Published(Accept(p)) == Published(p)
  {
    FlattenSnoc(p.sent, p.buffer);
    assert Flatten(p.sent + [p.buffer]) + [] == Published(p);
  }

  lemma ExecsSnoc(ops: seq<GuestOp>, op: GuestOp)
    ensures Execs(ops + [op]) == if op.Exec? then Execs(ops) + [op.entry] else Execs(ops)
  {
    assert (ops + [op])[..|ops + [op]| - 1] == ops;
  }

  // The held instruction, resolved by its successor, is its published form.
  lemma ResolveHeld(es: seq<CacheEntry>, e: CacheEntry)
    requires es != []
    ensures var n := |es| - 1;
            && Resolve(Held(es, n), e) == Stamped(es + [e], n)
            && Resolve(Held(es, n), e).(uid := n + 1, pc := e.pc, opcode := e.opcode, len := e.len)
               == Held(es + [e], n + 1)
  {
    var n := |es| - 1;
    EverRedirectedExtends(es, e, n - 1);
    OneTransitionOn(es + [e], n);
  }

  lemma ExecKeepsInv(p: State, ops: seq<GuestOp>, e: CacheEntry)
    requires Inv(p, ops) && !p.sending && !Exited(ops)
    ensures Inv(ExecuteInstruction(p, e), ops + [Exec(e)])
  {
    var es := Execs(ops);
    ExecsSnoc(ops, Exec(e));
    if es != [] {
      ResolveHeld(es, e);
      var ev := Insn(p.eventCounter, Resolve(p.last, e), false);
      PublishedAppend(p, false, ev);
      PublishKeepsBatches(p, false, ev);
      var q := Publish(p, false, ev);
      assert Published(ExecuteInstruction(p, e)) == Published(q);
      forall i | 0 <= i < |es| - 1
        ensures Stamped(es + [e], i) == Stamped(es, i)
      {
        EverRedirectedExtends(es, e, i);
      }
    }
  }

  lemma SyscallKeepsInv(p: State, ops: seq<GuestOp>, maxHarts: nat)
    requires Inv(p, ops) && !p.sending && !Exited(ops)
    ensures Inv(SystemCall(p, maxHarts), ops + [Syscall])
  {
    ExecsSnoc(ops, Syscall);
    var ev := SyscallApi(p.eventCounter, false);
    PublishedAppend(p, true, ev);
    PublishKeepsBatches(p, true, ev);
  }

  lemma ExitKeepsInv(p: State, ops: seq<GuestOp>)
    requires Inv(p, ops) && !p.sending && !Exited(ops) && Execs(ops) != []
    ensures Inv(ThreadExit(p), ops + [Exit])
  {
    ExecsSnoc(ops, Exit);
    var ev := Insn(p.eventCounter, p.last, true);
    PublishedAppend(p, true, ev);
    PublishKeepsBatches(p, true, ev);
  }

  lemma PerformKeepsInv(p: State, ops: seq<GuestOp>, maxHarts: nat, op: GuestOp)
    requires Inv(p, ops) && !p.sending && SingleThread(ops + [op])
    ensures Inv(Perform(p, maxHarts, op), ops + [op])
  {
    var all := ops + [op];
    assert all[..|ops|] == ops;
    assert ops != [] ==> all[|ops| - 1] == ops[|ops| - 1];
    match op {
      case Exec(e) => ExecKeepsInv(p, ops, e);
      case Syscall => SyscallKeepsInv(p, ops, maxHarts);
      case Exit =>
        assert all[|ops|].Exit?;
        ExitKeepsInv(p, ops);
    }
  }

  /* Whole runs of a producer whose channel is never full */

  function Settle(p: State): State {
    if p.sending then Accept(p) else p
  }

  function Run(ops: seq<GuestOp>, maxHarts: nat): State {
    if ops == [] then INITIAL
    else Settle(Perform(Run(ops[..|ops| - 1], maxHarts), maxHarts, ops[|ops| - 1]))
  }

  lemma {:induction false} RunInv(ops: seq<GuestOp>, maxHarts: nat)
    requires SingleThread(ops)
    ensures Inv(Run(ops, maxHarts), ops) && !Run(ops, maxHarts).sending
  {
    if ops != [] {
      var front, op := ops[..|ops| - 1], ops[|ops| - 1];
      assert ops == front + [op];
      SingleThreadPrefix(ops, |front|);
      RunInv(front, maxHarts);
      var p := Perform(Run(front, maxHarts), maxHarts, op);
      PerformKeepsInv(Run(front, maxHarts), front, maxHarts, op);
      if p.sending {
        AcceptKeepsInv(p, ops);
      }
    }
  }

  /** The stream a guest thread leaves behind: after n >= 1 instructions, any syscalls and one exit, everything
      published is in the accepted batches, whose concatenation numbers its events 0, 1, 2, ... without a gap,
      carries exactly the instructions 0..n-1 in execution order, and marks only its final event as the last. */
  lemma StreamShape(ops: seq<GuestOp>, maxHarts: nat)
    requires SingleThread(ops) && Exited(ops)
    ensures var p, es := Run(ops, maxHarts), Execs(ops);
            var stream := Flatten(p.sent);
            && p.buffer == [] && BatchesOk(p.sent)
            && (forall i :: 0 <= i < |stream| ==> stream[i].id == i && (stream[i].isLast <==> i == |stream| - 1))
            && stream != [] && stream[|stream| - 1].Insn?
            && |Insts(stream)| == |es| > 0
            && (forall i :: 0 <= i < |es| ==>
                  var s := Insts(stream)[i]; s.uid == i && CacheEntry(s.pc, s.opcode, s.len) == es[i])
  {
    RunInv(ops, maxHarts);
    var p := Run(ops, maxHarts);
    assert ops[|ops| - 1].Exit?;
    assert ops[..|ops| - 1] + [Exit] == ops;
    ExecsSnoc(ops[..|ops| - 1], Exit);
    assert p.buffer == [];
    assert Published(p) == Flatten(p.sent);
    var insts, es := Insts(Published(p)), Execs(ops);
    forall i | 0 <= i < |es|
      ensures insts[i].uid == i && CacheEntry(insts[i].pc, insts[i].opcode, insts[i].len) == es[i]
    {
      assert insts[i] == if i + 1 < |es| then Stamped(es, i) else Held(es, i);
    }
  }

  /* The order of the stream */

  // For each event, whether it is an instruction.
  function Kinds(es: seq<Event>): seq<bool> {
    if es == [] then [] else Kinds(es[..|es| - 1]) + [es[|es| - 1].Insn?]
  }

  // What an operation publishes: the first instruction nothing yet, every later one its predecessor, a system call
  // itself, and the exit the instruction that is still pending.
  function DueKind(first: bool, maxHarts: nat, op: GuestOp): seq<bool> {
    match op
    case Exec(_) => if first then [] else [true]
    case Syscall => if maxHarts > 1 then [false] else []
    case Exit => [true]
  }

  function DueKinds(ops: seq<GuestOp>, maxHarts: nat): seq<bool> {
    if ops == [] then []
    else
      var front := ops[..|ops| - 1];
      DueKinds(front, maxHarts) + DueKind(Execs(front) == [], maxHarts, ops[|ops| - 1])
  }

  lemma PublishKinds(p: State, force: bool, ev: Event)
    ensures Kinds(Published(Publish(p, force, ev))) == Kinds(Published(p)) + [ev.Insn?]
  {
    PublishedAppend(p, force, ev);
    assert (Published(p) + [ev])[..|Published(p)|] == Published(p);
  }

  lemma PerformKinds(p: State, maxHarts: nat, op: GuestOp)
    ensures Kinds(Published(Settle(Perform(p, maxHarts, op))))
            == Kinds(Published(p)) + DueKind(p.instCounter == 0, maxHarts, op)
  {
    SettledPublishesTheSame(Perform(p, maxHarts, op));
    match op {
      case Exec(e) =>
        if p.instCounter > 0 {
          PublishKinds(p, false, Insn(p.eventCounter, Resolve(p.last, e), false));
        }
      case Syscall => PublishKinds(p, true, SyscallApi(p.eventCounter, false));
      case Exit => PublishKinds(p, true, Insn(p.eventCounter, p.last, true));
    }
  }

  lemma SettledPublishesTheSame(p: State)
    ensures Published(Settle(p)) == Published(p)
  {
    if p.sending {
      FlattenSnoc(p.sent, p.buffer);
    }
  }

  /** The stream follows the script operation by operation, so that a system call overtakes exactly the one instruction
      that ran just before it. */
  lemma {:induction false} StreamOrder(ops: seq<GuestOp>, maxHarts: nat)
    requires SingleThread(ops)
    ensures Kinds(Published(Run(ops, maxHarts))) == DueKinds(ops, maxHarts)
  {
    if ops != [] {
      var front := ops[..|ops| - 1];
      SingleThreadPrefix(ops, |front|);
      RunInv(front, maxHarts);
      StreamOrder(front, maxHarts);
      PerformKinds(Run(front, maxHarts), maxHarts, ops[|ops| - 1]);
    }
  }

  // A system call publishes at once, so two instructions have to run before the first one for the stream to begin
  // with an instruction.
  ghost predicate SyscallsLate(ops: seq<GuestOp>, maxHarts: nat) {
    maxHarts > 1 ==> forall i :: 0 <= i < |ops| && ops[i].Syscall? ==> |Execs(ops[..i])| >= 2
  }

  /* The successor pc */

  ghost predicate SuccessorsRight(es: seq<CacheEntry>) {
    forall i :: 0 <= i && i + 1 < |es| ==> SuccessorPc(Stamped(es, i)) == es[i + 1].pc
  }

  // Instruction lengths fit in a byte and are not zero.
  ghost predicate LengthsOk(es: seq<CacheEntry>) {
    forall i :: 0 <= i < |es| ==> 0 < es[i].len < 256
  }

  lemma TwoStepsDoNotReturn(a: Addr, m: nat, n: nat)
    requires 0 < m < 256 && 0 < n < 256
    ensures AddAddr(AddAddr(a, m), n) != a
  {
    var b := a + m;
    assert AddAddr(a, m) == if b < ADDR_SPACE then b else b - ADDR_SPACE;
  }

  /** The redirect test compares the previous pc with the end of the next instruction. The consumer still finds
      every successor exactly when the first transition of the run is not a step back to the instruction that
      ends where the first one starts. */
  lemma SuccessorPcRight(es: seq<CacheEntry>)
    requires LengthsOk(es)
    ensures SuccessorsRight(es) <==> |es| < 2 || es[0].pc != AddAddr(es[1].pc, es[1].len)
  {
    if |es| >= 2 {
      if es[0].pc != AddAddr(es[1].pc, es[1].len) {
        forall i | 0 <= i && i + 1 < |es|
          ensures SuccessorPc(Stamped(es, i)) == es[i + 1].pc
        {
          assert EverRedirected(es, i);
        }
      } else {
        TwoStepsDoNotReturn(es[1].pc, es[1].len, es[0].len);
        assert SuccessorPc(Stamped(es, 0)) != es[1].pc;
      }
    }
  }
}
