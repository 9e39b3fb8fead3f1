/** The published events of a pipeline, set against the whole script of its guest. */
module Streams {
  import opened Events
  import Producer
  import Consumer
  import opened Pipeline

  function Executed(cfg: Config): seq<CacheEntry> {
    Producer.Execs(cfg.script)
  }

  // The script of one guest thread from its first instruction to its exit.
  ghost predicate WholeRun(cfg: Config) {
    Producer.SingleThread(cfg.script) && Producer.Exited(cfg.script)
  }

  lemma {:induction false} ExecsPrefix(ops: seq<Producer.GuestOp>, n: nat)
    requires n <= |ops|
    ensures Producer.Execs(ops[..n]) <= Producer.Execs(ops)
    decreases |ops| - n
  {
    if n == |ops| {
      assert ops[..n] == ops;
    } else {
      ExecsPrefix(ops, n + 1);
      assert ops[..n + 1] == ops[..n] + [ops[n]];
      Producer.ExecsSnoc(ops[..n], ops[n]);
    }
  }

  lemma EverRedirectedPrefix(a: seq<CacheEntry>, b: seq<CacheEntry>, i: int)
    requires a <= b && i + 1 < |a|
    ensures Producer.EverRedirected(a, i) == Producer.EverRedirected(b, i)
  {
    assert forall k :: 0 <= k < |a| ==> a[k] == b[k];
  }

  lemma {:induction false} InstsPrefix(a: seq<Event>, b: seq<Event>)
    requires a <= b
    ensures Insts(a) <= Insts(b)
  {
    InstsConcat(a, b[|a|..]);
    assert b == a + b[|a|..];
  }

  predicate LastPopped(c: Consumer.State) {
    c.popped != [] && c.popped[|c.popped| - 1].isLast
  }

  lemma BatchesCarryEvents(bs: seq<Batch>)
    requires Producer.BatchesOk(bs)
    ensures Flatten(bs) == [] <==> bs == []
  {
    if bs != [] {
      assert Producer.BatchOk(bs[0]);
    }
  }

  lemma InstructionsBeforeLast(stream: seq<Event>, popped: seq<Event>)
    requires popped < stream && stream[|stream| - 1].Insn?
    ensures |Insts(popped)| < |Insts(stream)|
  {
    var front, last := stream[..|stream| - 1], stream[|stream| - 1];
    assert stream == front + [last];
    InstsConcat(front, [last]);
    InstsPrefix(popped, front);
  }

  /* Where the popped events stand */

  lemma PoppedIsPrefix(s: State)
    requires Transported(s)
    ensures s.cons.popped <= Producer.Published(s.prod)
    ensures Insts(s.cons.popped) <= Insts(Producer.Published(s.prod))
  {
    StreamSplits(s);
    InstsPrefix(s.cons.popped, Producer.Published(s.prod));
  }

  // Nothing follows the last event.
  lemma LastIsFinal(cfg: Config, s: State)
    requires Inv(cfg, s) && LastPopped(s.cons)
    ensures Producer.Exited(Done(cfg, s)) && s.cons.popped == Producer.Published(s.prod)
    ensures Consumer.AtEnd(s.cons) && s.queue == [] && s.prod.buffer == []
  {
    var stream := Producer.Published(s.prod);
    var rest := Consumer.Unread(s.cons) + Flatten(s.queue) + s.prod.buffer;
    StreamSplits(s);
    BatchesCarryEvents(s.queue);
    assert stream[|s.cons.popped| - 1].isLast;
    assert rest == [];
  }

  lemma SomethingExecuted(cfg: Config)
    requires WholeRun(cfg)
    ensures Executed(cfg) != []
  {
    assert cfg.script[|cfg.script| - 1].Exit?;
    ExecsPrefix(cfg.script, |cfg.script| - 1);
  }

  // Before the last event is popped, some instruction of the script is not popped either.
  lemma InstructionsRemain(cfg: Config, s: State)
    requires WholeRun(cfg) && Inv(cfg, s) && !LastPopped(s.cons)
    ensures |Insts(s.cons.popped)| < |Executed(cfg)|
  {
    var stream := Producer.Published(s.prod);
    SomethingExecuted(cfg);
    PoppedIsPrefix(s);
    ExecsPrefix(cfg.script, s.next);
    if Producer.Exited(Done(cfg, s)) {
      assert s.cons.popped != stream;
      InstructionsBeforeLast(stream, s.cons.popped);
    }
  }

  // The event at the cursor, and where it stands among the published instructions.
  lemma NextEvent(cfg: Config, s: State)
    requires Inv(cfg, s) && !Consumer.AtEnd(s.cons)
    ensures var ev, stream := s.cons.buffer[s.cons.header], Producer.Published(s.prod);
            && |s.cons.popped| < |stream| && stream[|s.cons.popped|] == ev
            && s.cons.popped + [ev] <= stream
            && (ev.Insn? ==>
                  |Insts(s.cons.popped)| < |Insts(stream)| && Insts(stream)[|Insts(s.cons.popped)|] == ev.inst)
  {
    UnreadPublished(cfg, s);
    PoppedIsPrefix(s);
    var ev, stream := s.cons.buffer[s.cons.header], Producer.Published(s.prod);
    InstsPrefix(s.cons.popped + [ev], stream);
    InstsSnoc(s.cons.popped, ev);
  }

  // Does the second instruction end where the first one starts?
  predicate BeginsWithStepBack(es: seq<CacheEntry>) {
    |es| >= 2 && es[0].pc == AddAddr(es[1].pc, es[1].len)
  }

  // A published instruction has the pc and length of its place in the script.
  lemma PublishedPlace(cfg: Config, s: State, k: nat)
    requires Inv(cfg, s) && k < |Insts(Producer.Published(s.prod))|
    ensures var inst, es := Insts(Producer.Published(s.prod))[k], Executed(cfg);
            k < |es| && inst.pc == es[k].pc && inst.len == es[k].len
  {
    var done := Producer.Execs(Done(cfg, s));
    ExecsPrefix(cfg.script, s.next);
    assert Insts(Producer.Published(s.prod))[k]
        == if k + 1 < |done| then Producer.Stamped(done, k) else Producer.Held(done, k);
  }

  /** In every interleaving, instruction k of the stream carries the redirect flag exactly when one of the transitions
      up to its own did not end where it started, and the pc of its successor; the last one carries what the one before
      it left. */
  lemma BranchFields(cfg: Config, trace: seq<State>, steps: seq<Step>, i: nat, k: nat)
    requires Producer.SingleThread(cfg.script) && IsRun(cfg, trace, steps) && i < |trace|
    requires k < |Insts(Producer.Published(trace[i].prod))|
    ensures var inst, es := Insts(Producer.Published(trace[i].prod))[k], Executed(cfg);
            && k < |es| && inst.uid == k && CacheEntry(inst.pc, inst.opcode, inst.len) == es[k]
            && (inst.redirect <==>
                  exists j :: 0 <= j <= k && j + 1 < |es| && es[j].pc != AddAddr(es[j + 1].pc, es[j + 1].len))
            && inst.targetPc == if k + 1 < |es| then es[k + 1].pc else if k == 0 then 0 else es[k].pc
  {
    RunKeepsInv(cfg, trace, steps, i);
    var s := trace[i];
    var es, done := Executed(cfg), Producer.Execs(Done(cfg, s));
    ExecsPrefix(cfg.script, s.next);
    if k + 1 < |done| {
      EverRedirectedPrefix(done, es, k);
      assert Insts(Producer.Published(s.prod))[k] == Producer.Stamped(done, k);
    } else {
      assert Insts(Producer.Published(s.prod))[k] == Producer.Held(done, k);
      assert Producer.Exited(Done(cfg, s)) && cfg.script[s.next - 1].Exit?;
      assert Done(cfg, s) == cfg.script;
    }
  }

  /** Unless the run begins with a step back, a published instruction leads to its successor. */
  lemma PublishedInstruction(cfg: Config, s: State, k: nat)
    requires WholeRun(cfg) && Inv(cfg, s) && k < |Insts(Producer.Published(s.prod))|
    requires Producer.LengthsOk(Executed(cfg))
    requires !BeginsWithStepBack(Executed(cfg))
    ensures k + 1 < |Executed(cfg)| ==> SuccessorPc(Insts(Producer.Published(s.prod))[k]) == Executed(cfg)[k + 1].pc
  {
    var es, done := Executed(cfg), Producer.Execs(Done(cfg, s));
    ExecsPrefix(cfg.script, s.next);
    Producer.SuccessorPcRight(es);
    if k + 1 < |done| {
      EverRedirectedPrefix(done, es, k);
      assert Insts(Producer.Published(s.prod))[k] == Producer.Stamped(done, k);
      assert Producer.Stamped(done, k) == Producer.Stamped(es, k);
    } else {
      assert Producer.Exited(Done(cfg, s));
      assert Done(cfg, s)[|Done(cfg, s)| - 1] == cfg.script[s.next - 1];
      assert Done(cfg, s) == cfg.script;
    }
  }
}
