/** The vocabulary shared by the QEMU plugin (event producer) and the simulator (event consumer):
    guest instructions, thread events, and the batches that carry them. */
module Events {

  // Guest addresses are 64 bits wide and wrap around.
  const ADDR_SPACE: int := 0x1_0000_0000_0000_0000

  // Capacity of one message and of one subscriber queue (include/iss/IPCConfig.hpp).
  const MESSAGE_VECTOR_SIZE: nat := 16384
  const MESSAGE_BUFFER_SIZE: nat := 4

  type Addr = a: int | 0 <= a < ADDR_SPACE

  function AddAddr(a: Addr, n: nat): Addr {
    (a + n) % ADDR_SPACE
  }

  // Sums of addresses are kept in 64 bits.
  lemma AddressesWrap(a: Addr, n: nat)
    requires n <= 0x1_0000_0000_0000_0000
    ensures AddAddr(a, n) == if a + n < 0x1_0000_0000_0000_0000 then a + n else a + n - 0x1_0000_0000_0000_0000
  {
    var sum := a + n;
    assert sum < 2 * ADDR_SPACE;
  }

  // What the translator caches about a guest instruction.
  datatype CacheEntry = CacheEntry(pc: Addr, opcode: nat, len: nat)

  datatype StaticInst = StaticInst(uid: nat, pc: Addr, opcode: nat, len: nat, redirect: bool, targetPc: Addr)

  datatype Event =
    | Insn(id: nat, inst: StaticInst, isLast: bool)
    | ThreadApi(id: nat, isLast: bool)
    | SyscallApi(id: nat, isLast: bool)

  type Batch = seq<Event>

  // The pc from which a consumer expects the instruction after `inst`.
  function SuccessorPc(inst: StaticInst): Addr {
    if inst.redirect then inst.targetPc else AddAddr(inst.pc, inst.len)
  }

  function Insts(es: seq<Event>): seq<StaticInst> {
    if es == [] then []
    else (if es[0].Insn? then [es[0].inst] else []) + Insts(es[1..])
  }

  function Flatten(bs: seq<Batch>): seq<Event> {
    if bs == [] then [] else bs[0] + Flatten(bs[1..])
  }

  lemma Associate<T>(a: seq<T>, b: seq<T>, c: seq<T>)
    ensures a + b + c == a + (b + c)
  {
  }

  lemma Regroup<T>(a: seq<T>, b: seq<T>, c: seq<T>, d: seq<T>)
    ensures a + b + c + d == a + (b + c + d)
  {
  }

  lemma {:induction false} InstsConcat(a: seq<Event>, b: seq<Event>)
    ensures Insts(a + b) == Insts(a) + Insts(b)
  {
    if a == [] {
      assert a + b == b;
    } else {
      InstsConcat(a[1..], b);
      assert (a + b)[1..] == a[1..] + b;
      Associate(if a[0].Insn? then [a[0].inst] else [], Insts(a[1..]), Insts(b));
    }
  }

  lemma InstsSnoc(es: seq<Event>, ev: Event)
    ensures Insts(es + [ev]) == Insts(es) + if ev.Insn? then [ev.inst] else []
  {
    InstsConcat(es, [ev]);
    assert [ev][1..] == [];
  }

  lemma {:induction false} InstsBound(es: seq<Event>)
    ensures |Insts(es)| <= |es|
  {
    if es != [] {
      InstsBound(es[1..]);
    }
  }

  lemma {:induction false} FlattenSnoc(bs: seq<Batch>, b: Batch)
    ensures Flatten(bs + [b]) == Flatten(bs) + b
  {
    if bs == [] {
      assert Flatten([b]) == b + Flatten([b][1..]);
    } else {
      FlattenSnoc(bs[1..], b);
      assert (bs + [b])[1..] == bs[1..] + [b];
    }
  }
}
