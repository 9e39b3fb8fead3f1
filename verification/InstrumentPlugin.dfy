/** The producer as the program writes it: objects updated in place by the plugin's callbacks. */
module InstrumentPlugin {
  import opened Events
  import Producer

  // Hart ids are 16 bits wide.
  const HART_IDS: nat := 0x1_0000

  // The outgoing side of a hart's channel. `refusals` is how often publishCopyOf fails before it succeeds.
  class Channel {
    var accepted: seq<Batch>
    var refusals: nat

    constructor (refusals: nat)
      ensures accepted == [] && this.refusals == refusals
    {
      accepted := [];
      this.refusals := refusals;
    }

    method PublishCopyOf(b: Batch) returns (ok: bool)
      modifies this
      ensures ok <==> old(refusals) == 0
      ensures accepted == if ok then old(accepted) + [b] else old(accepted)
      ensures !ok ==> refusals == old(refusals) - 1
    {
      ok := refusals == 0;
      if ok {
        accepted := accepted + [b];
      } else {
        refusals := refusals - 1;
      }
    }
  }

  class EventPublisher {
    const hartId: nat
    const channel: Channel
    var buffer: Batch

    constructor (hartId: nat, channel: Channel)
      ensures this.hartId == hartId && this.channel == channel && buffer == []
    {
      this.hartId := hartId;
      this.channel := channel;
      buffer := [];
    }

    method Publish(force: bool, ev: Event)
      modifies this, channel
      ensures var b := old(buffer) + [ev];
              if |b| == 16384 || force
              then buffer == [] && channel.accepted == old(channel.accepted) + [b]
              else buffer == b && channel.accepted == old(channel.accepted)
    {
      buffer := buffer + [ev];
      if |buffer| == MESSAGE_VECTOR_SIZE || force {
        var ok := channel.PublishCopyOf(buffer);
        while !ok
          invariant buffer == old(buffer) + [ev]
          invariant channel.accepted == if ok then old(channel.accepted) + [buffer] else old(channel.accepted)
          decreases !ok, channel.refusals
        {
          ok := channel.PublishCopyOf(buffer);
        }
        buffer := [];
      }
    }
  }

  class Plugin {
    const bootHart: nat
    const maxHarts: nat
    var instCounters: map<nat, nat>
    var eventCounters: map<nat, nat>
    var lastInsts: map<nat, StaticInst>
    var publishers: map<nat, EventPublisher>

    // Every vcpu has its counters, its publisher has the hart id at its distance from the boot hart, and no two vcpus
    // share a publisher or a channel.
    ghost predicate Valid()
      reads this
    {
      && (forall v :: 0 <= v < maxHarts ==> v in instCounters && v in eventCounters && v in lastInsts)
      && (forall v :: v in publishers ==> v < maxHarts && publishers[v].hartId == (bootHart + v) % 0x1_0000)
      && (forall u, v :: u in publishers && v in publishers && u != v ==>
            publishers[u] != publishers[v] && publishers[u].channel != publishers[v].channel)
    }

    ghost function Parts(v: nat): set<object>
      reads this
    {
      if v in publishers then {publishers[v], publishers[v].channel} else {}
    }

    // The state of vcpu v at rest, that is, between callbacks.
    ghost function View(v: nat): Producer.State
      requires Valid() && v in publishers
      reads this, Parts(v)
    {
      Producer.State(instCounters[v], eventCounters[v], lastInsts[v],
                     publishers[v].buffer, false, publishers[v].channel.accepted)
    }

    // startPublishService: the counters of every possible vcpu start at zero.
    constructor (bootHart: nat, maxHarts: nat)
      ensures Valid() && publishers == map[]
      ensures this.bootHart == bootHart && this.maxHarts == maxHarts
      ensures forall v :: 0 <= v < maxHarts ==>
                instCounters[v] == 0 && eventCounters[v] == 0 && lastInsts[v] == Producer.INITIAL.last
    {
      this.bootHart := bootHart;
      this.maxHarts := maxHarts;
      instCounters, eventCounters, lastInsts, publishers := map[], map[], map[], map[];
      new;
      for i := 0 to maxHarts
        invariant publishers == map[]
        invariant forall v :: 0 <= v < i ==>
                    && v in instCounters && instCounters[v] == 0
                    && v in eventCounters && eventCounters[v] == 0
                    && v in lastInsts && lastInsts[v] == Producer.INITIAL.last
      {
        lastInsts := lastInsts[i := Producer.INITIAL.last];
        instCounters := instCounters[i := 0];
        eventCounters := eventCounters[i := 0];
      }
    }

    function CalculateHartID(vcpu: nat): nat {
      (vcpu + bootHart) % HART_IDS
    }

    method ThreadInitialize(vcpu: nat, refusals: nat)
      requires Valid() && vcpu < maxHarts
      requires forall v :: v in publishers ==> allocated(publishers[v]) && allocated(publishers[v].channel)
      modifies `publishers
      ensures Valid() && publishers.Keys == old(publishers).Keys + {vcpu}
      ensures forall v :: v in old(publishers) ==> publishers[v] == old(publishers)[v]
      ensures vcpu !in old(publishers) ==>
                publishers[vcpu].buffer == [] && publishers[vcpu].channel.accepted == []
      ensures bootHart + vcpu < 0x1_0000 ==> publishers[vcpu].hartId == bootHart + vcpu
    {
      if vcpu !in publishers {
        var c := new Channel(refusals);
        var p := new EventPublisher(CalculateHartID(vcpu), c);
        publishers := publishers[vcpu := p];
      }
    }

    // m_event_publishers.at(vcpu)->publish(force, ..., m_event_counters.at(vcpu)++, ...)
    method PublishNext(vcpu: nat, force: bool, ev: Event)
      requires Valid() && vcpu in publishers && ev.id == eventCounters[vcpu]
      modifies `eventCounters, Parts(vcpu)
      ensures Valid()
      ensures View(vcpu) == Producer.Settle(Producer.Publish(old(View(vcpu)), force, ev))
      ensures forall v :: v in publishers && v != vcpu ==> View(v) == old(View(v))
    {
      eventCounters := eventCounters[vcpu := ev.id + 1];
      publishers[vcpu].Publish(force, ev);
    }

    // Publishes the held instruction now that its successor `inst` is known; `last` is its published form.
    method PublishLast(vcpu: nat, inst: CacheEntry) returns (last: StaticInst)
      requires Valid() && vcpu in publishers
      modifies `eventCounters, Parts(vcpu)
      ensures Valid() && last == Producer.Resolve(lastInsts[vcpu], inst)
      ensures last.targetPc == inst.pc
      ensures last.redirect <==> lastInsts[vcpu].redirect || lastInsts[vcpu].pc != AddAddr(inst.pc, inst.len)
      ensures var ev := Insn(old(eventCounters[vcpu]), last, false);
              View(vcpu) == Producer.Settle(Producer.Publish(old(View(vcpu)), false, ev))
      ensures forall v :: v in publishers && v != vcpu ==> View(v) == old(View(v))
    {
      last := lastInsts[vcpu].(targetPc := inst.pc);
      if last.pc != AddAddr(inst.pc, inst.len) {
        last := last.(redirect := true);
      }
      PublishNext(vcpu, false, Insn(eventCounters[vcpu], last, false));
    }

    // Updates the last executed instruction of the vcpu.
    method HoldInstruction(vcpu: nat, last: StaticInst, inst: CacheEntry)
      requires Valid() && vcpu in publishers
      modifies `instCounters, `lastInsts
      ensures Valid() && View(vcpu) == Producer.Hold(old(View(vcpu)), last, inst)
      ensures forall v :: v in publishers && v != vcpu ==> View(v) == old(View(v))
    {
      var uid := instCounters[vcpu];
      instCounters := instCounters[vcpu := uid + 1];
      lastInsts := lastInsts[vcpu := last.(uid := uid, pc := inst.pc, opcode := inst.opcode, len := inst.len)];
    }

    method ExecuteInstruction(vcpu: nat, inst: CacheEntry)
      requires Valid() && vcpu in publishers
      modifies `instCounters, `eventCounters, `lastInsts, Parts(vcpu)
      ensures Valid()
      ensures View(vcpu) == Producer.Settle(Producer.ExecuteInstruction(old(View(vcpu)), inst))
      ensures forall v :: v in publishers && v != vcpu ==> View(v) == old(View(v))
    {
      var last := lastInsts[vcpu];
      if instCounters[vcpu] != 0 {
        last := PublishLast(vcpu, inst);
      }
      HoldInstruction(vcpu, last, inst);
    }

    method Syscall(vcpu: nat)
      requires Valid() && vcpu in publishers
      modifies `eventCounters, Parts(vcpu)
      ensures Valid()
      ensures View(vcpu) == Producer.Settle(Producer.SystemCall(old(View(vcpu)), maxHarts))
      ensures forall v :: v in publishers && v != vcpu ==> View(v) == old(View(v))
    {
      if maxHarts > 1 {
        PublishNext(vcpu, true, SyscallApi(eventCounters[vcpu], false));
      }
    }

    method ThreadExit(vcpu: nat)
      requires Valid() && vcpu in publishers
      modifies `eventCounters, Parts(vcpu)
      ensures Valid()
      ensures View(vcpu) == Producer.Settle(Producer.ThreadExit(old(View(vcpu))))
      ensures forall v :: v in publishers && v != vcpu ==> View(v) == old(View(v))
    {
      var lastEvent := Insn(eventCounters[vcpu], lastInsts[vcpu], false);
      lastEvent := lastEvent.(isLast := true);
      PublishNext(vcpu, true, lastEvent);
    }
  }
}
