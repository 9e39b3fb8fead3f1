/** Booting: every process is given the next run of harts, and the plugin of a process numbers its vcpus so that each
    publishes on the channel that the hart it was given listens on. */
module HartAllocation {
  import opened InstrumentPlugin
  import opened Integers
  import opened Processes

  // The sum of two 64-bit numbers, kept in the 16 bits of a hart id.
  method AddHarts(m: uint64, n: uint64) returns (h: nat)
    ensures h == (m + n) % 0x1_0000 && (m + n < 0x1_0000 ==> h == m + n)
  {
    h := (m + n) % TWO_64 % HART_IDS;
  }

  class Cpu {
    const hartId: nat
    var process: Process?
    var startupEvent: bool
    var monitorEvent: bool

    constructor (hartId: nat)
      ensures this.hartId == hartId && process == null && !startupEvent && !monitorEvent
    {
      this.hartId, process, startupEvent, monitorEvent := hartId, null, false, false;
    }

    method SetProcess(p: Process)
      modifies this
      ensures process == p
      ensures startupEvent == (old(startupEvent) || p.bootHart == hartId)
      ensures monitorEvent == (old(monitorEvent) || p.bootHart != hartId)
    {
      process := p;
      if p.bootHart == hartId {
        startupEvent := true;
      } else {
        monitorEvent := true;
      }
    }
  }

  /* The allotment: which process a hart goes to */

  // The first hart of process p: the harts that the processes before it ask for.
  function Start(requests: seq<nat>, p: nat): nat
    requires p <= |requests|
  {
    if p == 0 then 0 else Start(requests, p - 1) + requests[p - 1]
  }

  function Total(requests: seq<nat>): nat {
    Start(requests, |requests|)
  }

  // The process among the first n whose run of harts holds h.
  function OwnerAmong(requests: seq<nat>, n: nat, h: nat): (p: nat)
    requires n <= |requests| && h < Start(requests, n)
    ensures p < n && Start(requests, p) <= h < Start(requests, p + 1)
  {
    if Start(requests, n - 1) <= h then n - 1 else OwnerAmong(requests, n - 1, h)
  }

  function Owner(requests: seq<nat>, h: nat): (p: nat)
    requires h < Total(requests)
    ensures p < |requests| && Start(requests, p) <= h < Start(requests, p + 1)
  {
    OwnerAmong(requests, |requests|, h)
  }

  lemma {:induction false} StartGrows(requests: seq<nat>, p: nat, q: nat)
    requires p <= q <= |requests|
    ensures Start(requests, p) <= Start(requests, q)
  {
    if p < q {
      StartGrows(requests, p, q - 1);
    }
  }

  // No hart is in the runs of two processes.
  lemma RunsAreDisjoint(requests: seq<nat>, p: nat, q: nat, h: nat)
    requires p < |requests| && q < |requests|
    requires Start(requests, p) <= h < Start(requests, p + 1)
    requires Start(requests, q) <= h < Start(requests, q + 1)
    ensures p == q
  {
    if p < q {
      StartGrows(requests, p + 1, q);
    } else if q < p {
      StartGrows(requests, q + 1, p);
    }
  }

  lemma OwnerOfRun(requests: seq<nat>, p: nat, h: nat)
    requires p < |requests| && Start(requests, p) <= h < Start(requests, p + 1)
    ensures h < Total(requests) && Owner(requests, h) == p
  {
    StartGrows(requests, p + 1, |requests|);
    RunsAreDisjoint(requests, p, Owner(requests, h), h);
  }

  // The plugin that runs inside QEMU for process p, started with the boot hart and the harts of the process.
  ghost predicate PluginOf(plugin: Plugin, requests: seq<nat>, p: nat)
    reads plugin
  {
    && plugin.Valid() && p < |requests|
    && plugin.bootHart == Start(requests, p) && plugin.maxHarts == requests[p]
  }

  /** The hart ids of the publishers of all plugins are the harts in use, each for one vcpu of one process: hart h is
      that of vcpu h - Start of the process it was given to, and of no other. */
  lemma ChannelsMatch(requests: seq<nat>, plugin: Plugin, p: nat, v: nat, h: nat)
    requires Total(requests) < 0x1_0000 && PluginOf(plugin, requests, p) && v in plugin.publishers
    ensures plugin.publishers[v].hartId == h
            <==> h < Total(requests) && Owner(requests, h) == p && v == h - Start(requests, p)
  {
    OwnerOfRun(requests, p, Start(requests, p) + v);
  }

  /** The publishers of two vcpus, of one process or of two, never have the same hart id. */
  lemma ChannelsAreDistinct(requests: seq<nat>, one: Plugin, p: nat, v: nat, other: Plugin, q: nat, w: nat)
    requires Total(requests) < 0x1_0000
    requires PluginOf(one, requests, p) && v in one.publishers
    requires PluginOf(other, requests, q) && w in other.publishers
    requires one.publishers[v].hartId == other.publishers[w].hartId
    ensures p == q && v == w
  {
    var h := one.publishers[v].hartId;
    ChannelsMatch(requests, one, p, v, h);
    ChannelsMatch(requests, other, q, w, h);
  }

  /** A process that asks for harts has exactly one that boots it, and one that asks for none has none. */
  lemma OneBootHart(requests: seq<nat>, p: nat, h: nat)
    requires p < |requests|
    ensures h < Total(requests) && Owner(requests, h) == p && h == Start(requests, Owner(requests, h))
            <==> requests[p] > 0 && h == Start(requests, p)
  {
    if requests[p] > 0 {
      OwnerOfRun(requests, p, Start(requests, p));
    }
  }

  /* The state after booting */

  // CPU h when the harts below `given` have been handed out.
  ghost predicate Handed(c: Cpu, h: nat, given: nat, processes: seq<Process>, requests: seq<nat>)
    requires given <= Total(requests) && |requests| == |processes|
    reads c
  {
    if h < given then
      var p := Owner(requests, h);
      && c.process == processes[p]
      && c.startupEvent == (h == Start(requests, p))
      && c.monitorEvent == (h != Start(requests, p))
    else
      c.process == null && !c.startupEvent && !c.monitorEvent
  }

  class QemuSystem {
    const cpus: seq<Cpu>
    const processes: seq<Process>
    ghost const requests: seq<nat>   // how many harts each process asks for

    constructor (cpus: seq<Cpu>, processes: seq<Process>)
      ensures this.cpus == cpus && this.processes == processes
      ensures |requests| == |processes| && forall p :: 0 <= p < |processes| ==> requests[p] == processes[p].maxHarts
    {
      this.cpus, this.processes := cpus, processes;
      requests := seq(|processes|, p requires 0 <= p < |processes| => processes[p].maxHarts);
    }

    // registerCPU numbers the CPUs in order, and there are fewer than there are hart ids.
    ghost predicate Valid() {
      && |cpus| < HART_IDS
      && (forall h :: 0 <= h < |cpus| ==> cpus[h].hartId == h)
      && (forall p, q :: 0 <= p < q < |processes| ==> processes[p] != processes[q])
      && |requests| == |processes|
      && (forall p {:trigger processes[p]} :: 0 <= p < |processes| ==> requests[p] == processes[p].maxHarts)
    }

    // getCPUPtr; None where its assertion fails.
    method GetCPUPtr(hart: nat) returns (c: Cpu?)
      requires Valid() && hart < HART_IDS
      ensures c != null <==> hart < |cpus|
      ensures c != null ==> c == cpus[hart]
    {
      c := if hart < |cpus| then cpus[hart] else null;
    }

    // The first n harts have been handed out and no others.
    ghost predicate Given(n: nat)
      requires |requests| == |processes| && n <= Total(requests)
      reads cpus
    {
      forall h :: 0 <= h < |cpus| ==> Handed(cpus[h], h, n, processes, requests)
    }

    // Hart `hart`, the next one, goes to process i.
    method HandOver(cpu: Cpu, process: Process, ghost i: nat, ghost hart: nat)
      requires Valid() && i < |processes| && processes[i] == process && process.bootHart == Start(requests, i)
      requires hart < |cpus| && cpus[hart] == cpu && hart < Total(requests) && Owner(requests, hart) == i
      requires Given(hart)
      modifies cpu
      ensures Given(hart + 1)
    {
      cpu.SetProcess(process);
      forall h | 0 <= h < |cpus|
        ensures Handed(cpus[h], h, hart + 1, processes, requests)
      {
        assert h != hart ==> cpus[h] != cpu && Handed(cpus[h], h, hart, processes, requests);
      }
    }

    // The hart loop of newQemuProcess, for process i.
    method NewQemuProcess(process: Process, ghost i: nat) returns (ok: bool)
      requires Valid() && i < |processes| && processes[i] == process
      requires process.bootHart == Start(requests, i) <= |cpus|
      requires Start(requests, i) <= Total(requests) && Given(Start(requests, i))
      modifies cpus
      ensures ok <==> Start(requests, i + 1) <= |cpus|
      ensures ok ==> Start(requests, i + 1) <= Total(requests) && Given(Start(requests, i + 1))
    {
      StartGrows(requests, i + 1, |processes|);
      var offset := 0;
      while offset < process.maxHarts
        invariant offset <= process.maxHarts && process.bootHart + offset <= |cpus|
        invariant Given(process.bootHart + offset)
        decreases |cpus| - offset
      {
        var hart := AddHarts(process.bootHart, offset);
        var cpu := GetCPUPtr(hart);
        if cpu == null {
          return false;
        }
        OwnerOfRun(requests, i, hart);
        HandOver(cpu, process, i, hart);
        offset := AddHarts(offset, 1);
      }
      ok := true;
    }

    /** Booting succeeds exactly when the CPUs suffice for what all processes ask for, whatever they ask for; then
        the processes have been given adjacent runs of harts in their order, every CPU of a run has that process
        and no CPU beyond the runs has any, and the first CPU of a run boots the process while the others wait. */
    method BootSystem() returns (ok: bool)
      requires Valid() && Given(0)
      modifies processes`bootHart, cpus
      ensures ok <==> Total(requests) <= |cpus|
      ensures ok ==> forall p {:trigger processes[p]} :: 0 <= p < |processes| ==>
                       processes[p].bootHart == Start(requests, p)
      ensures ok ==> Given(Total(requests))
    {
      var hartUsed := 0;
      for i := 0 to |processes|
        invariant hartUsed == Start(requests, i) <= |cpus| && hartUsed <= Total(requests)
        invariant forall p {:trigger processes[p]} :: 0 <= p < i ==> processes[p].bootHart == Start(requests, p)
        invariant Given(hartUsed)
      {
        StartGrows(requests, i + 1, |processes|);
        ok, hartUsed := BootNext(processes[i], i, hartUsed);
        if !ok {
          return;
        }
      }
      ok := true;
    }

    /** After booting, the hart id under which the plugin of process p publishes for vcpu v is that of a CPU of that
        process, and vcpu 0 is the one whose CPU was told to start. */
    lemma VcpuReachesItsCpu(plugin: Plugin, p: nat, v: nat)
      requires Valid() && Total(requests) <= |cpus| && Given(Total(requests))
      requires p < |processes| && processes[p].bootHart == Start(requests, p)
      requires plugin.Valid() && plugin.bootHart == processes[p].bootHart && plugin.maxHarts == processes[p].maxHarts
      requires v in plugin.publishers
      ensures var hart := plugin.publishers[v].hartId;
              && hart < |cpus| && cpus[hart].hartId == hart && cpus[hart].process == processes[p]
              && (cpus[hart].startupEvent <==> v == 0) && (cpus[hart].monitorEvent <==> v > 0)
    {
      OwnerOfRun(requests, p, Start(requests, p) + v);
      ChannelsMatch(requests, plugin, p, v, Start(requests, p) + v);
    }

    // One turn of the loop of bootSystem.
    method BootNext(process: Process, ghost i: nat, used: uint64) returns (ok: bool, hartUsed: uint64)
      requires Valid() && i < |processes| && processes[i] == process
      requires used == Start(requests, i) <= |cpus| && used <= Total(requests) && Given(used)
      modifies process`bootHart, cpus
      ensures process.bootHart == used
      ensures ok <==> Start(requests, i + 1) <= |cpus|
      ensures ok ==> hartUsed == Start(requests, i + 1) <= Total(requests) && Given(hartUsed)
    {
      process.bootHart := used;
      assert Given(used);
      hartUsed := AddHarts(used, process.maxHarts);
      if hartUsed > |cpus| {
        return false, hartUsed;
      }
      ok := NewQemuProcess(process, i);
    }
  }
}
