# ArchXplore: a verified model of its concurrent core

ArchXplore simulates RISC-V systems. QEMU runs the guest program; a plugin inside QEMU turns what the guest executes
into events, and the simulator's CPUs consume them. This project models the parts of ArchXplore where correctness
depends on several classes, several threads, or an argument that no single function shows, and proves what they promise.

`dafny verify dfyconfig.toml` checks everything.

## What is modelled

**The event pipeline of one hart.** `Events.dfy` holds the vocabulary. `Producer.dfy` describes the plugin and the
publisher as functions on their per-vcpu state, `Consumer.dfy` the subscriber, the instruction set simulator and the
CPU; `Pipeline.dfy` lets the steps of both interleave in any order over the bounded queue of batches. The consumer is
cut at every point where it may wait for a batch, so a handler can be anywhere between its start and its end while the
producer runs. `Streams.dfy` compares the events of a state with the guest's script. `FirstFetch.dfy` follows the one
fetch that a monitor makes for the hart it starts, and says exactly when a hart sleeps after its last event.
`Statuses.dfy` says what status, completion flag and counters tell about a run. `Progress.dfy` and `Liveness.dfy` add
the conditions under which the pipeline always gets to the end of the guest's run, and `Conditions.dfy` shows what
happens where such a condition fails. `InstrumentPlugin.dfy` and `Hart.dfy` are the same code in its own form, objects
updated in place; each method is proved to do what the functions say, and `Handlers.dfy` shows that a handler run in
one piece and a handler interleaved with the producer come to the same.

**The thread pool and the bound-weave rounds.** `ThreadPool.dfy` is the pool as a protocol of workers, callers of
`enqueue`, and the destructor, with spurious wakeups. `BoundWeave.dfy` composes it with the main thread that forks the
ranks of a phase onto the pool and joins them, round after round. A rank's scheduler is an abstract state with a tick;
running it for one interval advances the tick by exactly that interval.

**Text and buffers.** `CommandLine.dfy`, `Environment.dfy` and `ReadAll.dfy` model argument quoting, the environment
block, and reading a stream into a doubling buffer.

**Configuration.** `ClockDomains.dfy` models the clock-domain inheritance that rewrites the tree while it is being
looked up, and the clocks made from it; `HartAllocation.dfy` models the allotment of harts to processes and its
agreement with the numbering in the plugin.

`Integers.dfy`, `Texts.dfy`, `Processes.dfy` and `Wrappers.dfy` hold the types that several of these share.

## Results worth reading first

- `Pipeline.Conservation`: no instruction is lost, duplicated or reordered, in any interleaving.
- `Pipeline.TryTakeDiscardsNothing`: a poll that overwrites the subscriber's batch never overwrites an unread event,
  because of a flush two classes away.
- `Producer.SuccessorPcRight`: the redirect test in the plugin compares the wrong way round; the consumer still finds
  every successor, exactly when the first transition of the run is not a step back to the instruction just before.
- `Liveness.RunsAreBounded`, `Liveness.NeverStuck`, `Liveness.TicksBound`: the pipeline reaches the last event.
- `FirstFetch.SleepsExactlyUnless`: whether a hart sleeps after its last event or stays active for ever can be read off
  the guest's operations.
- `ReadAll.LoopEnds`, `ReadAll.ReadEverything`: when `read_all` returns, and exactly what it has read then.
- `Statuses.BootHartCompletes`, `Statuses.OtherHartCompletes`, `Statuses.BlocksExactlyThen`: exactly when harts complete
  and block.
- `ThreadPool.ExactlyOnce`, `ThreadPool.NoWakeupIsLost`, `ThreadPool.Drained`; `BoundWeave.Barrier`,
  `BoundWeave.RanksOfRound`, `BoundWeave.PhaseRefinesSequential`.
- `CommandLine.RoundTrip`, `Environment.RoundTrip`, `Environment.UpdateRoundTrip`: each holds if and only if a
  condition on the input that a caller can check does.
- `ClockDomains.Build` and `HartAllocation.QemuSystem.BootSystem`: the whole configuring pass and the whole boot.

## Conditions, and where they come from

- A run of the producer is a sequence of executed instructions, system calls and at most one exit, which comes last
  and after at least one instruction (`Producer.SingleThread`): one guest thread per vcpu.
- Safety needs nothing else. Progress needs `Progress.Runnable`, which can be read off the guest's operations and the
  fetch width, each part for a reason that is proved:
  - where system calls are published, two instructions run before the first one; otherwise, and only then,
    `initCPUState` aborts (`Conditions.AbortsExactlyThen`);
  - every instruction fits into one fetch, whose window does not reach the end of the address space; a fetch that
    meets such an instruction or window takes nothing (`Handlers.FetchStalls`), and the hart then ticks for ever
    without reading on (`Conditions.StalledForGood`);
  - the second instruction does not end where the first one starts (`Producer.SuccessorPcRight`); after a step back at
    the start, no hart reads more than the first instruction (`Conditions.NeverPastFirst`, with an input in
    `Conditions.StepBackExample`);
  - a hart started by its monitor does not read its whole stream at once. `wakeUpMonitor` sets the status after
    `startUp`, so a start that reads the last event leaves the hart active for ever. That happens exactly when no
    system call is published and all instructions lie in the window of one fetch (`FirstFetch.FirstFetchReadsAll`,
    `FirstFetch.SleepsExactlyUnless`, `FirstFetch.StaysActive`; a whole run is in `Conditions.ReadAtOnceExample`).
- The end of the process needs no condition. One step can take a hart out of its run, `Progress.SleepsEarly`: the
  monitor finds no batch, the hart has received none so far, and the boot hart has completed the process. A hart
  completes with its stream unread exactly when that step has been made (`Progress.UnreadExactlyThen`); it reads nothing
  more then (`Conditions.CompletedIsFinal`; an input is in `Conditions.EarlySleepExample`). A hart that has received a
  batch is not affected by the end of the process.
- A handler of `Hart.dfy` that has to wait returns only if the batches it needs arrive, and its method asks for that.
- A fetch whose window wraps around the end of the address space fetches nothing
  (`Handlers.WrappedWindowFetchesNothing`); `Handlers.FetchPackage` is stated for instructions that do not reach that end.
- `read_all` returns if and only if its buffer is not empty or some fill of the empty buffer gives up, with a failed call
  or 51 interrupted ones (`ReadAll.LoopEnds`); `ReadEverything` asks for that, and for sizes that an `int` can count.
- Hart ids are 16 bits wide; `HartAllocation` asks for fewer CPUs than that.

## Model

| member | source | states |
|---|---|---|
| Events.AddressesWrap | include/iss/qemu/instrumentation/InstrumentPlugin.hpp:250 | Sums of addresses are kept in 64 bits |
| Producer.PublishedAppend | include/iss/EventPublisher.hpp:88-99 | Whether or not a batch goes out, publishing adds exactly the one event at the end of the stream |
| Producer.AcceptKeepsInv | include/iss/EventPublisher.hpp:91-98 | Handing a batch over keeps the producer's invariant: batches are non-empty, no larger than the capacity, and cut exactly where they are full or forced |
| Producer.ExecKeepsInv | include/iss/qemu/instrumentation/InstrumentPlugin.hpp:233-263 | An executed instruction publishes its predecessor, stamped with the successor's pc and the sticky redirect flag, and becomes the pending one |
| Producer.SyscallKeepsInv | include/iss/qemu/instrumentation/InstrumentPlugin.hpp:151-161 | A system call overtakes the pending instruction and ends its batch |
| Producer.ExitKeepsInv | include/iss/qemu/instrumentation/InstrumentPlugin.hpp:98-105 | The exit publishes the pending instruction as the last event and ends its batch |
| Producer.RunInv | include/iss/qemu/instrumentation/InstrumentPlugin.hpp:98-263 | The invariant holds after every run of one guest thread, with nothing left half sent |
| Producer.StreamShape | include/iss/qemu/instrumentation/InstrumentPlugin.hpp:98-263 | After a complete run the batches hold a stream with event ids 0, 1, 2, ..., instruction uids 0..n-1 in execution order, only the final event marked last, and nothing left in the publisher |
| Producer.SuccessorPcRight | include/iss/qemu/instrumentation/InstrumentPlugin.hpp:245-262 | The pc that a consumer computes from a published instruction is that of its successor, for every instruction of a run, if and only if the second instruction does not end where the first one starts |
| Producer.StreamOrder | include/iss/qemu/instrumentation/InstrumentPlugin.hpp:98-263 | The stream follows the guest's operations one by one, a system call overtaking exactly the instruction that ran just before it |
| InstrumentPlugin.Channel.PublishCopyOf | include/iss/EventPublisher.hpp:93-96 | A refused batch is not delivered, an accepted one is, at the end |
| InstrumentPlugin.EventPublisher.Publish | include/iss/EventPublisher.hpp:87-99 | The retry loop delivers a full or forced batch exactly once and empties the buffer; otherwise nothing is sent |
| InstrumentPlugin.Plugin.constructor | include/iss/qemu/instrumentation/InstrumentPlugin.hpp:46-59 | Every possible vcpu starts with zero counters and no publisher |
| InstrumentPlugin.Plugin.ThreadInitialize | include/iss/qemu/instrumentation/InstrumentPlugin.hpp:67-89 | The first thread of a vcpu gets a publisher whose hart id is the boot hart plus the vcpu, in 16 bits, later ones keep it, and no other vcpu is touched |
| InstrumentPlugin.Plugin.PublishNext | include/iss/qemu/instrumentation/InstrumentPlugin.hpp:159 | An event takes the next number of its vcpu and goes to that vcpu's publisher only |
| InstrumentPlugin.Plugin.PublishLast | include/iss/qemu/instrumentation/InstrumentPlugin.hpp:247-255 | The pending instruction gets the pc of the one that just ran, and the redirect flag if it had it or does not start where that one ends; it is published unforced |
| InstrumentPlugin.Plugin.HoldInstruction | include/iss/qemu/instrumentation/InstrumentPlugin.hpp:258-262 | The executed instruction becomes the pending one under the next uid |
| InstrumentPlugin.Plugin.ExecuteInstruction | include/iss/qemu/instrumentation/InstrumentPlugin.hpp:233-263 | The callback does to its vcpu what the producer model says, and nothing to the others |
| InstrumentPlugin.Plugin.Syscall | include/iss/qemu/instrumentation/InstrumentPlugin.hpp:151-161 | Likewise for a system call, which publishes only when the process may have several harts |
| InstrumentPlugin.Plugin.ThreadExit | include/iss/qemu/instrumentation/InstrumentPlugin.hpp:98-105 | Likewise for the exit of the thread |
| Consumer.FetchStepKeepsInv | src/iss/qemu/QemuISS.cpp:30-77 | One turn of the fetch loop keeps the hart's invariant: instructions popped are those retired, buffered or in the package, in order, and status and events agree |
| Consumer.ProceedKeepsInv | src/iss/qemu/QemuISS.cpp:12-132 | Likewise for every other step inside a handler |
| Pipeline.LoadKeepsTransport | include/iss/EventSubscriber.hpp:98-130 | Replacing a batch that has been read to its end by the next one of the queue loses no event |
| Pipeline.SleepingEventEndsBatch | src/iss/qemu/QemuISS.cpp:58-70 | The event that takes a hart out of its active status is the last of its batch |
| Pipeline.RunKeepsInv | src/iss/qemu/QemuISS.cpp:12-132 | Every state of every interleaving satisfies the pipeline's invariant |
| Pipeline.Conservation | include/iss/qemu/instrumentation/InstrumentPlugin.hpp:233-263 | Retired, buffered, fetched, unread, queued, batched and pending instructions together are the instructions executed so far, each once, in order |
| Pipeline.TryTakeDiscardsNothing | src/iss/qemu/QemuISS.cpp:103-132 | Whenever the monitor polls the channel, no event of the current batch is unread |
| Pipeline.ChannelBounds | include/iss/EventPublisher.hpp:88-99 | A channel holds up to four batches and accepts one exactly while there is room; a batch has up to 16384 events, fewer only if a system call or the last event ends it |
| Pipeline.StatusAgreesAfterHandlers | src/cpu/AbstractCPU.cpp:32-95 | After every handler the status says exactly which of the hart's events are scheduled |
| Statuses.BootHartCompletes | src/iss/qemu/QemuISS.cpp:58-65 | The boot hart completes its process, and itself, exactly by reading its last event |
| Statuses.OtherHartCompletes | src/iss/qemu/QemuISS.cpp:107-121 | Any other hart is completed exactly from the first poll on that found it inactive, no batch, and its process complete |
| Statuses.BlocksExactlyThen | src/iss/qemu/QemuISS.cpp:93-128 | A hart blocks exactly by reading a system call, whatever it has still to retire, and goes on exactly when its monitor receives a batch or a start made by the monitor ends |
| Statuses.CyclesCountTicks | src/cpu/AbstractCPU.cpp:48-56 | The cycle counter counts the tick events, and a hart retires at most one instruction for each of them and one for its start |
| Streams.BranchFields | include/iss/qemu/instrumentation/InstrumentPlugin.hpp:247-262 | In every interleaving, instruction k of the stream carries the redirect flag if and only if one of the transitions up to its own starts elsewhere than where its successor ends, and the target pc is its successor's; the last one keeps what was left to it |
| Streams.PublishedInstruction | include/iss/qemu/instrumentation/InstrumentPlugin.hpp:245-262 | A published instruction is that of its place in the run and leads the consumer to the next one, unless the run begins with a step back |
| Progress.NextInstructionFits | src/iss/qemu/QemuISS.cpp:46-55 | With nothing waiting to retire, the next instruction in the stream is the one the fetch is looking for |
| Streams.LastIsFinal | include/iss/qemu/instrumentation/InstrumentPlugin.hpp:98-105 | Once the last event is popped, batch, queue and publisher are empty |
| FirstFetch.FirstFetchReadsAll | src/iss/qemu/QemuISS.cpp:23-79 | The first fetch of a hart started by its monitor reads the last event if and only if no system call is published and all instructions lie in one window |
| FirstFetch.SleepsExactlyUnless | src/iss/qemu/QemuISS.cpp:58-114 | After its last event the boot hart is completed and any other hart inactive or completed, if and only if it is not one started by its monitor whose stream is read at once; such a hart is active |
| FirstFetch.StaysActive | src/iss/qemu/QemuISS.cpp:109-115 | A hart whose start from the monitor read the last event is active for ever after, with nothing left to read |
| Progress.RunKeepsReady | src/cpu/simple/SimpleCPU.cpp:23-61 | In every state of every interleaving the next pc is that of the first instruction that has not retired, unless the monitor has put the hart to sleep before its first batch |
| Progress.UnreadExactlyThen | src/iss/qemu/QemuISS.cpp:109-120 | A hart completes with its stream unread if and only if its monitor once polled in vain, before the first batch and after the end of the process |
| Liveness.StepWorks | src/iss/qemu/QemuISS.cpp:12-132 | Every step either only polls or lessens the work that is left |
| Liveness.RunsAreBounded | src/cpu/simple/SimpleCPU.cpp:28-61 | Apart from polls that find nothing, a guest run of n operations takes at most 7n + 5 steps in any interleaving |
| Liveness.NeverStuck | src/iss/qemu/QemuISS.cpp:12-132 | Until the last event is popped, some step that lessens the work is enabled, unless the monitor has put the hart to sleep before its first batch |
| Liveness.StepPaysForTicks | src/cpu/simple/SimpleCPU.cpp:28-61 | A tick retires an instruction or has read a system call |
| Liveness.TicksBound | src/cpu/simple/SimpleCPU.cpp:28-61 | Ticks never outnumber the events popped |
| Conditions.ProducerFollowsScript | include/iss/EventPublisher.hpp:88-99 | In every interleaving the producer is where the guest's operations alone would have put it, but for a batch being sent |
| Conditions.FirstEvent | include/iss/qemu/instrumentation/InstrumentPlugin.hpp:151-161 | The first event is an instruction if and only if two instructions run before the first published system call |
| Conditions.AbortsExactlyThen | src/iss/qemu/QemuISS.cpp:12-21 | Starting a hart up aborts if and only if a published system call came before the second instruction |
| Conditions.CompletedIsFinal | src/iss/qemu/QemuISS.cpp:116-120 | A completed hart stays so and reads nothing more |
| Conditions.EarlySleepExample | src/iss/qemu/QemuISS.cpp:116-120 | Whatever the guest runs, a hart that polls first after the process has ended completes unread |
| Conditions.ReadAtOnceExample | src/iss/qemu/QemuISS.cpp:109-115 | A run of one instruction and its exit ends with the hart active after its last event |
| Conditions.NeverPastFirst | include/iss/qemu/instrumentation/InstrumentPlugin.hpp:249-253 | Where the second instruction ends where the first one starts, no interleaving reads more than the first instruction |
| Conditions.StepBackExample | include/iss/qemu/instrumentation/InstrumentPlugin.hpp:249-253 | Two instructions, the second just before the first, make such a run, and it comes to a hart that stands after the first with the second unread |
| Conditions.StalledForGood | src/iss/qemu/QemuISS.cpp:28-55 | A hart that stands before an instruction or window that its fetch takes nothing of ticks for ever and reads nothing more |
| Handlers.HandlerIsTick | src/cpu/AbstractCPU.cpp:48-56 | A handler that has begun to fetch does a tick and then ends |
| Handlers.HandlerIsStartUp | src/cpu/AbstractCPU.cpp:32-46 | A handler that starts the hart up initializes it, does a tick and then ends, or aborts |
| Handlers.HandlerIgnoresFlag | src/iss/qemu/QemuISS.cpp:58-70 | Within a handler, a hart that does not boot its process neither reads nor sets the completion flag |
| Handlers.InterleavedHandler | src/cpu/AbstractCPU.cpp:32-64 | A handler interleaved with the producer and with the end of the process has the effect of the handler run in one piece on the batches it took, but for the completion flag, which another hart of the process may set meanwhile |
| Handlers.FetchIsOfStream | include/iss/EventSubscriber.hpp:78-111 | What a fetch takes depends on the stream alone, not on how batches cut it |
| Handlers.FetchPackage | src/iss/qemu/QemuISS.cpp:23-79 | A package starts at the requested address, is contiguous and stays in its window; the events popped are the package and at most one API event; a finished fetch stopped no earlier than it had to, and it finishes once enough events are there |
| Handlers.WrappedWindowFetchesNothing | src/iss/qemu/QemuISS.cpp:30 | A fetch whose window wraps around the address space pops nothing and ends at once |
| Handlers.FetchStalls | src/iss/qemu/QemuISS.cpp:28-55 | A fetch at the pc of the next instruction takes nothing if and only if its window wraps around or is narrower than the instruction |
| Hart.EventSubscriber.Take | include/iss/EventSubscriber.hpp:98-111 | The first batch that arrives becomes the current one, with the cursor at its start |
| Hart.EventSubscriber.TryTake | include/iss/EventSubscriber.hpp:117-130 | One poll: a batch replaces the current one unconditionally, and nothing changes if none arrives |
| Hart.EventSubscriber.Front | include/iss/EventSubscriber.hpp:78-85 | The event at the cursor, after taking a batch exactly when the cursor is at the end |
| Hart.EventSubscriber.PopFront | include/iss/EventSubscriber.hpp:90-93 | The cursor moves past one event |
| Hart.SimpleCpu.constructor | src/cpu/AbstractCPU.cpp:128-137 | A hart assigned to a process has its startup event scheduled if it is the boot hart and its monitor otherwise |
| Hart.SimpleCpu.InitCPUState | src/iss/qemu/QemuISS.cpp:12-21 | The first event must be an instruction; then it gives the boot pc and is not popped |
| Hart.SimpleCpu.HandleSyscallApi | src/iss/qemu/QemuISS.cpp:93-101 | Only an active hart is blocked by a system call |
| Hart.SimpleCpu.PopEvent | src/iss/qemu/QemuISS.cpp:56-72 | A last event completes the boot hart and its process, and makes any other hart inactive with its monitor scheduled |
| Hart.SimpleCpu.FetchNext | src/iss/qemu/QemuISS.cpp:32-76 | One turn of the fetch loop is the model's fetch step |
| Hart.SimpleCpu.FetchTurn | src/iss/qemu/QemuISS.cpp:30-76 | One turn of the fetch loop, with the wait for a batch, leaves the outcome of the whole fetch what it was and comes nearer to it |
| Hart.SimpleCpu.GenerateFetchRequest | src/iss/qemu/QemuISS.cpp:23-79 | The fetch loop ends with the model's package, having taken exactly the model's batches |
| Hart.SimpleCpu.ProcessFetchResponse | src/iss/qemu/QemuISS.cpp:81-87 | The oldest package is handed over and removed |
| Hart.SimpleCpu.PushInstructions | src/cpu/simple/SimpleCPU.cpp:33-37 | The package is appended to the instruction buffer in order |
| Hart.SimpleCpu.RetireOldest | src/cpu/simple/SimpleCPU.cpp:39-60 | The oldest buffered instruction retires and sets the next pc; with none, nothing changes |
| Hart.SimpleCpu.Tick | src/cpu/simple/SimpleCPU.cpp:28-61 | A tick is a fetch, then one retirement, which sets the next pc; packages do not pile up |
| Hart.SimpleCpu.FirstTick | src/cpu/AbstractCPU.cpp:36-46 | Once the first event is accepted, starting up is a reset and a tick |
| Hart.SimpleCpu.StartUp | src/cpu/AbstractCPU.cpp:32-46 | Starting up is the model's, including the abort |
| Hart.SimpleCpu.HandleStartUpEvent | src/cpu/AbstractCPU.cpp:32-46 | The startup event's handler is the model's |
| Hart.SimpleCpu.HandleTickEvent | src/cpu/AbstractCPU.cpp:48-56 | The tick event's handler is the model's |
| Hart.SimpleCpu.StartWoken | src/iss/qemu/QemuISS.cpp:111-114 | A start from the monitor ends active whatever the tick inside it decided |
| Hart.SimpleCpu.FindNothing | src/iss/qemu/QemuISS.cpp:116-120 | An inactive hart without a batch is completed if and only if its process is |
| Hart.SimpleCpu.WakeInactive | src/iss/qemu/QemuISS.cpp:107-121 | An inactive hart starts when a batch arrives, and completes when none does and its process has |
| Hart.SimpleCpu.WakeBlocked | src/iss/qemu/QemuISS.cpp:122-128 | A blocked hart goes on when a batch arrives |
| Hart.SimpleCpu.WakeUpMonitor | src/iss/qemu/QemuISS.cpp:103-132 | The monitor's decision is the model's in every status |
| Hart.SimpleCpu.HandleWakeUpMonitorEvent | src/cpu/AbstractCPU.cpp:58-64 | The monitor event's handler is the model's |
| ThreadPool.StepKeepsWakeups | include/utils/ThreadPool.hpp:25-79 | Every step keeps enough wakeups under way for the queue while a worker waits |
| ThreadPool.StepKeepsAccounts | include/utils/ThreadPool.hpp:36-41 | Every step keeps the record of accepted tasks equal to what was dequeued and what is queued, and accounts for each task once |
| ThreadPool.RecordsAreTrue | include/utils/ThreadPool.hpp:28-77 | The records are those of the run: tasks accepted in the order of the calls of enqueue, tasks begun and completed in the order in which workers did, and the notify_one calls still owed |
| ThreadPool.StoppedExactlyThen | include/utils/ThreadPool.hpp:47-50 | The pool is stopped exactly once its destructor has set the flag |
| ThreadPool.StepKeepsShutdown | include/utils/ThreadPool.hpp:30-58 | Workers return only on stop with an empty queue, and after notify_all none waits again |
| ThreadPool.NoWakeupIsLost | include/utils/ThreadPool.hpp:25-79 | While a worker waits, queued tasks never outnumber woken workers and the notify_one calls still to come, one for each task submitted |
| ThreadPool.QueuedWorkMoves | include/utils/ThreadPool.hpp:25-79 | A pool with a worker and a queued task can always make a step of its own |
| ThreadPool.ExactlyOnce | include/utils/ThreadPool.hpp:28-41 | The tasks submitted before the stop, in the order of submission, are those that workers have begun, in the order in which they did, and those in the queue; what was begun is what has been completed and what runs, each once |
| ThreadPool.InternalStepsDrain | include/utils/ThreadPool.hpp:25-58 | Every step the pool makes on its own lessens its work |
| ThreadPool.Drained | include/utils/ThreadPool.hpp:45-58 | After stop the pool's steps run out, and only when every worker has returned and been joined and every task submitted before it has been completed |
| ThreadPool.Pool.constructor | include/utils/ThreadPool.hpp:19-43 | The pool starts with its workers ready and an empty queue |
| ThreadPool.Pool.Push | include/utils/ThreadPool.hpp:66-75 | enqueue adds its task at the end of the queue, or rejects it once the pool is stopped |
| ThreadPool.Pool.Signal | include/utils/ThreadPool.hpp:77 | notify_one wakes at most one waiting worker |
| ThreadPool.Pool.Acquire | include/utils/ThreadPool.hpp:28-38 | Under the mutex a worker waits, returns, or takes the first task |
| ThreadPool.Pool.RunTask | include/utils/ThreadPool.hpp:40 | A worker whose task has run goes round its loop |
| ThreadPool.Pool.BeginStop | include/utils/ThreadPool.hpp:47-50 | The destructor sets stop and nothing else |
| ThreadPool.Pool.Broadcast | include/utils/ThreadPool.hpp:52 | notify_all wakes every waiting worker and no other |
| BoundWeave.SequentialPhaseIs | src/system/AbstractSystem.cpp:113-141 | The sequential reference runs every rank once and is true exactly when all report that they finished |
| BoundWeave.SequentialPhaseAdvances | src/system/AbstractSystem.cpp:125-126 | The sequential phase moves every rank on by one interval, in which its model advances |
| BoundWeave.RunningTask | src/system/AbstractSystem.cpp:118-138 | A task on a worker belongs to the current round and phase, and its rank has not run in it |
| BoundWeave.RunKeepsInv | src/system/AbstractSystem.cpp:113-158 | Every state of every interleaving of main thread and workers satisfies the rounds' invariant |
| BoundWeave.Barrier | src/system/AbstractSystem.cpp:143-158 | In round k every rank stands at k or k+1 intervals; a weave task runs only when all bound ranks have done the round, a bound task only when all weave ranks have done the rounds before |
| BoundWeave.RanksOfRound | src/system/AbstractSystem.cpp:113-158 | In round k tick and model of every rank are those of k or k+1 intervals simulated one after the other, and exactly of k when the round begins |
| BoundWeave.RoundsRefineSequential | src/system/AbstractSystem.cpp:143-158 | At the start of every round the ranks are where sequential rounds would have put them |
| BoundWeave.PhaseRefinesSequential | src/system/AbstractSystem.cpp:113-141 | For any number of workers and any schedule, the parallel phase leaves the ranks and returns the boolean of the sequential one |
| BoundWeave.StopsWhenAllFinished | src/system/AbstractSystem.cpp:149-153 | The simulation stops only when every rank of both phases has finished |
| BoundWeave.StopsExactlyThen | src/system/AbstractSystem.cpp:146-157 | After the weave phase the simulation stops exactly when every rank has finished, and otherwise the next round begins |
| BoundWeave.NeverHangs | src/system/AbstractSystem.cpp:97-138 | With the pool that finalize makes, some step other than a spurious wakeup is always enabled until the simulation stops |
| BoundWeave.WorkersSuffice | src/system/AbstractSystem.cpp:97-105 | The pool has the workers the user chose, or as many as the larger phase has ranks, so that all tasks of a phase can run at once |
| BoundWeave.RoundsEnd | src/system/AbstractSystem.cpp:113-158 | Every step other than a spurious wakeup lessens the work of the round or begins the next one |
| BoundWeave.RunPhaseEvent | src/system/AbstractSystem.cpp:113-141 | In whatever order the ranks are run, the phase ends as the sequential reference does |
| BoundWeave.HandleBoundWeaveEvent | src/system/AbstractSystem.cpp:143-158 | One round is the bound phase, then the weave phase, and it stops exactly when both finished |
| CommandLine.EscapedParsesBack | include/utils/Subprocess.hpp:193-233 | The inside of a quoted argument with its closing mark parses to the argument, whatever follows |
| CommandLine.QuotedParsesBack | include/utils/Subprocess.hpp:177-235 | A quoted or plain argument followed by a delimiter parses to the argument |
| CommandLine.LineParsesBack | include/utils/Subprocess.hpp:1514-1518 | The line built from any list of arguments parses to the list |
| CommandLine.ParsedNulFree | include/utils/Subprocess.hpp:1520-1522 | No argument parsed from a C string holds a NUL |
| CommandLine.RoundTrip | include/utils/Subprocess.hpp:177-235 | With either value of force, the command line passed on as a C string parses back to the list if and only if no argument holds a NUL |
| CommandLine.LeftAloneExactlyThen | include/utils/Subprocess.hpp:177-235 | An argument is left as it is if and only if quoting is not forced, it is not empty and it holds no blank, tab, line feed, vertical tab or quotation mark; any other stands between quotation marks |
| CommandLine.NothingToEscape | include/utils/Subprocess.hpp:221-230 | Between the marks, an argument without marks and backslashes is left as it is |
| CommandLine.RunsAreEscaped | include/utils/Subprocess.hpp:193-231 | A run of backslashes is doubled at the end and before a mark, which gets one more, and is left as it is before any other character |
| CommandLine.LineIsSpaced | include/utils/Subprocess.hpp:1514-1518 | The line is the quoted arguments in their order, each followed by one blank |
| CommandLine.CountBackslashes | include/utils/Subprocess.hpp:194-199 | The inner loop counts the run of backslashes |
| CommandLine.AppendPiece | include/utils/Subprocess.hpp:193-231 | One turn of the quoting loop appends one run of backslashes and the character after it, escaped as that character requires |
| CommandLine.AppendEscaped | include/utils/Subprocess.hpp:193-231 | The quoting loop appends the escaped argument |
| CommandLine.QuoteArgument | include/utils/Subprocess.hpp:177-235 | The argument is appended plain or quoted, after what the line held |
| CommandLine.BuildCommandLine | include/utils/Subprocess.hpp:1514-1518 | The loop over the arguments builds the line of the round trip |
| Environment.DecodedIsClean | include/utils/Subprocess.hpp:330-347 | No decoded key holds a delimiter or a NUL and no decoded value a NUL |
| Environment.EncodedTerminates | include/utils/Subprocess.hpp:361-381 | An encoded block always ends the reader's loop, whatever the map holds |
| Environment.LinesReadBack | include/utils/Subprocess.hpp:368-380 | Decoding an encoded clean map onto another one overrides it entry by entry |
| Environment.BlockIsEntries | include/utils/Subprocess.hpp:361-381 | The block is the entries in the order of the keys, each with an equals sign and a NUL, and a NUL at the end |
| Environment.RoundTrip | include/utils/Subprocess.hpp:312-381 | Decoding the encoded map gives the map back if and only if its keys hold no delimiter and no NUL and its values no NUL |
| Environment.UpdateRoundTrip | include/utils/Subprocess.hpp:386-398 | The updated block decodes to the host's map overridden by the changes if and only if the changes are clean |
| Environment.MapFromEnvironment | include/utils/Subprocess.hpp:312-355 | The pointer loop computes the decoded map |
| Environment.NextLine | include/utils/Subprocess.hpp:330-349 | One turn reads one line and leaves the pointer at the next |
| Environment.SplitLine | include/utils/Subprocess.hpp:335-347 | A line is split at its first equals sign and overrides an entry of that key; without one it is skipped |
| Environment.VectorFromMap | include/utils/Subprocess.hpp:361-381 | The encoding loop builds the encoded block |
| Environment.Merge | include/utils/Subprocess.hpp:390-393 | The changes overwrite the host's entries and add their own |
| Environment.CreateUpdatedVector | include/utils/Subprocess.hpp:386-398 | The three together build the block of the round trip |
| ReadAll.Source.Read | include/utils/Subprocess.hpp:548-557 | What read() is taken to do: deliver some prefix of what is left, be interrupted, or fail |
| ReadAll.ReadInto | include/utils/Subprocess.hpp:548 | What one call delivers is in the buffer behind what was read before, and the stream holds the rest |
| ReadAll.ReadOnce | include/utils/Subprocess.hpp:547-559 | One turn of the inner loop comes nearer to the one outcome of the fill: an interruption is counted, an error or a 51st one refuses, no bytes end it |
| ReadAll.ReadAtMostN | include/utils/Subprocess.hpp:537-563 | The result, the bytes taken from the stream and put into the space, given up or not, and the calls used are those of one fill; nothing before the space is touched |
| ReadAll.FillTakesAll | include/utils/Subprocess.hpp:547-559 | A fill that does not give up takes all that the stream has and the space holds, over any short reads |
| ReadAll.GivesUpExactlyThen | include/utils/Subprocess.hpp:549-556 | A fill gives up if and only if the last of its calls failed or was the 51st to be interrupted |
| ReadAll.LoopEnds | include/utils/Subprocess.hpp:585-608 | read_all returns if and only if its buffer is not empty or some fill of the empty buffer gives up |
| ReadAll.ComesOnce | include/utils/Subprocess.hpp:585-608 | The number of completed fills and the result are determined by the buffer's size, the stream and how its calls turn out |
| ReadAll.ResultOf | include/utils/Subprocess.hpp:585-610 | From a non-empty buffer the result is -1 exactly when the first fill gave up, the capacity filled so far when a later one did, and otherwise the length of the stream |
| ReadAll.Resize | include/utils/Subprocess.hpp:595 | The bigger buffer keeps the contents |
| ReadAll.FillAndGrow | include/utils/Subprocess.hpp:586-607 | One turn of the loop goes on or leaves exactly as the model's turn, and the buffer holds what was read before and what this fill brought |
| ReadAll.FillAll | include/utils/Subprocess.hpp:585-608 | The loop completes its fills and leaves with the model's result and the prefix of the stream of that length |
| ReadAll.ReadEverything | include/utils/Subprocess.hpp:579-611 | At the end of the stream the result is its length and the buffer is exactly the stream; after an error the result is -1 if and only if no fill was completed, and otherwise the capacity that the completed fills filled, with exactly the prefix they read |
| ClockDomains.RanksComeBack | src/ClockedObject.cpp:12-31 | A rank passed as unsigned and kept as signed comes back as it was, and half of the ranks are kept as they are |
| ClockDomains.Node.constructor | src/ClockedObject.cpp:7-8 | A fresh node finds what its parent finds, and nothing at the root |
| ClockDomains.Node.SetClockDomain | src/ClockedObject.cpp:12-16 | All three values are set, and are what the getters find whatever the nodes above hold, except those that stand for none |
| ClockDomains.Node.SetPhase | src/ClockedObject.cpp:28-31 | The phase is what its getter then finds, and the other two getters find what they found, although the rank travels through an unsigned parameter |
| ClockDomains.Node.SetRank | src/ClockedObject.cpp:23-26 | The rank, in 32 signed bits, is what its getter then finds, unless it is -1, and the other two find what they found |
| ClockDomains.Node.SetFrequency | src/ClockedObject.cpp:18-21 | The frequency is what its getter then finds, unless it is -1, and the other two find what they found |
| ClockDomains.LookupsResolve | src/ClockedObject.cpp:43-140 | The three recursive getters find the three parts of one lookup over the values the nodes hold |
| ClockDomains.MemoKeepsLookups | src/ClockedObject.cpp:142-153 | Writing what nodes inherit into any set of them changes no lookup of any node |
| ClockDomains.LookupIsNearest | src/ClockedObject.cpp:43-140 | A lookup finds, part by part, the nearest explicit value on the path to the root |
| ClockDomains.OneBucket | src/system/AbstractSystem.cpp:251-273 | A node is indexed once under the key of its lookup and under no other key |
| ClockDomains.Domains.RegisterClockDomain | src/system/AbstractSystem.cpp:251-273 | A node is added to the bucket of its key and to no other; it throws exactly for an unknown phase or a schedule rank other than 0 |
| ClockDomains.Domains.OnConfiguring | src/ClockedObject.cpp:142-153 | A domain-set node is left holding its lookup and is registered under it; any other node changes nothing |
| ClockDomains.Domains.ConfigureOne | src/ClockedObject.cpp:142-153 | The turn of one node, after any others, leaves it holding what it looks up in the original tree and adds it to that bucket only; it throws exactly if that lookup cannot be registered |
| ClockDomains.Domains.ConfigureAll | src/system/AbstractSystem.cpp:68-73 | In any visiting order, every lookup stays as it was before the pass, and each visited domain-set node holds and is registered under its own |
| ClockDomains.Domains.EnterConfiguring | src/system/AbstractSystem.cpp:68-73 | After the pass each domain-set node holds the nearest explicit values of the original tree and is in exactly the bucket of what it holds |
| ClockDomains.BuildRank | src/system/AbstractSystem.cpp:160-179 | Every node of a rank gets the clock of its frequency |
| ClockDomains.BuildPhase | src/system/AbstractSystem.cpp:185-193 | Every node of a phase gets the clock of its rank and frequency |
| ClockDomains.Domains.BuildClockDomains | src/system/AbstractSystem.cpp:181-193 | Every registered node gets the clock of its bucket, and no other node a clock |
| ClockDomains.Build | src/system/AbstractSystem.cpp:68-78 | The pass throws exactly when some lookup cannot be registered; otherwise each domain-set node ends with the nearest explicit phase, rank and frequency of its original path and with the clock made for them |
| HartAllocation.AddHarts | include/system/qemu/QemuSystem.hpp:66 | The 64-bit sum is cut to 16 bits, and is exact where it fits |
| HartAllocation.RunsAreDisjoint | include/system/qemu/QemuSystem.hpp:62-69 | No hart is in the runs of two processes |
| HartAllocation.ChannelsMatch | include/iss/qemu/instrumentation/InstrumentPlugin.hpp:67-89 | The hart ids of the publishers are exactly the harts in use, each for the one vcpu of the one process it was given to |
| HartAllocation.ChannelsAreDistinct | include/iss/qemu/instrumentation/InstrumentPlugin.hpp:67-89 | The publishers of two vcpus, of one process or two, never have the same hart id |
| HartAllocation.OneBootHart | src/cpu/AbstractCPU.cpp:128-137 | A process that asks for harts has exactly one boot hart, and one that asks for none has none |
| HartAllocation.Cpu.SetProcess | src/cpu/AbstractCPU.cpp:128-137 | The CPU is given the process, and its startup event if it is the boot hart or else its monitor |
| HartAllocation.QemuSystem.HandOver | include/system/qemu/QemuSystem.hpp:131-136 | The next hart goes to its process, and the CPUs given before keep theirs |
| HartAllocation.QemuSystem.GetCPUPtr | src/system/AbstractSystem.cpp:236-240 | The CPU registered under the id, or a failed assertion beyond the last one |
| HartAllocation.QemuSystem.NewQemuProcess | include/system/qemu/QemuSystem.hpp:131-136 | The hart loop hands the process its run, and fails exactly when the run goes past the last CPU |
| HartAllocation.QemuSystem.BootNext | include/system/qemu/QemuSystem.hpp:63-69 | One process gets the next run of harts, or booting fails exactly when the CPUs do not suffice, wrapped sums included |
| HartAllocation.QemuSystem.BootSystem | include/system/qemu/QemuSystem.hpp:60-70 | Booting succeeds if and only if the CPUs suffice for all requests, and then runs are adjacent, disjoint and in order, each CPU of a run has its process, and none beyond them any |
| HartAllocation.QemuSystem.VcpuReachesItsCpu | include/iss/qemu/instrumentation/InstrumentPlugin.hpp:67-89 | The hart id of the publisher of vcpu v is that of a CPU of its process, the one told to start for v = 0 and a monitoring one otherwise |

## Left out

- The shared-memory transport (iceoryx) with its discovery and shutdown: each hart has a lossless FIFO of four batches; which polls and publishing attempts succeed is a parameter.
- sparta's scheduler, clocks, counters and logging: `run` for one interval advances a rank by exactly that interval, scheduling and cancelling an event is idempotent, and the tree counts as not configured during the configuring pass.
- QEMU's plugin registration, translation and instruction cache, memory-access callbacks and the memory, register and function fields of an instruction: the executed instructions come as input, and only pc, opcode, length, uid and branch fields are kept.
- Several guest threads on one vcpu, the empty thread-API handler and the unused CPU statuses.
- Process spawning, pipes, signals and waiting in the subprocess library, and its string helpers.
- The Python modules, configuration scripts and command-line parsing of the plugin.
- Instruction and event counters and cycle counts are unbounded; addresses wrap at 64 bits.
- Regions under a mutex are single steps; the data race rules of C++ are not modelled.
- One class stands for the CPU and its instruction set simulator, with the bodies of nested loops and branches as methods of their own; `HartAllocation.Cpu` is the part of a CPU that booting touches.
- Nothing is claimed about instructions that wait in the CPU's buffer when the last event is fetched: `Conservation` keeps the buffer as a term, since no tick retires them afterwards; nor is that buffer bounded.
- Liveness.RunsAreBounded: does not count polls of the monitor that find nothing, since the simulator may repeat those forever.
- Handlers.FetchPackage: leaves out instructions that reach the end of the address space, where adding the length wraps.
- Environment.MapFromEnvironment: the block is one that reading line by line leaves at its final NUL, as the operating system's is; the maps' iteration order is a parameter.
- HartAllocation.QemuSystem.BootSystem: with 65536 CPUs or more the ids of the CPUs wrap themselves, and a request for all of them would not end.
