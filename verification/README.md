# Single Source channels: models and proofs

A Dafny model of the SystemC channel library (`components/common/sctcommon`) as clocked step machines, and of four
algorithms beside it: the payload event queue and the target socket conversion of TLM, the DMA example, and the
assertion monitors. `dafny verify dfyconfig.toml` checks the whole project.

## How it is built

Every channel is a class with the fields of the source: registers, toggle-coded requests, ring buffers, indices,
combinational outputs. Its methods are the processes and the interface functions of the source, statement by statement.
One cycle settles the combinational processes, then every process takes the clock edge reading what was settled (the
evaluate and update phases of section 4.2 of IEEE Std 1666-2011). `Cycle`, or its counterpart, is proved to be one step
of a small machine on values; the properties of all runs are proved about these machines.

| files | what they model |
|---|---|
| `Ring`, `QueueChannel`, `LaggingChannel`, `LagTheorems` | ring buffers; a FIFO as its user sees it; the same with requests of threads pending for one cycle; when the two agree |
| `SimFifo`, `RtlFifo`, `PrimFifo`, `Wakeups`, `FifoEquivalence` | `sct_fifo` as simulated and as synthesised, `sct_prim_fifo` with its events, and the three side by side |
| `LinkChannel`, `Link`, `TargetFifo` | `sct_initiator` and `sct_target`, with and without an attached FIFO |
| `PipeChannel`, `Pipe` | `sct_pipe` and its data module `sct_pl_reg` |
| `EndToEnd`, `Drain`, `DrainingChannels`, `Resets` | whole runs of these channels, from construction on; how soon everything comes out; runs with resets in between |
| `BufferQueue`, `Buffer`, `BufferWakeups`, `EmptyBuffer` | `sct_prim_buffer` and `sct_buffer_impl`, whom they wake, and what they show when empty |
| `TimeOrder`, `TimeOrderedList`, `PeqMachine`, `PeqPending`, `PeqReactions`, `Peq`, `PeqReactingRuns` | `peq_with_cb_and_phase` with the one pending notification of its event (section 5.10 of IEEE Std 1666-2011); callbacks may notify the queue again |
| `ConversionMachine`, `TargetSocket` | the non-blocking to blocking conversion of `simple_target_socket` |
| `Transfer`, `Dma`, `Division` | `GenDma` against the memory of its test bench |
| `Monitor`, `StableMonitor` | `sct_property`: `left \|-> ##[lo:hi] right` (clause 16 of IEEE Std 1800-2017), and its stable, rose and fell forms |
| `AdvChannel`, `AdvFifo` | `adv_fifo` of the shared memory design, without clock-match enables |
| `Widths`, `Bits` | compile-time logarithms and bit utilities |

Lengths, stage numbers, widths, data types and run lengths are parameters everywhere. Ports, clocks and the kernel
become arguments: what a process wants in a cycle (`Demand`), which event fires next (`Event`, `Step`), what the
initiator replies.

## What the proofs found

- The simulated FIFO shows the true queue on every run exactly in the configurations the library does not warn about;
  in the others nothing is lost, but valid or ready comes one cycle late (`LagTheorems.FaithfulIffCovered`).
- The approximate-time FIFO allocates two slots for length one, so it is cycle accurate exactly for longer FIFOs
  (`FifoEquivalence.PrimAccurateIff`).
- Its selective notifications lose no wakeup, for threads and methods alike, as long as a thread tries whenever it is
  woken (`FifoEquivalence.RunByEvents`). A thread that passes up its chance with no request of the other side pending or
  made is not woken again for it (`PrimFifo.Fifo.DeclinePut`, `PrimFifo.Fifo.DeclineGet`); when exactly a thread is woken,
  for either kind of the other side, is stated by `Wakeups.PutterWokenIff` and `Wakeups.GetterWokenIff`.
- Two methods with no registered flag, which the cycle-accurate FIFO refuses for its combinational loop and the
  approximate-time one accepts, come to rest in every clock cycle unless `use_elem_num` is on and both want something.
  Then they wake each other in every delta cycle without end (`FifoEquivalence.NextCycleRests`,
  `FifoEquivalence.NeverRests`). So they do, with `use_elem_num` off too, if one is evaluated again while both requests
  are up; the exact condition from any point of a clock cycle is in `PrimFifo.Fifo.Deltas`.
- With one thread and one method, the element number of the simulated FIFO already counts the method's request of the
  same cycle (`SimFifo.Fifo.ElemNumCounts`).
- `adv_fifo` is documented to take a push at any time, and elsewhere only while ready. The first holds but for the first
  cycle after reset, where an element can be handed on without being accepted (`AdvChannel.StepIsQueueIff`).
- Its constructor assert admits configurations in which the asynchronous almost-full flag comes late: registered valid
  with one element making the queue almost full (`AdvChannel.AlwaysInTimeIff`).
- An initiator that acknowledges a response inside the backward call and then returns without completing it blocks the
  target socket for good, and nothing else does (`ConversionMachine.AliveIffFair`, `ConversionMachine.DeadForever`).
- `sct_popcount` wraps around for a mask whose width is a power of two above one and whose bits are all set
  (`Bits.PopcountExactIff`).
- The comment on `get` of the buffers promises the last data when there is none. The code returns an element put last and
  taken back, or else the element put `size` puts ago, or the initial value. So the promise is kept only with a single
  slot and only if no put is taken back (`EmptyBuffer.GetFromEmpty`, `EmptyBuffer.LastDataIff`,
  `EmptyBuffer.TakenBackIsReturned`).
- A thread that makes multiple gets from the loosely timed buffer and sleeps when it is empty is woken only by a put that
  finds at most two free slots; with fewer puts the elements stay unnoticed (`BufferWakeups.SleepingGetterWokenIff`,
  `Buffer.NeverNoticed`).
- `GenDma` with N a multiple of two to the address width truncates its burst length to zero. With anything to move it
  then never ends (`Transfer.EndsIff`), and every pass of its burst loop writes a word to the slot of the largest 64-bit
  index, outside its buffer (`Dma.Engine.EmptyBursts`).
- A callback that notifies its payload event queue again, with any delay or none, while the queue is being read has the
  same effect as if it did so right afterwards (`PeqReactions.PartsReact`).

## Model

| member | source | states |
|---|---|---|
| LagTheorems.FaithfulIffCovered | components/common/sctcommon/sct_fifo.h:489-498 | the simulated flags and data are those of the true queue on every run, for every length, if and only if the configuration is one the library does not warn about (whether or not it refuses it for a combinational loop) |
| LagTheorems.CoveredRun | components/common/sctcommon/sct_fifo.h:345-395 | on any run of a covered configuration the lagging simulated state shows what the queue of stored, minus pending pop, plus pending push shows |
| LagTheorems.CoveredCycle | components/common/sctcommon/sct_fifo.h:328-413 | one cycle of it: ready exactly below the length or, for a method get, with its pop; valid exactly when not empty or, for a method put, with its push; the data is the true head |
| LagTheorems.NothingLost | components/common/sctcommon/sct_fifo.h:415-476 | in every configuration, covered or not: accepted and taken elements balance in order, and at most `length` are held |
| LagTheorems.StepConserves | components/common/sctcommon/sct_fifo.h:415-476 | in every configuration one cycle loses and duplicates nothing: what was inside and what is accepted is what is taken and what stays |
| LagTheorems.QueueStep | components/common/sctcommon/sct_fifo.h:415-476 | one cycle removes the head on a pop and appends on a push although both are carried out one edge later for threads |
| LagTheorems.LateValid | components/common/sctcommon/sct_fifo.h:489-493 | a thread put with a registered valid: the run on which valid comes one cycle late |
| LagTheorems.LateReady | components/common/sctcommon/sct_fifo.h:494-498 | a thread get with a registered ready: the run on which ready comes one cycle late |
| LagTheorems.LateAtMostOne | components/common/sctcommon/sct_fifo.h:345-395 | in every configuration, covered or not, the flags come at most one cycle late: what was in the queue and is not taken shows in the next cycle, a slot that was free and is not filled is offered, and after an idle cycle both flags are those of the queue |
| LagTheorems.UncoveredRun | components/common/sctcommon/sct_fifo.h:489-498 | every uncovered configuration and every length has a run that shows the difference |
| LagTheorems.Filling | components/common/sctcommon/sct_fifo.h:191-219 | puts in a row are accepted until the channel is full, in the simulation and in the queue |
| FifoEquivalence.BothCycle | components/common/sctcommon/sct_fifo.h:328-476 | one cycle of the simulated and of the synthesised FIFO in a covered configuration: same flags, same data while valid, and the synthesised count equals the simulated one plus pending push minus pending pop again |
| FifoEquivalence.RunBoth | components/common/sctcommon/sct_fifo.h:328-476 | over a run of any length in a covered configuration the simulated and the synthesised FIFO show the same and stay in step |
| FifoEquivalence.RunBothFromReset | components/common/sctcommon/sct_fifo.h:328-476 | the same from construction on, for every length and every covered configuration |
| FifoEquivalence.SameQueueInStep | components/common/sctcommon/sct_fifo.h:345-363 | two FIFOs with the same true queue have counts that differ by the pending requests |
| FifoEquivalence.RunSim | components/common/sctcommon/sct_fifo.h:328-476 | a run of the simulated FIFO is a run of the lagging channel, in every configuration |
| FifoEquivalence.RunPrim | components/common/sctcommon/sct_prim_fifo.h:130-231 | a run of the approximate-time FIFO in which every process runs in every cycle is a run of the same lagging channel |
| FifoEquivalence.RunPrimByEvents | components/common/sctcommon/sct_prim_fifo.h:344-486 | a run driven by events, in which only the threads and methods run that put_event, get_event or a change of their own demand has woken, is that same run, for all process kinds, as long as the delta cycles of each clock cycle come to rest: no wakeup is lost |
| FifoEquivalence.NextCycleRests | components/common/sctcommon/sct_prim_fifo.h:290-486 | from construction, after any such run: the delta cycles of one more clock cycle come to rest if and only if it is not one of two methods that see each other's requests, with the element number used and both wanting something |
| FifoEquivalence.NeverRests | components/common/sctcommon/sct_prim_fifo.h:344-486 | the first cycle of such a FIFO in which both methods want something: after any number of delta cycles a method is woken again |
| FifoEquivalence.RunInLockStep | components/common/sctcommon/sct_prim_fifo.h:130-231 | from construction, for every length and every configuration: what the simulated and the approximate-time FIFO show is the same exactly on the runs that tell its allocated size from the length, so for every length above one always |
| FifoEquivalence.RunByEvents | components/common/sctcommon/sct_prim_fifo.h:344-486 | from construction, for every length above one and every configuration, with the approximate-time FIFO driven by events alone: both show the same, as long as every cycle comes to rest |
| FifoEquivalence.SecondPutFits | components/common/sctcommon/sct_fifo.h:743 | a FIFO of length one is given two slots: the second put is refused by one slot and accepted by two |
| FifoEquivalence.PrimAccurateIff | components/common/sctcommon/sct_fifo.h:743 | the approximate-time FIFO is cycle accurate on every run if and only if the length is above one |
| FifoEquivalence.DifferForLengthOne | components/common/sctcommon/sct_fifo.h:743 | the two FIFO objects of length one on three puts: the simulated one accepts the first, the approximate-time one the first two and not the third |
| FifoEquivalence.ThreePuts | components/common/sctcommon/sct_fifo.h:743 | three puts in a row are accepted while fewer than the slots have been |
| EndToEnd.RunSim | components/common/sctcommon/sct_fifo.h:328-476 | from construction, any run of the simulated FIFO: what is taken is a prefix of what was accepted, and at most `length` elements are left; with a user who takes in every cycle all that was accepted comes out within 2 * length cycles |
| EndToEnd.RunRtl | components/common/sctcommon/sct_fifo.h:337-470 | from construction, any run of the synthesised FIFO: what is taken is a prefix of what was accepted, and at most `length` elements are left; with a user who takes in every cycle all that was accepted comes out within length cycles |
| EndToEnd.RunPrim | components/common/sctcommon/sct_prim_fifo.h:130-231 | from construction, any run of the approximate-time FIFO: what is taken is a prefix of what was accepted, and at most its slots are left; with a user who takes in every cycle all that was accepted comes out within 2 * size cycles |
| EndToEnd.RunPrimByEvents | components/common/sctcommon/sct_prim_fifo.h:344-486 | the same driven by events, for threads that try and methods that do anything, as long as every cycle comes to rest; with a user who takes in every cycle all that was accepted comes out within 2 * size cycles |
| EndToEnd.RunLink | components/common/sctcommon/sct_target.h:89-271 | from construction, for all process kinds and sync settings: what the target takes is a prefix of what the initiator accepted, and at most the capacity is in flight; with a user who takes in every cycle all that was accepted comes out within twice the capacity in cycles |
| EndToEnd.RunFed | components/common/sctcommon/sct_target.h:213-271 | from construction, a target with an attached FIFO: what is taken is a prefix of what the initiator accepted, and at most FIFO length plus capacity are inside; with a user who takes in every cycle all that was accepted comes out within three cycles for each slot and register |
| EndToEnd.RunPipe | components/common/sctcommon/sct_pipe.h:352-432 | from construction, for every number of stages N: what is taken from the pipe is a prefix of what was put, and at most N + 2 are inside; with a user who takes in every cycle all that was accepted comes out within (N + 2) * (N + 1) cycles |
| Drain.TracedIsPrompt | components/common/sctcommon/sct_target.h:213-271 | if the oldest element gets nearer to the exit in every cycle in which nothing leaves, everything accepted comes out within the bound |
| DrainingChannels.FedDrains | components/common/sctcommon/sct_target.h:224-271 | it does so from the initiator through the handshake and the FIFO, whether the FIFO refuses in between or not |
| DrainingChannels.PipeDrains | components/common/sctcommon/sct_pipe.h:352-394 | through the stages of the pipe |
| DrainingChannels.LinkDrains | components/common/sctcommon/sct_initiator.h:223-291 | through the registers of initiator and target |
| DrainingChannels.LagDrains | components/common/sctcommon/sct_fifo.h:345-395 | through the simulated FIFO in every configuration |
| DrainingChannels.QueueDrains | components/common/sctcommon/sct_fifo.h:337-395 | and through the synthesised one |
| Resets.RunTwo | components/common/sctcommon/sct_fifo.h:415-434 | from construction, with resets between any two cycles: the simulated and the synthesised FIFO show the same in every covered configuration |
| Resets.RunBoth | components/common/sctcommon/sct_fifo.h:415-434 | and stay in step across every reset |
| Resets.RunTimed | components/common/sctcommon/sct_prim_fifo.h:255-317 | the simulated and the approximate-time FIFO show the same across resets, in every configuration, for every length above one |
| Resets.StartsOver | components/common/sctcommon/sct_fifo.h:415-434 | after a reset a run is one of an empty queue, whatever came before |
| QueueChannel.Resolve | components/common/sctcommon/sct_fifo.h:366-395 | the outcome of a cycle satisfies the equations between flags and requests of the combinational network |
| QueueChannel.SettledIsUnique | components/common/sctcommon/sct_fifo.h:328-413 | whatever order the combinational processes are evaluated in, they settle to this outcome |
| QueueChannel.FlagsByDemand | components/common/sctcommon/sct_fifo.h:366-395 | the settled flags by what both sides want: ready with a free slot or a method get in the same cycle, valid with an element or a method put in the same cycle |
| QueueChannel.StaysFullIff | components/common/sctcommon/sct_fifo.h:366-395 | a full queue whose user puts and gets in every cycle accepts in every cycle and stays full, if and only if the getting side is a method and ready is not registered |
| QueueChannel.ConservedInOrder | components/common/sctcommon/sct_fifo.h:415-476 | over every run each accepted element is taken exactly once and in order, and the queue stays within its length |
| QueueChannel.RunAppend | components/common/sctcommon/sct_fifo.h:415-476 | a run can be cut anywhere: the second part starts from the queue the first part leaves |
| LaggingChannel.Resolve | components/common/sctcommon/sct_fifo.h:345-395 | the settled network of the simulated FIFO and of the approximate-time one |
| LaggingChannel.SettledIsUnique | components/common/sctcommon/sct_fifo.h:345-395 | its equations have one solution, so the number of evaluation rounds does not matter |
| LaggingChannel.FlagsByDemand | components/common/sctcommon/sct_fifo.h:345-395 | the settled flags by what is stored, what is pending and what methods want |
| LaggingChannel.After | components/common/sctcommon/sct_fifo.h:443-470 | the next state is again one in which pending requests can be carried out |
| Ring.PushBack | components/common/sctcommon/sct_fifo.h:452-458 | writing the slot at the push index appends to the queue, also across the wrap |
| Ring.Edge | components/common/sctcommon/sct_fifo.h:443-462 | an optional pop together with an optional push at one edge, also on a full or an empty ring |
| Ring.ContentsAt | components/common/sctcommon/sct_fifo.h:345-363 | the k-th element of the queue is in the slot k behind the pop index |
| Ring.ContentsDrop | components/common/sctcommon/sct_prim_buffer.h:285-300 | moving the pop index past k elements leaves the others |
| Ring.ContentsTake | components/common/sctcommon/sct_prim_buffer.h:285-300 | counting fewer elements leaves the oldest ones |
| SimFifo.Fifo.AsyncProc | components/common/sctcommon/sct_fifo.h:328-413 | the simulated outputs are the flags and the head of the lagging state, whatever the stale requests |
| SimFifo.Fifo.SyncProc | components/common/sctcommon/sct_fifo.h:415-476 | the clock-edge process carries out the pending requests and leaves none |
| SimFifo.Fifo.MoveRing | components/common/sctcommon/sct_fifo.h:443-462 | its index arithmetic is the ring edge |
| SimFifo.Fifo.Put | components/common/sctcommon/sct_fifo.h:191-219 | accepted exactly if ready and not masked; a thread toggles its request, a method sets it; the data register is written either way |
| SimFifo.Fifo.Get | components/common/sctcommon/sct_fifo.h:148-174 | succeeds exactly if valid and enabled; a thread toggles its request, a method sets it |
| SimFifo.Fifo.ClearPut | components/common/sctcommon/sct_fifo.h:130-141 | drops a method request, keeps a thread request, clears the data register |
| SimFifo.Fifo.ClearGet | components/common/sctcommon/sct_fifo.h:118-128 | drops a method request, keeps a thread request |
| SimFifo.Fifo.Reset | components/common/sctcommon/sct_fifo.h:415-434 | the reset branches lead to the empty queue |
| SimFifo.Fifo.PutProc | components/common/sctcommon/sct_fifo.h:191-219 | the body of the putting process |
| SimFifo.Fifo.GetProc | components/common/sctcommon/sct_fifo.h:148-174 | the body of the getting process |
| SimFifo.Fifo.Evaluate | components/common/sctcommon/sct_fifo.h:328-413 | one evaluation of every combinational process |
| SimFifo.Fifo.Settle | components/common/sctcommon/sct_fifo.h:328-413 | two rounds settle the network from any stale requests |
| SimFifo.Fifo.SettledShows | components/common/sctcommon/sct_fifo.h:328-413 | what is settled is the channel outcome |
| SimFifo.Fifo.ClockEdge | components/common/sctcommon/sct_fifo.h:415-476 | one clock edge is one step of the lagging channel |
| SimFifo.Fifo.Cycle | components/common/sctcommon/sct_fifo.h:328-476 | one whole cycle of the simulated FIFO is one step of the lagging channel, in every configuration |
| SimFifo.Fifo.ElemNumCounts | components/common/sctcommon/sct_fifo.h:253-267 | the settled element number is the size of the true queue, plus the own request of the method when one side is a thread and one a method; it stays within 0..length |
| RtlFifo.Fifo.AsyncProc | components/common/sctcommon/sct_fifo.h:337-395 | the synthesised outputs are the flags and the head of the stored queue |
| RtlFifo.Fifo.SyncProc | components/common/sctcommon/sct_fifo.h:443-470 | the edge carries out the granted requests |
| RtlFifo.Fifo.WhatIsGranted | components/common/sctcommon/sct_fifo.h:148-219 | once settled a put is requested exactly if one is wanted and there is room, or a method takes an element in the same cycle; a get exactly if one is wanted and there is an element, or a method puts one in the same cycle |
| RtlFifo.Fifo.Reset | components/common/sctcommon/sct_fifo.h:415-434 | reset leads to the empty queue |
| RtlFifo.Fifo.Settle | components/common/sctcommon/sct_fifo.h:337-395 | two rounds settle the network |
| RtlFifo.Fifo.Cycle | components/common/sctcommon/sct_fifo.h:337-470 | one whole cycle of the synthesised FIFO is one step of the plain queue, in every configuration |
| PrimFifo.Fifo.QueriesAreFlags | components/common/sctcommon/sct_prim_fifo.h:199-231 | putReady, outValid and getData are the flags and the head of the lagging state |
| PrimFifo.Fifo.UpdateProc | components/common/sctcommon/sct_prim_fifo.h:130-196 | the update carries out a reset entry or else the pending requests, keeps the mirrored head data, and schedules the events of registered flags; the two internal asserts hold |
| PrimFifo.Fifo.ResetCore | components/common/sctcommon/sct_prim_fifo.h:255-269 | reset entry schedules the clearing update, reset exit wakes both processes |
| PrimFifo.Fifo.EnterReset | components/common/sctcommon/sct_prim_fifo.h:255-317 | reset entry with both reset sections takes back the requests of methods and leaves those of threads to the update, which takes them back |
| PrimFifo.Fifo.Reset | components/common/sctcommon/sct_prim_fifo.h:255-269 | a whole reset leaves the empty channel with both processes awake, whatever requests and events were around |
| PrimFifo.Fifo.MoveRing | components/common/sctcommon/sct_prim_fifo.h:133-158 | its index arithmetic is the ring edge |
| PrimFifo.Fifo.Put | components/common/sctcommon/sct_prim_fifo.h:379-409 | accepted exactly if ready and not masked, with the notifications it makes |
| PrimFifo.Fifo.Get | components/common/sctcommon/sct_prim_fifo.h:454-486 | succeeds exactly if valid and enabled, with the notifications it makes |
| PrimFifo.Fifo.Settle | components/common/sctcommon/sct_prim_fifo.h:199-231 | two evaluations of every method settle the requests, whatever they were |
| PrimFifo.Fifo.SettleByEvents | components/common/sctcommon/sct_prim_fifo.h:290-486 | evaluating only the methods whose event has been notified settles the same in three delta cycles and leaves none notified, wherever the delta cycles come to rest |
| PrimFifo.Fifo.Deltas | components/common/sctcommon/sct_prim_fifo.h:290-486 | from any point of a clock cycle, after any number of delta cycles from three on: no method is woken any more if and only if the two do not see each other's requests, or not both want something, or none was woken, or the element number is not used and at most one request was up, with one method woken if it was; then all is settled, else it goes on for ever |
| PrimFifo.Fifo.SpinsAtStart | components/common/sctcommon/sct_prim_fifo.h:290-486 | at the start of a clock cycle that condition is: two methods that see each other's requests, the element number used, both wanting something |
| PrimFifo.Fifo.Delta | components/common/sctcommon/sct_prim_fifo.h:290-486 | one such delta cycle: whenever a method's request does not follow the flags and its demand, an event that wakes it has been notified |
| PrimFifo.Fifo.EndlessDelta | components/common/sctcommon/sct_prim_fifo.h:290-486 | two methods that see each other's requests, with both requests up and one method woken: the next delta cycle leaves that again |
| PrimFifo.Fifo.LoopedDeltas | components/common/sctcommon/sct_prim_fifo.h:290-486 | where three delta cycles of two such methods lead |
| PrimFifo.Fifo.SettledShows | components/common/sctcommon/sct_prim_fifo.h:199-231 | what is settled is the channel outcome |
| PrimFifo.Fifo.TickWakesIff | components/common/sctcommon/sct_prim_fifo.h:344-486 | the notifications of put, get and update are exactly those of the cycles that wake a process, for all process kinds, with and without the element number |
| PrimFifo.Fifo.RunThreads | components/common/sctcommon/sct_prim_fifo.h:344-452 | the threads that are awake write their requests and notify |
| PrimFifo.Fifo.ClockEdge | components/common/sctcommon/sct_prim_fifo.h:130-196 | one tick is one step of the lagging channel, also if a thread that would do nothing sleeps, and notifies exactly the events it should |
| PrimFifo.Fifo.Cycle | components/common/sctcommon/sct_prim_fifo.h:130-231 | one whole cycle with every process running is one step of the lagging channel, in every configuration, and leaves exactly the events of the waking cycles notified |
| PrimFifo.Fifo.CycleKeeps | components/common/sctcommon/sct_prim_fifo.h:344-486 | whether a cycle leaves a thread asleep in front of a channel it could use, for either kind of the other side, with and without the element number |
| PrimFifo.Fifo.StaysAlert | components/common/sctcommon/sct_prim_fifo.h:344-486 | after every tick each thread that could act is scheduled, and each method whose request does not follow its demand is woken |
| PrimFifo.Fifo.EventTick | components/common/sctcommon/sct_prim_fifo.h:344-486 | a tick with only the scheduled threads running leaves what it would with all of them |
| PrimFifo.Fifo.EventCycle | components/common/sctcommon/sct_prim_fifo.h:344-486 | no lost wakeups, for all process kinds: a cycle in which only woken processes run, and which comes to rest, shows and leaves what one with all of them running does, and wakes again every process that has something to do |
| PrimFifo.Fifo.DeclinePut | components/common/sctcommon/sct_prim_fifo.h:344-377 | a putting thread that passes up a ready channel with no get pending or made: the channel stays ready and put_event is not scheduled |
| PrimFifo.Fifo.DeclineGet | components/common/sctcommon/sct_prim_fifo.h:454-486 | a getting thread that passes up a valid channel with no put pending or made: the channel stays valid and get_event is not scheduled |
| Wakeups.PutterIsWoken | components/common/sctcommon/sct_prim_fifo.h:344-377 | if the channel is ready after a cycle in which the putting process tries, the cycle has woken it, whatever the getting side does and whatever the kinds of both |
| Wakeups.GetterIsWoken | components/common/sctcommon/sct_prim_fifo.h:454-486 | if the channel is valid after a cycle in which the getting process tries, the cycle has woken it, whatever the putting side does |
| Wakeups.PutterWokenIff | components/common/sctcommon/sct_prim_fifo.h:344-377 | exactly when a channel that is ready after a cycle has its putting thread woken: facing a thread, it tried, or the channel was not ready, or a pending get is carried out with a registered ready, or a get is made with the element number used or on top of a pending one in a channel without room; facing a method, it tried, or a get is made with a registered ready, or none is and the channel was not ready |
| Wakeups.GetterWokenIff | components/common/sctcommon/sct_prim_fifo.h:454-486 | its mirror for the getting thread |
| Wakeups.PutterWokenIffTries | components/common/sctcommon/sct_prim_fifo.h:344-377 | so in a ready channel with no get pending or made: if and only if it tried |
| Wakeups.GetterWokenIffTries | components/common/sctcommon/sct_prim_fifo.h:454-486 | and in a valid channel with no put pending or made: if and only if it tried |
| LinkChannel.ConservedInOrder | components/common/sctcommon/sct_target.h:89-271 | over every run, for all process kinds and both sync settings, what is taken is what was accepted, in order and once, and no more is in flight than the capacity |
| LinkChannel.StepConserves | components/common/sctcommon/sct_target.h:89-271 | one cycle of the handshake loses and duplicates nothing |
| LinkChannel.QueueStep | components/common/sctcommon/sct_initiator.h:223-291 | the registers of both ends form one queue; each cycle removes its head on a get and appends on an accepted put |
| LinkChannel.After | components/common/sctcommon/sct_initiator.h:223-291 | the next state is again one the registers can be in |
| LinkChannel.CapacityReached | components/common/sctcommon/sct_target.h:690-693 | the bound, the size the target computes for its FIFO, is tight |
| LinkChannel.VisibleWithinOneCycle | components/common/sctcommon/sct_initiator.h:223-263 | an element in flight is visible to the target now or one cycle later |
| LinkChannel.LatencyIs | components/common/sctcommon/sct_initiator.h:223-291 | an element put into an empty link shows after no cycle for a method without the extra register, after one for a thread or for the extra register, after two for both |
| LinkChannel.AlwaysReadyForTakers | components/common/sctcommon/sct_target.h:238-245 | a target whose user takes in every valid cycle stays ready |
| Link.Initiator.Put | components/common/sctcommon/sct_initiator.h:119-177 | both puts: accepted exactly if the target is ready and the mask is on; only then a thread toggles its request; the data register is overwritten whenever the target is ready |
| Link.Initiator.ClearPut | components/common/sctcommon/sct_initiator.h:98-117 | a clear drops the request of a method and keeps that of a thread |
| Link.Initiator.ReqControl | components/common/sctcommon/sct_initiator.h:253-264 | the request and data outputs |
| Link.Initiator.SyncThread | components/common/sctcommon/sct_initiator.h:223-251 | the extra register moves exactly when the target is ready |
| Link.Initiator.CoreThread | components/common/sctcommon/sct_initiator.h:266-291 | the element being sent is sent again exactly as long as the target is not ready for it |
| Link.Initiator.ClockEdge | components/common/sctcommon/sct_initiator.h:223-291 | all registers of the initiator at one edge |
| Link.Target.ReadyControl | components/common/sctcommon/sct_target.h:238-245 | ready exactly if nothing is kept in the target register |
| Link.Target.CoreDataMux | components/common/sctcommon/sct_target.h:213-222 | the data shown is the kept element or the incoming one |
| Link.Target.Get | components/common/sctcommon/sct_target.h:127-160 | succeeds exactly if something is requested and enabled |
| Link.Target.ClearGet | components/common/sctcommon/sct_target.h:105-116 | a clear drops the request of a method and keeps that of a thread |
| Link.Target.CoreThread | components/common/sctcommon/sct_target.h:247-271 | the target keeps the head of the handshake, the kept element or the incoming one, exactly if it was not taken in this cycle |
| Link.Connect | components/common/sctcommon/sct_target.h:213-245 | one pass settles the signals between both ends |
| Link.ClockEdge | components/common/sctcommon/sct_target.h:247-271 | one edge of both ends is one step of the channel |
| Link.Cycle | components/common/sctcommon/sct_target.h:89-271 | one whole cycle of both ends is one step of the channel, for all process kinds |
| Link.OfferToFifo | components/common/sctcommon/sct_target.h:224-236 | put_to_fifo offers the attached FIFO the head of the handshake |
| Link.AnswerAndEdge | components/common/sctcommon/sct_target.h:224-236 | what the FIFO answers becomes the get of the target |
| Link.CycleWithFifo | components/common/sctcommon/sct_target.h:224-271 | one whole cycle with an attached FIFO is one step of the composed channel |
| TargetFifo.OneQueue | components/common/sctcommon/sct_target.h:213-271 | FIFO contents, target register and initiator registers are one queue, whether the FIFO accepts or refuses in a cycle |
| TargetFifo.HeadMovesIff | components/common/sctcommon/sct_target.h:224-236 | in any cycle in which the FIFO has room the handshake loses the head it shows, kept or just sent, and the FIFO gains it; without room the head is kept and the FIFO gains nothing |
| TargetFifo.PartsStep | components/common/sctcommon/sct_target.h:224-236 | the FIFO moves exactly the elements it accepts from the head of the handshake |
| TargetFifo.StepConserves | components/common/sctcommon/sct_target.h:213-271 | one cycle loses and duplicates nothing |
| TargetFifo.ConservedInOrder | components/common/sctcommon/sct_target.h:213-271 | over every run what is taken from the FIFO is what was put into the initiator, in order and once |
| TargetFifo.Bounded | components/common/sctcommon/sct_target.h:690-696 | the whole holds at most the FIFO length plus the handshake registers |
| PipeChannel.ConservedInOrder | components/common/sctcommon/sct_pipe.h:352-432 | for every number of stages and every run the pipe delivers what was put, in order and once |
| PipeChannel.StepConserves | components/common/sctcommon/sct_pipe.h:352-432 | one cycle of the pipe loses and duplicates nothing |
| PipeChannel.QueueStep | components/common/sctcommon/sct_pipe.h:352-432 | one cycle removes the head on a get and appends on an accepted put; what is shown is the oldest element |
| PipeChannel.CollapseKeepsOrder | components/common/sctcommon/sct_pipe.h:368-388 | shifting everything below the top free stage up by one keeps elements and order |
| PipeChannel.PullKeepsOrder | components/common/sctcommon/sct_pipe.h:359-367 | pulling the last stage into the output register keeps the order |
| PipeChannel.StagesAfter | components/common/sctcommon/sct_pipe.h:352-394 | the stages after a cycle hold what the pull left, then what entered |
| PipeChannel.Bounded | components/common/sctcommon/sct_pipe.h:352-394 | what a pipe can hold |
| PipeChannel.NotReadyIffFull | components/common/sctcommon/sct_pipe.h:352-394 | not ready exactly when all stages are busy and the output register is full after any pop |
| PipeChannel.AlwaysReadyForTakers | components/common/sctcommon/sct_pipe.h:352-394 | if the consumer pops in every valid cycle, ready never drops |
| PipeChannel.FixedDelayForTakers | components/common/sctcommon/sct_pipe.h:352-394 | and an element in stage i is presented exactly N-1-i edges later, so N-1 after it was loaded |
| PipeChannel.FreeOutputShifts | components/common/sctcommon/sct_pipe.h:352-394 | with a free output register every element moves up by one stage |
| Pipe.PlReg.PlProc | components/common/sctcommon/sct_pipe.h:89-112 | the data module moves each enabled stage from its predecessor, in place |
| Pipe.Pipe.Shift | components/common/sctcommon/sct_pipe.h:368-388 | the descending loop collapses the busy bits and raises exactly the enables of the stages that move |
| Pipe.Pipe.Pull | components/common/sctcommon/sct_pipe.h:357-367 | the output register takes the last stage if it is free |
| Pipe.Pipe.AsyncProc | components/common/sctcommon/sct_pipe.h:352-394 | flags, enables and next-state outputs are those of the channel |
| Pipe.Pipe.Put | components/common/sctcommon/sct_pipe.h:240-268 | accepted exactly if ready and not masked |
| Pipe.Pipe.Get | components/common/sctcommon/sct_pipe.h:219-238 | succeeds exactly if valid and enabled |
| Pipe.Pipe.Settle | components/common/sctcommon/sct_pipe.h:352-394 | the combinational processes settle |
| Pipe.Pipe.SyncProc | components/common/sctcommon/sct_pipe.h:396-432 | the registered flags |
| Pipe.Pipe.ClockEdge | components/common/sctcommon/sct_pipe.h:396-432 | busy bits and data, moved by different modules, stay together |
| Pipe.Pipe.Cycle | components/common/sctcommon/sct_pipe.h:352-432 | one whole cycle of the pipe is one step of the channel, for every number of stages |
| PeqMachine.RunKeepsInv | systemc/src/tlm_utils/peq_with_cb_and_phase.h:219-282 | over every run of notifications, cancellations, callbacks and kernel steps: if anything is queued the callback process is scheduled no later than it is due, callbacks are the stable sort of the notifications, and delta payloads come in the next delta cycle |
| PeqMachine.CalledIffDue | systemc/src/tlm_utils/peq_with_cb_and_phase.h:266-280 | a timed payload has been called back exactly if it was notified, not cancelled and is due by now: once, and at its due time |
| PeqMachine.TiesInNotifyOrder | systemc/src/tlm_utils/peq_with_cb_and_phase.h:266-280 | payloads due at one time are called back in the order of notification |
| PeqMachine.DeltaCalledInNext | systemc/src/tlm_utils/peq_with_cb_and_phase.h:250-265 | delta payloads are called back in the delta cycle after their notification, in order; immediate ones at once |
| PeqMachine.EveryRunCallsWhatIsDue | systemc/src/tlm_utils/peq_with_cb_and_phase.h:219-282 | on every run from the start, with no callback waiting to run: entries are called back exactly if due, at their due time, ties in notification order; delta payloads in order and in the next delta cycle, immediate ones all |
| PeqMachine.CalledAtDelay | systemc/src/tlm_utils/peq_with_cb_and_phase.h:219-231 | on every run, a payload notified with a delay and not cancelled has been called back exactly that much later than it was notified, once that time has come |
| PeqMachine.CalledInNextDelta | systemc/src/tlm_utils/peq_with_cb_and_phase.h:219-225 | and one notified without a delay in the very next delta cycle |
| PeqPending.PendingIsNeeded | systemc/src/tlm_utils/peq_with_cb_and_phase.h:219-282 | on every run, while no callback is waiting to run, the event is pending exactly for the earliest payload queued, and not at all without one |
| PeqPending.TimeGoesOn | systemc/src/tlm_utils/peq_with_cb_and_phase.h:266-280 | so time can always go on to the next payload due: no notification without a payload holds it up |
| PeqReactingRuns.EveryReactingRunCallsWhatIsDue | systemc/src/tlm_utils/peq_with_cb_and_phase.h:219-282 | the same for callbacks that notify the queue again, with any delay or none, while the callback process runs, and for what they notify |
| PeqReactingRuns.RunExpands | systemc/src/tlm_utils/peq_with_cb_and_phase.h:219-282 | a run with such callbacks is a run of the plain machine in which what they notify is notified right after the callback process |
| PeqReactingRuns.Run | systemc/src/tlm_utils/peq_with_cb_and_phase.h:183-282 | the queue object itself, from construction over any such run, is in the state of the machine |
| PeqReactingRuns.TakeStep | systemc/src/tlm_utils/peq_with_cb_and_phase.h:219-292 | any step of the user, of the kernel or of the callback process, on the object |
| PeqReactions.PartsReact | systemc/src/tlm_utils/peq_with_cb_and_phase.h:250-282 | the three loops of the callback process with callbacks that notify again are the process without, followed by what they notify |
| PeqReactions.NotifyPastCallDelta | systemc/src/tlm_utils/peq_with_cb_and_phase.h:255-265 | a notification may be moved across the delta part: it changes neither what is due now nor the parity list that is read |
| PeqReactions.NotifyPastCallTimed | systemc/src/tlm_utils/peq_with_cb_and_phase.h:266-280 | a notification may be moved across the timed part: what is notified is due later than what is called back |
| PeqReactions.CallTopsDoes | systemc/src/tlm_utils/peq_with_cb_and_phase.h:271-277 | the loop that calls back, lets notify and then removes the first entry calls back exactly what was due when it began |
| PeqReactions.NotifyPastRearm | systemc/src/tlm_utils/peq_with_cb_and_phase.h:226-230 | the event keeps its earliest notification, so rearming commutes with a notification |
| PeqMachine.StaysArmed | systemc/src/tlm_utils/peq_with_cb_and_phase.h:226-230 | no step leaves a queued payload without a pending notification in time, although an event keeps only its earliest one |
| PeqMachine.StaysTimedOk | systemc/src/tlm_utils/peq_with_cb_and_phase.h:266-280 | no step breaks the order or the due times of timed callbacks |
| PeqMachine.StaysDeltaOk | systemc/src/tlm_utils/peq_with_cb_and_phase.h:250-265 | no step breaks the order of delta and immediate callbacks |
| PeqMachine.KernelStaysArmed | systemc/src/tlm_utils/peq_with_cb_and_phase.h:226-230 | ending a delta cycle or advancing time misses nothing that is due |
| PeqMachine.CallbackStaysArmed | systemc/src/tlm_utils/peq_with_cb_and_phase.h:278-280 | the callback process notifies the event again for what is left |
| Peq.DeltaList.Insert | systemc/src/tlm_utils/peq_with_cb_and_phase.h:163-168 | appends, growing the array when it is full |
| Peq.DeltaList.Get | systemc/src/tlm_utils/peq_with_cb_and_phase.h:170-172 | reads at the cursor |
| Peq.DeltaList.Reset | systemc/src/tlm_utils/peq_with_cb_and_phase.h:178-181 | empties the list |
| Peq.Queue.Notify | systemc/src/tlm_utils/peq_with_cb_and_phase.h:219-232 | timed and zero-delay notification are the machine step, with the list for the right parity |
| Peq.Queue.NotifyNow | systemc/src/tlm_utils/peq_with_cb_and_phase.h:234-237 | immediate notification is the machine step; it replaces a pending one |
| Peq.Queue.CancelAll | systemc/src/tlm_utils/peq_with_cb_and_phase.h:240-246 | cancelling is the machine step |
| Peq.Queue.Fec | systemc/src/tlm_utils/peq_with_cb_and_phase.h:250-282 | the three loops of the callback process, with callbacks that notify the queue again, are the machine step with its reactions |
| Peq.Queue.React | systemc/src/tlm_utils/peq_with_cb_and_phase.h:219-232 | what one callback notifies, while a list is being read |
| Peq.Queue.LoopImmediate | systemc/src/tlm_utils/peq_with_cb_and_phase.h:252 | the loop over the immediate payloads calls back each once and in order, with what each notifies |
| Peq.Queue.LoopDelta | systemc/src/tlm_utils/peq_with_cb_and_phase.h:255-265 | the loop over a delta list calls back each entry once and in order, while the other list grows |
| Peq.Queue.LoopTimed | systemc/src/tlm_utils/peq_with_cb_and_phase.h:268-277 | the loop over the time-ordered list calls back exactly what is due, while the list is added to |
| Peq.Queue.RunTimed | systemc/src/tlm_utils/peq_with_cb_and_phase.h:266-280 | the timed part calls back what is due and notifies the event for the first entry left |
| Peq.Queue.EndDelta | systemc/src/tlm_utils/peq_with_cb_and_phase.h:292 | the end of a delta cycle, with the pending notification of the event |
| Peq.Queue.Advance | systemc/src/tlm_utils/peq_with_cb_and_phase.h:292 | the advance of time to, or before, that notification |
| TimeOrder.InsertAllIsStableSort | systemc/src/tlm_utils/peq_with_cb_and_phase.h:76-103 | inserting entries one by one sorts them by time, keeps each, and keeps the order among equal times |
| TimeOrder.InsertAt | systemc/src/tlm_utils/peq_with_cb_and_phase.h:88-101 | an entry goes behind all that are due no later |
| TimeOrder.InsertSorted | systemc/src/tlm_utils/peq_with_cb_and_phase.h:88-101 | insertion keeps the list sorted |
| TimeOrder.InsertStable | systemc/src/tlm_utils/peq_with_cb_and_phase.h:88-101 | insertion keeps the order among equal times |
| TimeOrderedList.OrderedList.constructor | systemc/src/tlm_utils/peq_with_cb_and_phase.h:52-58 | an empty list |
| TimeOrderedList.OrderedList.Insert | systemc/src/tlm_utils/peq_with_cb_and_phase.h:76-103 | relinking inserts into the sorted live list; every node stays in exactly one of the live list and the free list |
| TimeOrderedList.OrderedList.Add | systemc/src/tlm_utils/peq_with_cb_and_phase.h:76-103 | insertion as the queue uses it: no node joins the list but a new one |
| TimeOrderedList.OrderedList.FindPlace | systemc/src/tlm_utils/peq_with_cb_and_phase.h:88-93 | the walk stops behind everything that is due no later |
| TimeOrderedList.OrderedList.LinkIn | systemc/src/tlm_utils/peq_with_cb_and_phase.h:94-101 | relinking keeps the chain acyclic and ending at the sentinel |
| TimeOrderedList.OrderedList.TakeEmpty | systemc/src/tlm_utils/peq_with_cb_and_phase.h:77-83 | a node from the free list, or a new one |
| TimeOrderedList.OrderedList.DeleteTop | systemc/src/tlm_utils/peq_with_cb_and_phase.h:105-113 | the first node moves to the free list; size, links and order are kept |
| TimeOrderedList.OrderedList.Reset | systemc/src/tlm_utils/peq_with_cb_and_phase.h:70-74 | all nodes move to the free list |
| TimeOrderedList.OrderedList.Top | systemc/src/tlm_utils/peq_with_cb_and_phase.h:120-127 | the earliest entry |
| Transfer.TransferMoves | designs/examples/dma/GenDma_sc.h:96-128 | for every size, burst length and address pattern: each word arrives at its target and nothing else changes, if targets are distinct and no burst overwrites a word a later one reads |
| Transfer.DisjointTransferCopies | designs/examples/dma/GenDma_sc.h:96-128 | with targets distinct and apart from the sources each target equals its source at the end |
| Transfer.SingleBurstMayOverlap | designs/examples/dma/GenDma_sc.h:96-128 | a transfer of one burst may overlap its own sources |
| Transfer.WordArrives | designs/examples/dma/GenDma_sc.h:101-128 | one word through the remaining bursts |
| Transfer.OthersStay | designs/examples/dma/GenDma_sc.h:120-125 | an address that is no target is left alone |
| Transfer.WaitsExact | designs/examples/dma/GenDma_sc.h:101-128 | a transfer takes two waits per word and one per burst: 2*size + ceil(size/N) |
| Transfer.EndsIff | designs/examples/dma/GenDma_sc.h:99-128 | the burst loop ends if and only if the burst length is not zero or there is nothing to move |
| Transfer.LastSlotInBufferIff | designs/examples/dma/GenDma_sc.h:116 | the slot that takes the last word of the read half is in the buffer if and only if the burst is not empty; for an empty one it is the largest 64-bit index |
| Transfer.WordThroughBurst | designs/examples/dma/GenDma_sc.h:101-127 | one word through one burst: it waits at its source until its burst reads it, and stays at its target |
| Dma.MovesAreStrided | designs/examples/dma/GenDma_sc.h:106-107 | the first word of each side is at its base, each one further is one stride behind, modulo two to the address width |
| Dma.Engine.BurstIs | designs/examples/dma/GenDma_sc.h:101 | the words per burst are the buffer length where that is an address, and its remainder else |
| Dma.Engine.MemoryEdge | designs/examples/dma/GenDma_tb.cpp:195-219 | the memory answers a request at the next edge |
| Dma.Engine.ReadBurst | designs/examples/dma/GenDma_sc.h:102-116 | the pipelined read loop fills the buffer with the right words; its response assert never fails |
| Dma.Engine.WriteBurst | designs/examples/dma/GenDma_sc.h:117-125 | the write loop writes the buffer to the targets |
| Dma.Engine.OneBurst | designs/examples/dma/GenDma_sc.h:101-127 | a burst reads all its words before it writes the first |
| Dma.Engine.AllBursts | designs/examples/dma/GenDma_sc.h:99-128 | the burst loop performs the whole transfer, with its number of waits |
| Dma.Engine.EmptyBursts | designs/examples/dma/GenDma_sc.h:101-116 | with a buffer length that is zero as an address and something to move: after any number of passes all words are left, and each pass writes outside the buffer |
| Dma.Engine.MainProc | designs/examples/dma/GenDma_sc.h:96-132 | a transfer from start to interrupt, addresses modulo two to the address width; it requires exactly the condition under which the burst loop ends |
| Dma.CopyMemory | designs/examples/dma/GenDma_sc.h:93-132 | a whole transfer moves every word from its strided source to its strided target and touches nothing else, in exactly 2*size + ceil(size/N) waits of its burst loops |
| Monitor.Property.Init | components/common/sctcommon/sct_property.h:136-158 | the times in either order give the same monitor |
| Monitor.Property.Check | components/common/sctcommon/sct_property.h:172-202 | a call reports a violation exactly if the antecedent held hi calls before and the consequent nowhere in the window |
| Monitor.Accepts | components/common/sctcommon/sct_property.h:172-202 | sound and complete: a stream gets through exactly if it satisfies the assertion |
| Monitor.HoldsIffNeverMissed | components/common/sctcommon/sct_property.h:172-202 | the assertion over a whole stream, antecedent by antecedent, against the calls that miss |
| Monitor.SingleTimeIff | components/common/sctcommon/sct_property.h:172-202 | with a single time the consequent holds exactly that many calls after each antecedent |
| Monitor.InIntervalIff | components/common/sctcommon/sct_property.h:172-202 | one antecedent with one consequent is accepted exactly if their distance is in the interval, both ends included |
| Monitor.Overwrite | components/common/sctcommon/sct_property.h:194-201 | a modular index that overwrites the oldest slot is a sliding window |
| Monitor.LastPush | components/common/sctcommon/sct_property.h:194-201 | the window of the last n values, read as 0 before the first call |
| StableMonitor.Property.Init | components/common/sctcommon/sct_property.h:136-158 | the constructor asserts of the stable, rose and fell forms are its requirements |
| StableMonitor.Property.Check | components/common/sctcommon/sct_property.h:204-234 | a call reports a violation exactly if the consequent does not stay, rise or fall somewhere in the window |
| StableMonitor.Accepts | components/common/sctcommon/sct_property.h:204-234 | sound and complete on whole streams |
| StableMonitor.SteadyIffNeverUnfit | components/common/sctcommon/sct_property.h:204-234 | the assertion over a whole stream against the calls that miss |
| StableMonitor.OneFormFits | components/common/sctcommon/sct_property.h:211-217 | at each call exactly one of rose, fell and stable fits, by the value one call earlier, 0 before the first |
| StableMonitor.InIntervalIff | components/common/sctcommon/sct_property.h:204-234 | a consequent that changes once is stable exactly if the change is not in the interval, both ends included |
| StableMonitor.AllEqualIffNoStep | components/common/sctcommon/sct_property.h:211-217 | comparing all past values with the newest one is the same as comparing each with its predecessor |
| BufferQueue.StepConservesIff | components/common/sctcommon/sct_prim_buffer.h:107-224 | for all four request settings a step keeps every element once and in order if and only if it does not throw away a pending request |
| BufferQueue.RunConserves | components/common/sctcommon/sct_prim_buffer.h:107-224 | over every run without such a step: exactly once and in order, however gets, puts and updates mix |
| BufferQueue.MultiKeeps | components/common/sctcommon/sct_prim_buffer.h:107-224 | with multiple requests on both sides no step throws anything away |
| BufferQueue.MultiIsQueue | components/common/sctcommon/sct_prim_buffer.h:107-224 | so what such a buffer returns is a prefix of what it accepted, on every run |
| BufferQueue.GetsReturn | components/common/sctcommon/sct_prim_buffer.h:175-193 | n gets of one delta cycle with multiple requests return exactly the first n committed elements, or all there are |
| BufferQueue.SingleGetsReturn | components/common/sctcommon/sct_prim_buffer.h:175-193 | with single requests each returns the head again, which is removed once |
| BufferQueue.PutsAccepted | components/common/sctcommon/sct_prim_buffer.h:206-224 | puts of one delta cycle with multiple requests are accepted exactly while committed and put elements are fewer than the size |
| BufferQueue.SinglePutsAccepted | components/common/sctcommon/sct_prim_buffer.h:206-224 | with single requests all are accepted where a slot is left, and the last one stays |
| BufferQueue.UpdateCommits | components/common/sctcommon/sct_prim_buffer.h:285-301 | an update removes what was got and stores what was put, all of it for the next delta cycle |
| BufferQueue.Step | components/common/sctcommon/sct_prim_buffer.h:285-301 | every step keeps: gets within the stored elements, stored and put elements within the size |
| Buffer.PrimBuffer.constructor | components/common/sctcommon/sct_prim_buffer.h:35-45 | an empty buffer; it requires the size the source asserts, above one, and that it fits the 16-bit fields |
| Buffer.PrimBuffer.Ready | components/common/sctcommon/sct_prim_buffer.h:54-56 | room for one more put in this delta cycle |
| Buffer.PrimBuffer.Request | components/common/sctcommon/sct_prim_buffer.h:58-60 | one more element to get in this delta cycle |
| Buffer.PrimBuffer.Peek | components/common/sctcommon/sct_prim_buffer.h:102-104 | the slot shown is the next element to get |
| Buffer.PrimBuffer.DoGet | components/common/sctcommon/sct_prim_buffer.h:107-137 | a further request, moving the index only with multiple requests, and the events it schedules |
| Buffer.PrimBuffer.DoPut | components/common/sctcommon/sct_prim_buffer.h:139-172 | a further element in a slot that holds no committed one, and the events it schedules; a single side replaces its former put |
| Buffer.PrimBuffer.Get | components/common/sctcommon/sct_prim_buffer.h:175-193 | succeeds exactly if enabled and an element is left; on an empty buffer it returns what the slot at the pop index holds |
| Buffer.PrimBuffer.Put | components/common/sctcommon/sct_prim_buffer.h:206-224 | succeeds exactly if not masked and a slot is left |
| Buffer.PrimBuffer.ClearGet | components/common/sctcommon/sct_prim_buffer.h:84-91 | a single side takes its request back |
| Buffer.PrimBuffer.ClearPut | components/common/sctcommon/sct_prim_buffer.h:93-100 | a single side takes its put back |
| Buffer.PrimBuffer.Update | components/common/sctcommon/sct_prim_buffer.h:285-301 | the new queue is the old one without the gets and with the puts |
| Buffer.PrimBuffer.Reset | components/common/sctcommon/sct_prim_buffer.h:63-82 | both resets empty the buffer |
| Buffer.BufferImpl.Get | components/common/sctcommon/sct_buffer.h:150-161 | succeeds exactly if enabled and the buffer is not empty, and then shows its head |
| Buffer.BufferImpl.Put | components/common/sctcommon/sct_buffer.h:187-199 | succeeds exactly if not masked and the buffer is not full; a second put before the update replaces the first |
| Buffer.BufferImpl.ClearGet | components/common/sctcommon/sct_buffer.h:111-114 | takes the get request of this delta cycle back |
| Buffer.BufferImpl.ClearPut | components/common/sctcommon/sct_buffer.h:116-119 | takes the put request of this delta cycle back |
| Buffer.BufferImpl.Update | components/common/sctcommon/sct_buffer.h:280-300 | the new queue is the old one without the requested head and with the put element |
| Buffer.BufferImpl.Reset | components/common/sctcommon/sct_buffer.h:83-109 | both resets empty the buffer |
| Buffer.RunBoth | components/common/sctcommon/sct_buffer.h:126-200 | with single requests both buffers agree on every run, down to the slots and to what a get from an empty buffer returns |
| Buffer.RunFromReset | components/common/sctcommon/sct_buffer.h:280-300 | from construction both buffers agree on every run with single requests |
| BufferWakeups.SleepingGetterWokenIff | components/common/sctcommon/sct_prim_buffer.h:139-172 | a getting thread asleep at an empty buffer: if the puts of a delta cycle leave an element it has been woken, if and only if nothing was put, or it makes single requests, or the last put found at most two free slots |
| BufferWakeups.SleepingPutterWokenIff | components/common/sctcommon/sct_prim_buffer.h:107-137 | its mirror for a putting thread asleep at a full buffer |
| BufferWakeups.PutsWakeGetIff | components/common/sctcommon/sct_prim_buffer.h:139-172 | exactly when the puts of a delta cycle wake a getting thread that does nothing in it, from any state |
| BufferWakeups.GetsWakePutIff | components/common/sctcommon/sct_prim_buffer.h:107-137 | exactly when the gets of a delta cycle wake a putting thread that does nothing in it, from any state |
| BufferWakeups.OwnPutsWakeIff | components/common/sctcommon/sct_prim_buffer.h:156-168 | a thread that has put is woken for its next turn by its own puts exactly if it makes single requests or both sides make multiple ones |
| BufferWakeups.OwnGetsWakeIff | components/common/sctcommon/sct_prim_buffer.h:118-134 | the same for a thread that has got |
| Buffer.ApplyAll | components/common/sctcommon/sct_prim_buffer.h:107-224 | any sequence of calls on the buffer itself: what it returns, what it accepts and which events it schedules |
| Buffer.GetMany | components/common/sctcommon/sct_prim_buffer.h:175-193 | gets of one delta cycle on the buffer itself return the first committed elements |
| Buffer.PutMany | components/common/sctcommon/sct_prim_buffer.h:206-224 | puts of one delta cycle on the buffer itself are accepted up to its size |
| Buffer.PutToSleeper | components/common/sctcommon/sct_prim_buffer.h:139-172 | the buffer itself, from construction: an element is there that the getting thread has not been woken for, exactly if it makes multiple requests and the last put found more than two free slots |
| Buffer.NeverNoticed | components/common/sctcommon/sct_prim_buffer.h:145-148 | one put into an empty buffer of three slots or more: the getting thread with multiple requests is not woken, however many delta cycles pass |
| EmptyBuffer.GetFromEmpty | components/common/sctcommon/sct_buffer.h:140-161 | a get from an empty buffer after any run: it fails and returns the element put last and not written, or else the one written `size` elements ago, or the initial value |
| EmptyBuffer.StepRemembers | components/common/sctcommon/sct_buffer.h:126-200 | read on from the push index the slots hold the last `size` elements written, the oldest replaced by an element put and not written; every operation keeps this |
| EmptyBuffer.LastDataIff | components/common/sctcommon/sct_buffer.h:138 | over all runs that leave no put element unwritten, what an empty buffer returns is the last element written if and only if it has one slot |
| EmptyBuffer.TakenBackIsReturned | components/common/sctcommon/sct_buffer.h:116-119 | after a put that is taken back an empty buffer of any size returns its element |
| EmptyBuffer.LastDataIsGone | components/common/sctcommon/sct_prim_buffer.h:174 | two slots, one put and taken: the next get from the empty buffer returns the initial value |
| AdvChannel.StepIsQueueIff | designs/examples/dvcon20/AdvFifo.h:176-366 | one cycle is a step of a queue with same-cycle bypass, whenever push is raised, except exactly if an element is pushed and taken in the first cycle after reset |
| AdvChannel.RunIsQueueIff | designs/examples/dvcon20/AdvFifo.h:176-366 | a run from any state hands every element on exactly once and in order, exactly if its first cycle is not that exception |
| AdvChannel.RefusedIff | designs/examples/dvcon20/AdvFifo.h:220-235 | once started a pushed element is refused exactly if the queue is full and ready is registered or nothing is popped; before, always |
| AdvChannel.StaysFullIff | designs/examples/dvcon20/AdvFifo.h:220-235 | a full FIFO pushed and popped in every cycle accepts every element, hands one on in each cycle and stays full, if and only if ready is asynchronous |
| AdvChannel.TakenIs | designs/examples/dvcon20/AdvFifo.h:176-217 | a pop takes the head, or the element pushed in the same cycle if valid is asynchronous |
| AdvChannel.LeftIs | designs/examples/dvcon20/AdvFifo.h:297-330 | what a cycle leaves, by the inputs and the configuration |
| AdvChannel.PushesFill | designs/examples/dvcon20/AdvFifo.h:317-333 | pushes alone fill it up to its length and no further |
| AdvChannel.ReadyPushIsSafe | designs/examples/dvcon20/AdvFifo.h:64-65 | a producer that pushes only while ready never meets the exception |
| AdvChannel.AlwaysInTimeIff | designs/examples/dvcon20/AdvFifo.h:104-110 | the asynchronous almost-full flag is always up before the queue is almost full, if and only if valid is asynchronous or more than one element makes the queue almost full; the constructor assert admits more |
| AdvChannel.AlmostFullIff | designs/examples/dvcon20/AdvFifo.h:245-257 | and it is up exactly if the queue is almost full before or after the edge |
| AdvChannel.RegisteredAlmostFullIff | designs/examples/dvcon20/AdvFifo.h:254-257 | the registered flag is up exactly if the queue was almost full at the last edge |
| AdvChannel.After | designs/examples/dvcon20/AdvFifo.h:260-366 | the count stays within the length |
| AdvFifo.Fifo.AsyncProc | designs/examples/dvcon20/AdvFifo.h:176-258 | the outputs for all asynchronous and registered choices |
| AdvFifo.Fifo.MoveRing | designs/examples/dvcon20/AdvFifo.h:310-338 | the pop and push at an edge; the push assert never fails |
| AdvFifo.Fifo.StoreFlags | designs/examples/dvcon20/AdvFifo.h:340-353 | the registers written from the moved ring |
| AdvFifo.Fifo.Reset | designs/examples/dvcon20/AdvFifo.h:260-290 | reset leads to the empty queue that is not ready |
| AdvFifo.Fifo.Cycle | designs/examples/dvcon20/AdvFifo.h:176-366 | one cycle is one step of the machine, for every allowed configuration and any inputs |
| AdvFifo.Fifo.Run | designs/examples/dvcon20/AdvFifo.h:176-366 | over a run of any length the ports accept and hand on what the machine does |
| AdvFifo.RunFromReset | designs/examples/dvcon20/AdvFifo.h:176-366 | what is handed on is a prefix of what is accepted, and no more than the length is left |
| AdvFifo.FullRate | designs/examples/dvcon20/AdvFifo.h:176-366 | the FIFO itself, filled and then pushed and popped in every cycle: it takes every element and stays full if and only if ready is asynchronous |
| ConversionMachine.OneCallOneResponse | systemc/src/tlm_utils/simple_target_socket.h:253-446 | under every schedule and every initiator a transaction is not answered more often than called for, nor called for more often than begun, and exactly as often once no worker is busy |
| ConversionMachine.OneResponseAtATime | systemc/src/tlm_utils/simple_target_socket.h:431-440 | on every run a response begins only after the former one has been acknowledged |
| ConversionMachine.AliveIffFair | systemc/src/tlm_utils/simple_target_socket.h:428-445 | a run from the start leaves the socket alive if and only if every response acknowledged inside its backward call was completed by the return of that call |
| ConversionMachine.NeverStuck | systemc/src/tlm_utils/simple_target_socket.h:428-445 | on such a run a worker with a transaction can go on, or the event it waits for is pending, or a response is outstanding whose acknowledgement makes it pending |
| ConversionMachine.NextDeadIff | systemc/src/tlm_utils/simple_target_socket.h:435-440 | a step leaves the socket dead if and only if it was before, or the step is a reply that leaves an already acknowledged response incomplete |
| ConversionMachine.ReplyDecides | systemc/src/tlm_utils/simple_target_socket.h:436-444 | what the return of a backward call decides for the next worker in turn, for every answer: it responds without any END_RESP, or it waits |
| ConversionMachine.FairIffNeverDead | systemc/src/tlm_utils/simple_target_socket.h:428-445 | the same for runs from any state with the invariant |
| ConversionMachine.RunKeepsInv | systemc/src/tlm_utils/simple_target_socket.h:253-446 | every run keeps: a handle is free exactly when its thread waits without a pending event; a waiting thread has its end-of-response event coming or a response in progress; at most one worker is in the backward call, and an unacknowledged response keeps the flag up |
| ConversionMachine.NextKeepsInv | systemc/src/tlm_utils/simple_target_socket.h:253-446 | every single step keeps the invariant of the conversion |
| ConversionMachine.RunAccounted | systemc/src/tlm_utils/simple_target_socket.h:253-446 | on every run requests begun are those answered and those in service |
| ConversionMachine.AssignServes | systemc/src/tlm_utils/simple_target_socket.h:391-403 | a reused handle has no transaction in service that the new one would replace |
| ConversionMachine.RequestServedBy | systemc/src/tlm_utils/simple_target_socket.h:265-285 | a request is served by the first idle worker, or by a new one exactly if none is idle |
| ConversionMachine.FiresOnce | systemc/src/tlm_utils/simple_target_socket.h:289-290 | an event fires once: not again before the next END_RESP, or before the worker is given its next request |
| ConversionMachine.AckInsideCallBlocks | systemc/src/tlm_utils/simple_target_socket.h:286-290 | the run with one transaction whose response the initiator acknowledges inside the call, returning TLM_ACCEPTED: it is possible and leaves the socket dead |
| ConversionMachine.DeadForever | systemc/src/tlm_utils/simple_target_socket.h:431-433 | once dead, whatever happens, no request is ever answered again |
| TargetSocket.Run | systemc/src/tlm_utils/simple_target_socket.h:253-446 | the socket itself, from construction over any run that can happen: it is in the state of the machine, and its flag is up with nothing outstanding exactly if the run was unfair |
| TargetSocket.Continue | systemc/src/tlm_utils/simple_target_socket.h:253-446 | the same from any state with the invariant |
| TargetSocket.Socket.GetHandle | systemc/src/tlm_utils/simple_target_socket.h:391-403 | the first suspended handle is reused |
| TargetSocket.Socket.NbTransportFw | systemc/src/tlm_utils/simple_target_socket.h:253-296 | a forward call is the machine step; other phases change nothing |
| TargetSocket.Socket.BeginCall | systemc/src/tlm_utils/simple_target_socket.h:265-285 | a reused or new handle is started |
| TargetSocket.Socket.StartCall | systemc/src/tlm_utils/simple_target_socket.h:420-426 | a thread enters the blocking call with the transaction of its handle |
| TargetSocket.Socket.EndCall | systemc/src/tlm_utils/simple_target_socket.h:426-428 | the delay after the blocking call |
| TargetSocket.Socket.ReturnPath | systemc/src/tlm_utils/simple_target_socket.h:431-436 | the loop that keeps responses apart |
| TargetSocket.Socket.AfterResponse | systemc/src/tlm_utils/simple_target_socket.h:436-444 | after TLM_COMPLETED, or TLM_UPDATED with END_RESP, the flag is left as it was and nothing is outstanding; after any other answer the flag is up; the thread suspends |
| TargetSocket.ReplyThenCheck | systemc/src/tlm_utils/simple_target_socket.h:431-444 | on the socket: after such an answer the next worker in turn responds at once if and only if it was TLM_COMPLETED, or TLM_UPDATED with END_RESP |
| TargetSocket.Socket.EndOfResponse | systemc/src/tlm_utils/simple_target_socket.h:431-433 | every thread that waits for the end of a response is woken |
| Bits.OneHotToBin | components/common/sctcommon/sct_utils.h:127-147 | built bit by bit, the result is the bitwise or of the positions of the set bits, for every width |
| Bits.OneHotRoundTrip | components/common/sctcommon/sct_utils.h:78-83 | it undoes the conversion to one-hot, for every width |
| Bits.OrOfOne | components/common/sctcommon/sct_utils.h:127-147 | for a single set bit the result is its position |
| Bits.Popcount | components/common/sctcommon/sct_utils.h:64-75 | the number of set bits modulo the width of the counter |
| Bits.PopcountExactIff | components/common/sctcommon/sct_utils.h:64-75 | with its default width it counts every mask right if and only if the mask width is one or no power of two |
| Bits.SumSaturates | components/common/sctcommon/sct_utils.h:43-49 | the saturated sum is the smaller of the sum and the largest number of the width |
| Widths.NbitsLeast | components/common/sctcommon/sct_static_log.h:34-37 | the width of a counter is the least one that holds the number |
| Widths.Addrbits1Least | components/common/sctcommon/sct_static_log.h:46-49 | the width of an index is the least one, but at least one bit, that holds every index |
| Widths.FifoWidthsSuffice | components/common/sctcommon/sct_fifo.h:48-51 | the counters and indices of a FIFO never truncate |
| Widths.IsPow2Iff | components/common/sctcommon/sct_static_log.h:51-57 | powers of two, and 0, are recognised |
| Widths.NextPow2Least | components/common/sctcommon/sct_static_log.h:65-67 | the least power of two above a number below 2^31 |

## Left out

- The synthesis tool under `sc_tool/lib`, and the SystemC kernel but for delta cycles, one event notification and signals.
- Elaboration: `addTo`, `bind`, `clk_nrst`, `trace`, `print`, debug modules. Its checks are requirements of the models where they matter.
- `SCT_SEQ_METH` variants, clock-edge traits and reset polarity: one active edge; a reset is one step of a run, however long it lasts, and takes both sides.
- Blocking `b_put` and `b_get`: loops over the calls modelled here.
- Always-ready, multi-port, arbiter and clock-crossing channels.
- Target and initiator mode of `sct_prim_fifo` (`setTargInit`): only the size of the TLM target is modelled.
- `clear_put` and `clear_get` after a put or get in the same activation.
- LinkChannel.ConservedInOrder: the target is never in always-ready mode, which by design stores one word at most.
- PrimFifo.Fifo.EventTick: the peek event is not modelled; a thread tries whenever it is awake, and a method is woken by whatever changes its own demand.
- FifoEquivalence.RunPrimByEvents: the demand of a method changes at the start of a clock cycle, not within it.
- Buffer.PrimBuffer.Reset: both resets together, as for one process that uses both sides.
- AdvFifo.Fifo.Cycle: variants with clock-match enables, and the assertions stated inside the module, are not modelled.
- Peq.Queue.Fec: a callback may notify the queue again with a delay or for the next delta cycle, but not immediately, and does not cancel; times are unbounded.
- ConversionMachine.NeverStuck: delays are dropped, so that every order of events is covered, and END_RESP is sent only for the outstanding response; that an enabled step is taken eventually is not modelled.
- The blocking to non-blocking conversion, debug and direct memory calls of the target socket, and its tagged version.
- Dma.Engine.MainProc: one transfer with a stable configuration, and only where the burst loop ends; the configuration registers and the interrupt output are not modelled.
- EmptyBuffer.GetFromEmpty: the buffer is the one with single requests, on runs without a reset.
- Transfer.TransferMoves: that bursts clobbering later sources go wrong is not stated, as a word moved onto itself does no harm.
- Monitor.Property.Check: after a violation the simulation ends, so nothing is said about later calls.
- Widths.NextPow2Least: above 2^31 the source shifts out of a 32-bit one.
- `sct_str_replace_all`, the array helpers and the other examples of the repository.
- gdb printers, test drivers, TLM pass-through sockets, the quantum keeper and extension pools.
