# Event loop and timers

A Dafny model of a small embedded event loop and of the two timer layers under and above it,
with proofs about every run. Three state machines are modelled, from the hardware up:

- **Callback timers** (`source/ns_timer.c`). Up to 128 one-shot timers share one 16-bit hardware
  timer. Timers due at its next expiry are Active; the others are on Hold and store how much later
  than that expiry they are due. `CallbackTimer.CallbackTimers` is the list as the program keeps it:
  timer objects changed in place by loops with 8-bit counters. `DeltaTimers` is what one call
  computes from the list, on values. `TimerPlan` knows no deltas: a map from timer to absolute
  deadline, in unbounded time. Every class method equals its `DeltaTimers` function, and every run of
  those refines a run of plans (`DeltaTimers.RunRefines`), about which the theorems are proved.
- **Event scheduler and tick timers** (`source/event.c`, `source/system_timer.c`).
  `EventLoop.Scheduler` is the program: storages changed in place, tick counts and launch times in
  32 bits that wrap. `EventSpec` is the same machine with a clock and deadlines that never wrap.
  Every class method equals the `EventSpec` function for it, given the invariant `EventRuns.Inv`;
  that invariant holds over all runs (`EventRuns.StepInv`, `EventTheorems.ReachableInv`), and
  `EventEffects` says of each operation which event goes where and that nothing else changes. The 32-bit
  program therefore does what is proved of unbounded time as long as no pending timer is passed by
  more than 2^31 ticks in one update (`EventLoop.Scheduler.TickUpdate`) and no periodic handler falls
  further behind than that (`CatchUp.ReturnsInTimeIff`); beyond, the contracts say what it does instead.
- **Timeouts** (`source/ns_timeout.c`). Heap objects that live as long as the timer events that carry
  them. The heap is a map from addresses to objects: following or freeing a pointer is defined only
  for an address the map has.

`TickTimer` joins the first two through the tick timer of `source/system_timer.c:61-82`. A
`TickTimer.Device` keeps the history of everything called on it, by clients, handlers and interrupts,
and its invariant says that the program is in the state of that run of the specifications.

How the environment appears:

- The hardware timer is a flag and a number of slots left. A slot elapses only while some are left,
  clients may act at that instant, and a due interrupt is served before the next slot. Callbacks are
  finite scripts of start and stop actions, arbitrary for every interrupt.
- Critical sections are single steps. Whatever a handler does, and whatever interrupts do meanwhile,
  are the steps between `Begin` and `End` of its event, so handlers are arbitrary.
- Memory allocation is an argument: whether there is memory, and which storage or address it is.
- Compensation is 0, its value everywhere but on one board (`source/ns_timer.c:48-54`).
- Ghost history (request times, run counts, insertion stamps, deliveries, addresses given and freed)
  is kept by the specifications so that properties of whole runs can be stated about their last state.

Where code and documentation, or code and intention, part ways, the model follows the code:

- A start with zero slots gives the hardware timer one slot and so delays all other timers by one.
  `TimerPlan.RunQuiet` says exactly how late that makes them. Enough of them push a delta beyond 16
  bits: `DeltaTheorems.ZeroSlotsWrap` is such a run, and `StartRefinesIff` and `StopRefinesIff` say
  exactly when a start or stop is correct.
- Cancelling by receiver and id misses a queued timer behind another client's event with the same
  receiver and id (`CancelTheorems.QueuedTimerMissed`, and `EventExamples.CancelMissesQueuedTimer` for a
  run), although `nanostack-event-loop/eventOS_event_timer.h` promises no such exception.
- A periodic timeout of 0 ms, or of more than 2^32 - 10 ms, is no periodic timeout but one call when
  the tick count reads 0 (`TimeoutTheorems.EveryIsPeriodic`); a single timeout of so many milliseconds is
  called at once (`TimeoutTheorems.AfterIsInTime`).
- A time more than half the 32-bit range past is taken for one to come (`Ticks.PastMistakenForFuture`).
  A tick update that jumps so far queues nothing (`EventLoop.Scheduler.TickUpdate`,
  `EventExamples.JumpQueuesNothing`), and a handler that takes so long puts its periodic timer off
  (`CatchUp.ReturnsInTimeIff`, `EventExamples.LongHandlerDelaysTimer`).
- The number of milliseconds to the next timer wraps for delays of 2^32 / 10 ticks and more; sleeping that
  long then wakes too early (`IdleTheorems.SleepReachesFirst`, `EventExamples.SleepsTooShort`).
- The documentation lets a handler invalidate a client's own event while it runs; the code reads its
  allocator afterwards (`source/event.c:346`, `source/event.c:184`), and so does the model.

## Model

| member | source | states |
|---|---|---|
| TimerPlan.StartedGood | source/ns_timer.c:218-291 | A start keeps the plan in order: every timer due where its request and the delays since put it, none before the next hardware expiry |
| TimerPlan.StoppedGood | source/ns_timer.c:327-394 | A stop keeps it in order, moving the hardware expiry on to the earliest deadline left when nothing is due at it any more |
| TimerPlan.ExpiredGood | source/ns_timer.c:298-310 | When the hardware timer runs out exactly the timers due now fire, and it runs on to the earliest deadline left, if there is one |
| TimerPlan.InterruptedQuiet | source/ns_timer.c:293-325 | After the interrupt and all its callbacks nothing is left firing, and the next expiry lies ahead |
| TimerPlan.RunQuiet | source/ns_timer.c:218-394 | Over every run: each deadline is the one asked for plus one slot for every zero-slot delay since; no callback is early, nor later than those delays |
| TimerTheorems.RunExact | source/ns_timer.c:241-264 | No delta leaves 16 bits on a run on which, for each scheduled timer at all times, the slots asked for plus the zero-slot delays since it was asked for stay within 65535 |
| TimerTheorems.ActExactly | source/ns_timer.c:218-394 | Starting with a positive number of slots, and stopping, change the deadline of the timer named and of no other |
| TimerTheorems.StartSchedules | source/ns_timer.c:218-291 | A start with any number of slots schedules the timer named for that slot, or for the next one with zero slots on a hardware timer that is idle or has not run out; exactly then every other timer is one slot later, and else unchanged |
| TimerTheorems.StartedIsCalledOnce | source/ns_timer.c:127-325 | A timer started with any number of slots, zero included, and touched by nobody since, is called exactly once, at the slot it was started for |
| TimerTheorems.ActAllFrame | source/ns_timer.c:218-394 | Any script of starts and stops leaves the schedule of a timer it does not name alone |
| TimerTheorems.ActAllInOrder | source/ns_timer.c:312-322 | The actions of a callback are all carried out, in order |
| TimerTheorems.InterruptCallsDueOnce | source/ns_timer.c:293-325 | An interrupt calls exactly the timers due now, once each in list order, except those that an earlier callback of the same interrupt starts or stops |
| TimerTheorems.FiresOnceOnTime | source/ns_timer.c:218-325 | A timer nobody else touches is called exactly once, at the slot asked for, whatever happens to other timers |
| TimerTheorems.RenewalsNeverDrift | source/ns_timer.c:218-325 | A timer that starts itself again from its callback has been called floor(elapsed / period) times at any moment of any run |
| DeltaTimers.StartRefines | source/ns_timer.c:241-287 | Starting on the delta-coded list does what the plan says, in each of the four branches, if the deltas fit |
| DeltaTimers.StopRefines | source/ns_timer.c:349-388 | Stopping on the delta-coded list does what the plan says if the deltas fit |
| DeltaTimers.ExpireRefines | source/ns_timer.c:298-310 | Marking what is Active and restarting the hardware timer takes the timers due now, and only those, off the schedule |
| DeltaTimers.DispatchRefines | source/ns_timer.c:312-322 | The callbacks of the interrupt, with starts and stops inside them, keep list and plan in correspondence |
| DeltaTimers.ElapseRefines | source/ns_timer.c:293-325 | One slot on the hardware timer, clients' actions at that instant and a due interrupt do what the plan says |
| DeltaTimers.RegisterRefines | source/ns_timer.c:73-100 | A registered timer has the lowest free id, is not scheduled, and is the last of the list |
| DeltaTimers.UnregisterRefines | source/ns_timer.c:107-124 | Removing a timer from the list removes its deadline and leaves all others |
| CallbackTimer.DropAt | source/ns_timer.c:107-124 | Taking out the timer at some place of the list leaves what is before and behind it, in order |
| DeltaTimers.RunRefines | source/ns_timer.c:60-394 | Every run of registrations, starts, stops and elapsed slots on which the deltas fit refines the run of plans, with the same callbacks and arguments |
| DeltaTheorems.EveryRunRefines | source/ns_timer.c:218-394 | Without zero-slot starts, every run from startup refines its plan and nothing is ever late |
| DeltaTheorems.DeltasAreDeadlines | source/ns_timer.c:154-204 | On those runs each scheduled timer's slots left, hardware count plus delta, are its deadline less the present; the hardware timer runs, and no delta is 0 or too large |
| DeltaTheorems.RunsWithDelays | source/ns_timer.c:127-138 | With zero-slot starts, no timer is early and each is late by the delays since its request at most, if its slots plus those delays stay within 65535 |
| DeltaTheorems.StartRefinesIff | source/ns_timer.c:241-264 | A start, by a client or a callback at any time, does what the plan says if and only if no other timer's delta would leave 16 bits; that is, if no other timer is due 65536 slots or more after the time asked for |
| DeltaTheorems.StopRefinesIff | source/ns_timer.c:361-388 | A stop, by a client or a callback at any time, does what the plan says if and only if no other timer's delta would leave 16 bits; that is, if another timer is due at the next hardware expiry, or none is due 65536 slots or more from now |
| DeltaTheorems.ZeroSlotsWrap | source/ns_timer.c:241-258 | Two zero-slot starts in one slot make a timer with 65535 slots fire after 2 |
| CallbackTimer.CallbackTimers.Register | source/ns_timer.c:60-105 | A new timer gets the lowest id not in use, or -1 without handler, id or memory, and goes to the end of the list |
| CallbackTimer.CallbackTimers.Unregister | source/ns_timer.c:107-124 | The timer named is taken out of the list, all others stay in order; -1 if there is none |
| CallbackTimer.CallbackTimers.StartPlTimer | source/ns_timer.c:127-139 | The hardware timer runs with the slots given, at least one |
| CallbackTimer.CallbackTimers.FirstHeld | source/ns_timer.c:159-169 | The search loop finds a timer on Hold with the least delta, and counts those on Hold without wrapping |
| CallbackTimer.CallbackTimers.Rebase | source/ns_timer.c:184-202 | The rebasing loop, which stops as soon as its count is used up, has then changed every timer on Hold |
| CallbackTimer.CallbackTimers.GetNextRunningTo | source/ns_timer.c:154-204 | The earliest timers on Hold become Active, the hardware timer runs for them, the other deltas are rebased |
| CallbackTimer.CallbackTimers.PushBack | source/ns_timer.c:245-259 | The preemption loop puts Active timers on Hold and every delta back by the slots the expiry moved forward |
| CallbackTimer.CallbackTimers.Start | source/ns_timer.c:218-291 | Starting in place is StartOn; -1 for an unknown id |
| CallbackTimer.CallbackTimers.AnyActive | source/ns_timer.c:352-358 | The search loop tells whether some timer is Active |
| CallbackTimer.CallbackTimers.HurryHeld | source/ns_timer.c:361-371 | The loop makes every delta relative to the present and finds the least |
| CallbackTimer.CallbackTimers.RebaseRest | source/ns_timer.c:378-386 | The last loop of stopping rebases every other timer on Hold on the one that is now Active |
| CallbackTimer.CallbackTimers.Stop | source/ns_timer.c:327-394 | Stopping in place is StopOn; -1 for an unknown id |
| CallbackTimer.CallbackTimers.MarkExpired | source/ns_timer.c:300-307 | Active timers are marked as running on this interrupt, and counted without wrapping |
| CallbackTimer.CallbackTimers.CallMarked | source/ns_timer.c:312-322 | The callback loop, which stops when its count is used up, has then called every timer still marked |
| CallbackTimer.CallbackTimers.InterruptHandler | source/ns_timer.c:293-325 | The interrupt in place is InterruptOn, for callbacks that start and stop timers |
| CallbackTimer.CallbackTimers.Run | source/ns_timer.c:60-394 | Any run in place is RunOn, so what is proved of refined plans holds of the list itself |
| Ticks.DifferenceIsTrue | nanostack-event-loop/eventOS_event_timer.h:65-71 | The signed 32-bit difference of two tick counts is the true one if and only if that fits 32 bits |
| Ticks.ComparisonsAreTrue | nanostack-event-loop/eventOS_event_timer.h:65-71 | All four comparison macros are right for counts less than half the range apart |
| Ticks.PastMistakenForFuture | nanostack-event-loop/eventOS_event_timer.h:68-71 | A past time is recognised as past if and only if it is at most 2^31 ticks ago |
| Ticks.BeforeIsNotTransitive | nanostack-event-loop/eventOS_event_timer.h:68-71 | Wrap-around order is not transitive |
| Ticks.SumIsTrue | source/system_timer.c:249-271 | Adding a delay to a tick count in 32 bits gives the low half of the true sum, for negative delays as well |
| Ticks.NearestCount | source/system_timer.c:238-247 | Every 32-bit time stands for a count at most half the range from the present |
| Ticks.LowDifference | source/system_timer.c:348 | The unsigned 32-bit difference to a later time is the true one |
| Ticks.MsToTicksRoundsUp | nanostack-event-loop/eventOS_event_timer.h:46-51 | The conversion gives the least number of ticks that covers the time if and only if the time is at most 2^32 - 10 ms; else it gives 0 |
| Ticks.MsWraps | nanostack-event-loop/eventOS_event_timer.h:40-44 | Milliseconds are ten times the ticks, modulo 2^32 |
| Ticks.MsIsZero | nanostack-event-loop/eventOS_event_timer.h:40-44 | Milliseconds are 0 for 0 ticks only, even where the multiplication wraps |
| EventInvariants.FreePushedOwned | source/event.c:182-208 | Each of the four allocator tags sends a finished event's storage to the one place it belongs |
| EventInvariants.TimerFreedOwned | source/system_timer.c:148-167 | A finished timer struct goes to exactly one of free list, queue and pending list |
| EventOrder.WriteOrdered | source/event.c:223-243 | Queueing keeps the queue by priority, and deliveries plus queue in order of deadline and insertion |
| EventOrder.AddPendingOrdered | source/system_timer.c:190-206 | Inserting keeps the pending list by deadline, first come first served among equals |
| EventRuns.CreatedInv | source/event.c:81-118 | Creating a handler keeps the invariant, including that ids are distinct and in 0..127 |
| EventRuns.SentInv | source/event.c:120-131 | Sending keeps the invariant |
| EventRuns.SentUserInv | source/event.c:133-137 | Sending in a client's own storage keeps the invariant, for a storage that is new, over, or running |
| EventRuns.RequestedInv | source/system_timer.c:208-236 | Requesting a timer keeps the invariant |
| EventRuns.TickedInv | source/system_timer.c:355-374 | A tick update by any number of ticks keeps the invariant |
| EventRuns.BegunInv | source/event.c:211-221 | Taking the first event off the queue keeps the invariant |
| EventRuns.EndedInv | source/event.c:345-349 | A handler's return, with re-arming or catching up of periodic timers, keeps the invariant |
| EventRuns.CancelledInv | source/event.c:375-407 | Cancelling a pending, queued or running event keeps the invariant |
| EventRuns.TimerCancelledInv | source/system_timer.c:307-333 | Cancelling by receiver and id keeps the invariant |
| EventRuns.StepInv | source/event.c:81-407 | Every operation keeps the invariant: ownership, contents and order |
| EventTheorems.ReachableInv | source/event.c:264-282 | The state after initialisation satisfies the invariant, and so does every state reached from it |
| EventTheorems.ExactlyOnePlace | source/event.c:145-243 | Every storage the program owns is in exactly one of event free list, timer free list, pending list, queue and running slot, and its tags say which |
| EventTheorems.StepConserves | source/event.c:182-208 | No operation loses or creates a startup event or loses a timer struct |
| EventTheorems.RunConserves | source/event.c:182-208 | Over every run startup events and timer structs are conserved, each in exactly one place |
| EventTheorems.QueueIsThreeFifos | source/event.c:211-243 | The queue is high, medium and low priority events one after the other |
| EventTheorems.WriteAppendsToFifo | source/event.c:223-243 | Queueing appends to the FIFO of the event's priority and leaves the others alone |
| EventTheorems.BeginTakesOldestHighest | source/event.c:211-221 | Dispatching takes the head of the first FIFO that is not empty |
| EventTheorems.BeginPopsFifo | source/event.c:211-221 | It leaves that FIFO without its head and the others as they were |
| EventTheorems.CancelLeavesFifos | source/event.c:145-148 | Cancelling takes the event out of its FIFO and changes nothing else in the queue |
| EventTheorems.PendingByDeadline | source/system_timer.c:190-206 | In every reachable state pending timers are 1 to 2^31 - 1 ticks ahead, by deadline, then by insertion |
| EventTheorems.TickQueuesExactlyTheDue | source/system_timer.c:355-374 | A tick update queues exactly the pending timers whose time has come, although it stops at the first that is not due |
| EventTheorems.DeliveredInOrder | source/system_timer.c:195-205 | Over every run, events of one priority that waited in the pending list are delivered by deadline, then by insertion, none before its time |
| EventTheorems.ReceiverFound | source/event.c:331-345 | In every reachable state each pending, queued and running event has exactly one registered handler |
| EventTheorems.CreatedIdIsLowestFree | source/event.c:67-118 | A new handler gets the lowest id not in use, keeps all others theirs, and is sent its first event |
| EventEffects.SendQueues | source/event.c:120-180 | If the receiver has a handler and there is a storage, an event sent is queued: the first free storage, or else a new one, holds exactly its contents and is the last of the FIFO of its priority; the other two FIFOs and all other records are unchanged. Otherwise nothing changes |
| EventEffects.SendUserQueues | source/event.c:133-137 | The same for an event sent in its client's own storage |
| EventEffects.CreateQueues | source/event.c:81-118 | A new handler is the last of the handlers, with the lowest free id; exactly its first event is queued, the last of low priority. Without memory, or for a known handler, nothing changes |
| EventEffects.RequestSchedules | source/system_timer.c:208-236 | A request with a receiver and a struct puts exactly that event, due the delay from now, behind its FIFO if the delay is not positive, and else into the pending list between those due no later and those due later; nothing else changes |
| EventEffects.TickMoves | source/system_timer.c:355-374 | A tick update takes the timers whose time has come off the front of the pending list and appends them, in this order, to the FIFOs of their priorities; nothing else changes |
| EventEffects.BeginRuns | source/event.c:211-221 | A dispatch makes the first queued event the running one, and changes nothing else |
| EventEffects.ReturnPutsBack | source/event.c:182-208 | When a handler returns its event's storage goes where its allocator says: to the front of a free list, to the heap, or to its client; a periodic timer goes one period on, into its FIFO or the pending list as that time has come or not |
| EventEffects.CancelPutsBack | source/event.c:375-407 | Cancelling takes a pending or queued event out of its list and puts its storage back as a return would; a running event only loses its period |
| PeriodicTheorems.AllRunsDone | source/system_timer.c:148-167 | In a reachable state a periodic timer that is neither queued nor running has run exactly once for every period gone by, and is next due one period later |
| PeriodicTheorems.StepKeepsPeriodic | source/system_timer.c:148-167 | No operation but its own cancellation loses a periodic timer or changes its request, and only its handler's return counts a run |
| PeriodicTheorems.PeriodicNeverDrifts | source/system_timer.c:261-275 | Requested at tick t0 and not cancelled, through any run of tick jumps and delayed handlers: whenever the timer is idle it has run floor((now - t0) / period) times and is due at t0 + (runs + 1) * period |
| CancelTheorems.CancelRetires | source/event.c:375-407 | A cancelled event is in no list, and will not be armed again |
| CancelTheorems.CancelKeepsOthers | source/event.c:375-407 | All other pending and queued events keep order, deadlines and contents |
| CancelTheorems.StepKeepsRetired | source/event.c:375-407 | What is cancelled stays off all lists, and its handler is not entered, by any operation that does not send it anew |
| CancelTheorems.SelfCancelFrees | source/system_timer.c:148-177 | A periodic event cancelled from its handler finishes that run, after which its struct is free |
| CancelTheorems.CancelledNeverEntered | source/event.c:375-407 | After a cancellation the handler is not entered on any run until something is sent in that storage anew |
| CancelTheorems.CancelByIdResult | source/system_timer.c:307-333 | Cancelling by id succeeds if and only if a pending timer matches or the first match in the queue is a timer's; it removes exactly one event: the pending match at the least index, which is one due earliest, or if there is none the queued match at the least index |
| CancelTheorems.CancelTakesFirst | source/system_timer.c:307-333 | What goes is the match at an index with no match before it, in the pending list or, with no match there, in the queue, and then a timer's; on failure the result is -1 and nothing changes |
| CancelTheorems.QueuedTimerMissed | source/system_timer.c:319-328 | A queued timer is missed if and only if no pending timer matches and another client's match is ahead of it |
| IdleTheorems.DispatchPaysOne | source/event.c:354-357 | A dispatch whose handler does nothing lowers by exactly one what is owed: one for each one-shot event, floor(lateness / period) + 1 for each periodic timer |
| IdleTheorems.HandlingPays | source/event.c:354-357 | A dispatch whose handler sends nothing, whatever it cancels or requests for later, lowers what is owed by one at least |
| IdleTheorems.AtMostTheDebt | source/event.c:354-357 | With ticks standing still and handlers that send nothing, running until idle ends after at most as many dispatches as are owed |
| IdleTheorems.IdleOwesNothing | source/event.c:354-357 | Nothing is owed if and only if the queue is empty |
| IdleTheorems.Drained | source/event.c:354-357 | With handlers that do nothing the number of dispatches until the queue is empty is exactly what was owed |
| IdleTheorems.FirstAhead | source/system_timer.c:340-349 | The first pending timer has the earliest deadline, and that lies 1 to 2^31 - 1 ticks ahead |
| IdleTheorems.ShortestIsExact | source/system_timer.c:335-353 | The time to the next timer is 0 if and only if none is pending; it is ten times the first one's remaining ticks modulo 2^32, so exact when that does not wrap |
| IdleTheorems.SleepMakesUp | source/event.c:303-308 | After a sleep of any ms the clock is t ticks on with 10 * (t - 1) <= ms < 10 * t, and of the pending timers exactly those due by then are queued |
| IdleTheorems.SleepReachesFirst | source/event.c:303-313 | Sleeping for that time queues the next timer if and only if ten times its remaining ticks fit 32 bits |
| CatchUp.NearestSame | source/system_timer.c:157-158 | A launch time in 32 bits is taken for the nearest time it can stand for, which is the true one if and only if that is at most half the range away |
| CatchUp.ReturnsInTimeIff | source/system_timer.c:155-164 | A handler's return does what it does in unbounded time if and only if its periodic timer is at most 2^31 ticks behind; further behind, up to 2^32, the timer waits for a time long past |
| Commands.RequestedTimes | source/system_timer.c:238-305 | Every kind of request, given a handler and a struct or memory, starts a timer with the event, time and period asked for: the nearest count with the given low half; a delay; a period; or 2 ticks up to 20 ms and d ticks with 10 * (d - 1) <= ms < 10 * d beyond |
| EventExamples.CancelMissesQueuedTimer | source/system_timer.c:319-328 | A run from startup after which cancelling by id fails although a timer with that id is queued |
| EventExamples.SleepsTooShort | source/system_timer.c:348-352 | A run from startup after which sleeping for the time to the next timer wakes up early |
| EventExamples.JumpQueuesNothing | source/system_timer.c:355-370 | A run from startup after which a jump past the pending timer takes it for one to come |
| EventExamples.LongHandlerDelaysTimer | source/system_timer.c:155-164 | A run from startup after which a periodic timer long overdue is put in the pending list |
| EventLoop.Scheduler.constructor | source/event.c:264-277 | Initialisation frees ten startup events and six timer structs, and the invariant holds |
| EventLoop.Scheduler.QueuePlace | source/event.c:227-234 | The loop finds the place before the first event of lower priority |
| EventLoop.Scheduler.EventCoreWrite | source/event.c:223-243 | Queueing in place is Write |
| EventLoop.Scheduler.SendTimerAllocated | source/event.c:139-143 | Queueing a timer's event in place is SendTimer |
| EventLoop.Scheduler.PendingPlace | source/system_timer.c:193-202 | The loop, comparing 32-bit launch times, finds the place before the first later deadline |
| EventLoop.Scheduler.TimerSysAdd | source/system_timer.c:190-206 | Inserting in place, in 32 bits, is AddPending in unbounded time |
| EventLoop.Scheduler.TimerSysEventFree | source/system_timer.c:148-167 | Freeing, catching up or re-arming in 32 bits is TimerEventFreed, of the state with the launch time taken for the nearest it can stand for |
| EventLoop.Scheduler.Rearm | source/system_timer.c:156-164 | Adding the period in 32 bits and comparing with the tick count queues the timer if and only if its next time, as the 32 bits tell it, has come |
| EventLoop.Scheduler.EventCoreFreePush | source/event.c:182-208 | Putting a storage back in place is FreePushed, with a periodic launch time taken for the nearest it can stand for |
| EventLoop.Scheduler.EventCoreGet | source/event.c:164-180 | The first free event is taken and blanked, or one is allocated, or there is none |
| EventLoop.Scheduler.EventDynamicallyAllocate | source/event.c:150-157 | A storage from the heap is new and tagged as such |
| EventLoop.Scheduler.HandlerIdValid | source/event.c:52-65 | The search loop tells whether a handler has this id |
| EventLoop.Scheduler.GetFreeId | source/event.c:69-78 | The loop finds the lowest id not in use, or -1 |
| EventLoop.Scheduler.HandlerCreate | source/event.c:81-118 | Creating a handler is Created; the id, -1 for a handler known already, -2 without memory |
| EventLoop.Scheduler.EventSend | source/event.c:120-131 | Sending is Sent; 0 if and only if the receiver exists and there is a storage |
| EventLoop.Scheduler.EventSendUserAllocated | source/event.c:133-137 | Sending in the client's own storage is SentUser |
| EventLoop.Scheduler.TimerStructGet | source/system_timer.c:134-146 | The first free timer struct is taken, or one is allocated, or there is none |
| EventLoop.Scheduler.RequestAtCore | source/system_timer.c:208-236 | Requesting in 32 bits is Requested in unbounded time; null without receiver or struct |
| EventLoop.Scheduler.Launch | source/system_timer.c:229-233 | A timer just filled in is queued if and only if its delay is not positive, and waits otherwise |
| EventLoop.Scheduler.EventTimerRequestAt | source/system_timer.c:238-247 | A request at a 32-bit time is one for the nearest time it can stand for |
| EventLoop.Scheduler.EventTimerRequestIn | source/system_timer.c:249-259 | A request for a delay, at once if that is not positive |
| EventLoop.Scheduler.EventTimerRequestEvery | source/system_timer.c:261-275 | A periodic request, refused for periods that are not positive |
| EventLoop.Scheduler.EventTimerRequest | source/system_timer.c:277-305 | The older request in milliseconds: due 2 ticks from now up to 20 ms, else d ticks from now with 10 * (d - 1) <= time < 10 * d |
| EventLoop.Scheduler.TickUpdate | source/system_timer.c:355-374 | A tick update in 32 bits is Ticked if the first pending timer is at most 2^31 ticks past; otherwise it only tells the time |
| EventLoop.Scheduler.TimerSynchAfterSleep | source/event.c:303-308 | The tick update after a sleep of any ms, told or not, by t ticks with 10 * (t - 1) <= ms < 10 * t |
| EventLoop.Scheduler.ShortestActiveTimer | source/system_timer.c:335-353 | The time to the next timer; its branch for an overdue one is never taken |
| EventLoop.Scheduler.TimerSysEventCancel | source/system_timer.c:169-177 | The period goes, and the timer leaves the pending list if it is in it |
| EventLoop.Scheduler.Cancel | source/event.c:375-407 | Cancelling in place is Cancelled; nothing for NULL |
| EventLoop.Scheduler.FindById | source/event.c:246-255 | The loop finds the first match in the queue |
| EventLoop.Scheduler.EventTimerCancel | source/system_timer.c:307-333 | Cancelling by id is TimerCancelled; 0 if and only if something was found |
| EventLoop.Scheduler.DispatchBegin | source/event.c:322-345 | The first queued event starts running, and the handler registered for its receiver is found |
| EventLoop.Scheduler.EventCoreRead | source/event.c:211-221 | The first queued event, if there is one, leaves the queue and is running |
| EventLoop.Scheduler.DispatchEnd | source/event.c:345-349 | The handler's return is Ended, with a periodic launch time taken for the nearest it can stand for: the true one if the timer is at most 2^31 ticks behind |
| EventLoop.Scheduler.Perform | source/event.c:81-407 | Every call, whatever its arguments and the allocator's answers, is the step of the specification it comes to |
| EventLoop.Scheduler.RunUntilIdle | source/event.c:354-357 | The loop ends with an empty queue, after at most as many dispatches as were owed, for handlers that make any calls that cancel events or request timers for later; after exactly as many for handlers that do nothing |
| TickTimer.WholeStackTicks | source/system_timer.c:61-123 | Whatever other callback timers and the event loop do, the loop's clock has advanced by exactly floor(elapsed slots / 200) after every run in which clients leave the tick timer alone |
| TickTimer.StackRunParts | source/system_timer.c:120-123 | The event loop's clock counts the tick timer's callbacks, and events do not touch callback timers |
| TickTimer.Device.constructor | source/system_timer.c:93-101 | Initialisation registers and starts the tick timer, and frees all startup events and timer structs |
| TickTimer.Device.TickTimerStart | source/system_timer.c:79-82 | The tick timer starts with 20 slots for each millisecond, in 16 bits |
| TickTimer.Device.TickTimerStop | source/system_timer.c:84-87 | The tick timer stops |
| TickTimer.Device.TimerStep | source/system_timer.c:60-88 | Any step of the callback timers, with the ticks it causes, is one of the stack's and is added to its history |
| TickTimer.Device.ElapseSlot | source/system_timer.c:60-70 | Each callback of the tick timer in a slot starts it again and tells the event loop of one tick |
| TickTimer.Device.EventStep | source/event.c:81-407 | Any call of the event loop is a step of the stack and is added to its history |
| TickTimer.Device.TimerSynchAfterSleep | source/event.c:303-313 | The tick update after a sleep of any ms, by t ticks with 10 * (t - 1) <= ms < 10 * t, and the restart of the tick timer; 0, or -1 if it is not registered |
| TickTimer.LoopRuns | source/system_timer.c:120-123 | For the event loop, a run of the whole stack is a run of its own, with a tick for each callback of the tick timer |
| TickTimer.Device.LoopHasRun | source/system_timer.c:120-123 | Whatever has been called, the program's event loop is in the state of a run of the specification, so that what is proved of all runs holds of it |
| TickTimer.Device.TickCountIsExact | source/system_timer.c:120-123 | After anything a device has done since initialisation, the tick timer left alone, its 32-bit tick count is floor(elapsed slots / 200) modulo 2^32 |
| TimeoutSpec.RunningPoints | source/ns_timeout.c:43-54 | When the timeout tasklet's handler returns, the pointer in its event is that of an object not yet freed |
| TimeoutTheorems.RequestedSound | source/ns_timeout.c:57-98 | A request keeps objects and events matched, on every failure path as well |
| TimeoutTheorems.CancelledSound | source/ns_timeout.c:110-122 | Cancelling frees the object at once unless its callback is running; then it will not be called again |
| TimeoutTheorems.ReturnedSound | source/ns_timeout.c:37-55 | When a callback returns, its object is freed if and only if the timer has no period left |
| TimeoutTheorems.OtherSound | source/event.c:120-407 | What other clients do with events and timers keeps timeouts and their events matched |
| TimeoutTheorems.StepSound | source/ns_timeout.c:37-122 | Every step, of timeouts or of other clients, keeps objects and timer events in one to one correspondence, and what is given out in balance with what is freed |
| TimeoutTheorems.FreedExactlyOnce | source/ns_timeout.c:37-122 | On every run each object is freed exactly once or its timer event is still on its way; when none is, all are freed |
| TimeoutTheorems.SelfCancelFreesOnReturn | source/ns_timeout.c:116-121 | An object cancelled from its own callback stays until the callback returns, whatever happens meanwhile, and is then freed with its timer struct |
| TimeoutTheorems.RequestGetsAsked | source/ns_timeout.c:57-98 | A request with address, tasklet and struct to be had gives an object with exactly the callback and argument asked for; its event has the period asked for and is due one period from now, or for a single call at the nearest count with the low half asked for; no other object or event changes. Else there is no object and the address is given back |
| TimeoutTheorems.EveryIsPeriodic | source/ns_timeout.c:85-108 | A periodic timeout has a period if and only if 0 < ms <= 2^32 - 10: the p ticks with 10 * (p - 1) < ms <= 10 * p, the first call p ticks from now; else it is called once, at the nearest count that reads 0 in 32 bits |
| TimeoutTheorems.AfterIsInTime | source/ns_timeout.c:100-103 | A timeout in ms milliseconds is called once, d ticks from now with 10 * (d - 1) < ms <= 10 * d up to 2^32 - 10 ms; beyond, and for 0, at once |
| Timeouts.TimeoutLayer.TimeoutAt | source/ns_timeout.c:57-98 | Requesting in place is a step of the specification; the address if and only if tasklet and struct are there or can be had, else 0 with the object freed again |
| Timeouts.TimeoutLayer.TimeoutMs | source/ns_timeout.c:100-103 | The object holds callback and argument, and its event a launch time d ticks from now in 32 bits with 10 * (d - 1) < ms <= 10 * d |
| Timeouts.TimeoutLayer.TimeoutEveryMs | source/ns_timeout.c:105-108 | The object holds callback and argument, and its event the period p with 10 * (p - 1) < ms <= 10 * p and a launch time p ticks from now in 32 bits |
| Timeouts.TimeoutLayer.TimeoutCancel | source/ns_timeout.c:110-122 | Cancelling in place; the object survives if and only if its callback is running |
| Timeouts.TimeoutLayer.TaskletEntered | source/ns_timeout.c:37-48 | The tasklet calls the callback, with the argument, of the object whose event is running |
| Timeouts.TimeoutLayer.HandlerReturned | source/ns_timeout.c:48-55 | The return of a handler, timeout or not, frees what the specification frees; it is its step if a periodic timer is at most 2^31 ticks behind |

## Left out

- Compensation other than 0 (`source/ns_timer.c:48-54`): it shifts deadlines on purpose, for one board.
- `ns_timer_sleep` (`source/ns_timer.c:141-152`): it stops the hardware timer under scheduled timers, whose deadlines are not meant to survive; sleep is modelled on the level of ticks.
- Linked lists (`ns_list`) and the allocator are not part of this model: a list is a sequence of node references, removal takes a member out of it, allocation gives something not in use.
- A timer struct embeds an event storage in the program; here both are one object, and storages outside timer structs leave the two extra fields alone.
- Handlers and callbacks as code: a handler is whatever steps occur between `Begin` and `End`, a callback timer's callback a script of starts and stops. In `TickTimer` the ticks of an interrupt are applied after all its callbacks.
- EventLoop.Scheduler.RunUntilIdle: handlers that send events are not in the loop itself, because it need not end then; single dispatches with arbitrary handlers are `DispatchBegin`, any calls, and `DispatchEnd`. Queued periodic timers are at most 2^31 ticks behind, so that 32 bits tell their times.
- EventLoop.Scheduler.Perform: requires that a tick update passes no pending timer, and a returning handler is no further behind, by more than 2^31 ticks; `TickUpdate` and `DispatchEnd` say what happens otherwise, and the invariant is not claimed after that.
- Cancelling an event between the return of its handler and the end of its dispatch, from another thread (`source/event.c:345-346`): the two are one step. For timeouts the check of the period (`source/ns_timeout.c:52`) belongs to that step; a cancellation after it would leave the object of a periodic timeout unfreed.
- Cancelling events that are over, changing a client's own event while it is queued, nested dispatch, and handlers that change their event's receiver, priority or allocator: undefined by the documentation.
- A 129th handler (`source/event.c:105` would register it under -1), unregistering a callback timer from a callback, and initialising twice.
- Clients that send the timeout tasklet events of their own, or cancel its events by storage or by id.
- `eventOS_scheduler_run`, the wake-up signal and idle hooks, the active-tasklet number, and the platform shims in `source/nanostack_eventloop.c`: loops without end, or no effect on what is modelled.
