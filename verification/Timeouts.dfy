/** Timeouts as the program keeps them, on top of the event loop. */
module Timeouts {
  import opened Basics
  import opened Ticks
  import opened EventTypes
  import S = EventSpec
  import opened EventInvariants
  import R = EventRuns
  import opened CatchUp
  import opened EventLoop
  import opened TimeoutSpec
  import T = TimeoutTheorems

  class TimeoutLayer {
    const loop: Scheduler
    var heap: map<nat, Timeout>
    var tasklet: int

    ghost var given: multiset<nat>
    ghost var freed: multiset<nat>

    ghost function View(): World
      reads this, loop, loop.life.Keys
    {
      World(loop.Model(), heap, tasklet, given, freed)
    }

    ghost predicate Valid()
      reads this, loop, loop.life.Keys
    {
      loop.Valid() && Sound(View())
    }

    constructor (loop: Scheduler)
      requires loop.Valid()
      ensures Valid() && this.loop == loop && Untouched()
    {
      hide R.Inv, Scheduler.Valid, Scheduler.Model, Sound;
      this.loop, heap, tasklet, given, freed := loop, map[], -1, multiset{}, multiset{};
      new;
      loop.ValidInv();
      T.UntouchedSound(View());
    }

    ghost predicate Untouched()
      reads this, loop, loop.life.Keys
    {
      T.Untouched(View())
    }

    /** Give an object back to the heap it is in. */
    method Free(address: nat)
      requires address in heap
      modifies this`heap, this`freed
      ensures heap == old(heap) - {address} && freed == old(freed) + multiset{address}
    {
      heap := heap - {address};
      freed := freed + multiset{address};
    }

    /** Cancel a timeout; its object is freed now, or when its running callback returns. */
    method TimeoutCancel(t: nat)
      requires Valid() && (t != 0 ==> t in heap)
      modifies this`heap, this`freed
      modifies loop`eventFree, loop`timerFree, loop`queue, loop`pending, loop`life, loop`stamps, loop.life.Keys
      ensures Valid() && View() == Step(old(View()), CancelTimeout(t))
      ensures t != 0 ==> (t in heap <==> old(loop.running) == old(heap)[t].event)
    {
      hide R.Inv, Scheduler.Valid, Scheduler.Model, Matched, Balanced, TimeoutCancelled;
      if t == 0 {
        return;
      }
      CancelFacts(t);
      RunningOf();
      loop.Cancel(heap[t].event);
      StateOf(heap[t].event);
      if heap[t].event.state != Running {
        Free(t);
      }
      CancelledIs(old(View()), t);
      T.CancelledSound(old(View()), t);
    }

    lemma CancelFacts(t: nat)
      requires Valid() && t in heap
      ensures heap[t].event in loop.Model().recs && S.Live(loop.Model(), heap[t].event)
    {
      hide R.Inv, Scheduler.Valid, Balanced, S.Live;
      T.BackedCarries(View(), t);
      T.CarriersAreTimers(View(), heap[t].event);
    }

    lemma RunningOf()
      ensures loop.Model().running == if loop.running == null then None else Some(loop.running)
    {
    }

    /** A storage the event loop knows is in the state its record says. */
    lemma StateOf(n: Storage)
      ensures n in loop.life ==> n in loop.Model().recs && loop.Model().recs[n].state == n.state
      ensures n in loop.Model().recs ==> n in loop.life
    {
    }

    lemma CancelledIs(w: World, t: nat)
      requires Sound(w) && t in w.heap && w.heap[t].event in w.st.recs
      ensures w.heap[t].event in S.Cancelled(w.st, w.heap[t].event).recs
      ensures TimeoutCancelled(w, t) ==
        var n := w.heap[t].event; var s := S.Cancelled(w.st, n);
        if s.recs[n].state == Running then w.(st := s) else Freed(w.(st := s), t)
    {
      hide R.Inv, S.Cancelled, Balanced;
      T.BackedCarries(w, t);
      T.CarriersAreTimers(w, w.heap[t].event);
      T.OwnedNow(w.st);
      T.CancelledTimer(w.st, w.heap[t].event);
    }

    // ---------------------------------------------------------------- requesting

    /** The tasklet is there, or can be created. */
    ghost predicate TaskletPossible(taskletMemory: bool, eventMemory: bool)
      reads this, loop
    {
      || tasklet != -1
      || ((forall k | 0 <= k < |loop.tasklets| :: loop.tasklets[k].handler != TIMEOUT_TASKLET)
          && taskletMemory && (loop.eventFree != [] || eventMemory))
    }

    /** The tasklet and a timer for a timeout are there, or can be had. */
    ghost predicate Possible(taskletMemory: bool, eventMemory: bool, timerMemory: bool)
      reads this, loop
    {
      TaskletPossible(taskletMemory, eventMemory) && (loop.timerFree != [] || timerMemory)
    }

    /** Make sure there is a timeout tasklet; its id, or -1. */
    method TaskletGet(taskletMemory: bool, eventMemory: bool) returns (ghost spare: Option<Storage>)
      requires loop.Valid() && -1 <= tasklet < 128 && (tasklet == -1 ==> FreeId(S.TaskletIds(loop.tasklets), 0) < 128)
      requires forall n | n in loop.Model().eventFree :: n in loop.Model().recs
      modifies this`tasklet, loop`tasklets, loop`queue, loop`eventFree, loop`life, loop.life.Keys
      ensures loop.Valid() && -1 <= tasklet < 128 && (spare.Some? ==> fresh(spare.value))
      ensures (loop.Model(), tasklet) == WithTasklet(old(View()), Memory(None, taskletMemory, spare, None))
      ensures tasklet >= 0 <==> old(TaskletPossible(taskletMemory, eventMemory))
      ensures forall m | m in loop.life :: m in old(loop.life) || fresh(m)
    {
      hide R.Inv, Scheduler.Valid, S.TaskletIds, S.Created, FreeId, S.HandlerKnown;
      spare := None;
      KnownHandler();
      if tasklet == -1 {
        tasklet, spare := loop.HandlerCreate(TIMEOUT_TASKLET, STARTUP_EVENT, taskletMemory, eventMemory);
        if tasklet < 0 {
          tasklet := -1;
        }
      }
    }

    lemma KnownHandler()
      ensures S.HandlerKnown(loop.Model(), TIMEOUT_TASKLET) <==>
        exists k | 0 <= k < |loop.tasklets| :: loop.tasklets[k].handler == TIMEOUT_TASKLET
    {
    }

    /** Request the event for the object at address `a`. */
    method EventRequest(a: nat, at: U32, period: U32, timerMemory: bool) returns (n: Storage?, ghost spare: Option<Storage>)
      requires loop.Valid() && 0 <= tasklet < 128 && period < HALF_32
      requires S.Registered(loop.Model(), tasklet)
      modifies loop`timerFree, loop`structs, loop`queue, loop`pending, loop`life, loop`stamps, loop.life.Keys
      ensures loop.Valid() && (spare.Some? ==> fresh(spare.value))
      ensures S.NextTimer(old(loop.Model()), spare) == if n == null then None else Some(n)
      ensures n != null ==> loop.Model() == EventRequested(old(loop.Model()), tasklet, a, at, period, spare)
      ensures n == null ==> loop.Model() == old(loop.Model())
      ensures n != null <==> old(loop.timerFree) != [] || timerMemory
      ensures forall m | m in loop.life :: m in old(loop.life) || fresh(m)
    {
      hide R.Inv, Scheduler.Valid, S.TaskletIds, S.TakenTimer, Low32;
      var event := Event(tasklet, tasklet, TIMER_EVENT, TIMER_EVENT, a, High, 0);
      loop.ClockOf();
      if period > 0 {
        n, spare := loop.EventTimerRequestEvery(event, period, timerMemory);
      } else {
        n, spare := loop.EventTimerRequestAt(event, at, timerMemory);
      }
    }

    /** Get a tasklet and a timer event for the object at address `a`, null if there is none to be had. */
    method EventFor(a: nat, at: U32, period: U32, taskletMemory: bool, eventMemory: bool, timerMemory: bool)
        returns (n: Storage?, ghost memory: Memory)
      requires Valid() && period < HALF_32 && (tasklet == -1 ==> FreeId(S.TaskletIds(loop.tasklets), 0) < 128)
      requires forall n | n in loop.Model().eventFree :: n in loop.Model().recs
      modifies this`tasklet, loop, loop.life.Keys
      ensures loop.Valid() && -1 <= tasklet < 128 && memory.address == Some(a) && New(old(loop.Model()), memory.event)
      ensures New(old(loop.Model()), memory.timer) && (memory.event.Some? ==> memory.event != memory.timer)
      ensures var (s, id) := WithTasklet(old(View()), memory);
        && tasklet == id
        && (if id < 0 || S.NextTimer(s, memory.timer).None? then n == null && loop.Model() == s
            else n == S.NextTimer(s, memory.timer).value && loop.Model() == EventRequested(s, id, a, at, period, memory.timer))
      ensures n != null <==> old(Possible(taskletMemory, eventMemory, timerMemory))
    {
      hide R.Inv, Scheduler.Valid, Scheduler.Model, Matched, Balanced, EventRequested, S.TaskletIds, FreeId;
      hide S.Created, S.HandlerKnown;
      T.TaskletSmall(View());
      loop.TaskletsOf();
      ghost var event := TaskletGet(taskletMemory, eventMemory);
      memory := Memory(Some(a), taskletMemory, event, None);
      n := null;
      loop.TaskletsOf();
      if tasklet >= 0 {
        T.TaskletReady(old(View()), memory);
        T.TaskletThere(old(View()).(st := loop.Model(), tasklet := tasklet));
        ghost var timer: Option<Storage>;
        n, timer := EventRequest(a, at, period, timerMemory);
        memory := memory.(timer := timer);
      }
    }

    /** Keep the object if there is an event for it, else free it again. */
    method Settle(a: nat, callback: nat, arg: nat, n: Storage?) returns (t: nat)
      modifies this`heap, this`given, this`freed
      ensures given == old(given) + multiset{a} && t == if n == null then 0 else a
      ensures heap == if n == null then old(heap) else old(heap)[a := Timeout(callback, arg, n)]
      ensures freed == if n == null then old(freed) + multiset{a} else old(freed)
      ensures loop.Model() == old(loop.Model()) && loop.Valid() == old(loop.Valid())
    {
      hide Scheduler.Valid, Scheduler.Model;
      given := given + multiset{a};
      if n != null {
        heap := heap[a := Timeout(callback, arg, n)];
        t := a;
      } else {
        freed := freed + multiset{a};
        t := 0;
      }
    }

    /** With an object at address `a`: get an event for it, and keep it or free it. */
    method RequestWith(a: nat, callback: nat, arg: nat, at: U32, period: U32,
                       taskletMemory: bool, eventMemory: bool, timerMemory: bool)
        returns (t: nat, ghost memory: Memory)
      requires Valid() && a != 0 && period < HALF_32 && -1 <= tasklet < 128
      requires tasklet == -1 ==> FreeId(S.TaskletIds(loop.Model().tasklets), 0) < 128
      requires forall n | n in loop.Model().eventFree :: n in loop.Model().recs
      modifies this, loop, loop.life.Keys
      ensures loop.Valid() && memory.address == Some(a) && New(old(loop.Model()), memory.event)
      ensures New(old(loop.Model()), memory.timer) && (memory.event.Some? ==> memory.event != memory.timer)
      ensures Requests(old(View()), Request(callback, arg, at, period, memory), View(), WithTasklet(old(View()), memory).0)
      ensures t == 0 ==> heap == old(heap)
      ensures t != 0 <==> old(Possible(taskletMemory, eventMemory, timerMemory))
      ensures t != 0 ==> t == a && t in heap
    {
      hide R.Inv, Scheduler.Valid, Scheduler.Model, Sound, WithTasklet, EventRequested, S.TaskletIds, FreeId, S.NextTimer, New;
      loop.TaskletsOf();
      var n;
      n, memory := EventFor(a, at, period, taskletMemory, eventMemory, timerMemory);
      t := Settle(a, callback, arg, n);
    }

    /** Request a callback at a tick, or every so many ticks; the object's address, or 0. */
    method TimeoutAt(callback: nat, arg: nat, at: U32, period: U32,
                     address: Option<nat>, taskletMemory: bool, eventMemory: bool, timerMemory: bool)
        returns (t: nat, ghost memory: Memory)
      requires Valid() && period < HALF_32 && (address.Some? ==> address.value != 0 && address.value !in heap)
      requires tasklet == -1 ==> FreeId(S.TaskletIds(loop.tasklets), 0) < 128
      modifies this, loop, loop.life.Keys
      ensures Valid() && Allowed(old(View()), Request(callback, arg, at, period, memory))
      ensures View() == Step(old(View()), Request(callback, arg, at, period, memory))
      ensures t != 0 ==> t in heap
      ensures memory.address == address && t == (if address.Some? && old(Possible(taskletMemory, eventMemory, timerMemory)) then address.value else 0)
    {
      hide R.Inv, Scheduler.Valid, Scheduler.Model, Sound, Step, WithTasklet, S.TaskletIds, FreeId, Requests;
      t, memory := 0, Memory(None, false, None, None);
      SoundFacts(View());
      SmallTasklet();
      loop.TaskletsOf();
      if address.Some? {
        t, memory := RequestWith(address.value, callback, arg, at, period, taskletMemory, eventMemory, timerMemory);
      }
      RequestStep(old(View()), Request(callback, arg, at, period, memory), View());
    }

    lemma SmallTasklet()
      requires Valid()
      ensures -1 <= tasklet < 128
    {
      hide R.Inv, Balanced, Scheduler.Valid, Scheduler.Model;
    }

    /** A request is a step of the specification that keeps everything sound. */
    lemma RequestStep(w: World, op: Op, v: World)
      requires Sound(w) && op.Request? && Allowed(w, op)
      requires -1 <= w.tasklet < 128 && (forall n | n in w.st.eventFree :: n in w.st.recs)
      requires op.memory.address.None? ==> v == w
      requires op.memory.address.Some? ==> Requests(w, op, v, WithTasklet(w, op.memory).0)
      ensures v == Step(w, op) && Sound(v)
    {
      hide R.Inv, Balanced, S.TaskletIds, FreeId, WithTasklet, EventRequested;
      T.StepSound(w, op);
    }

    /** `v` is `w` after a request, part by part; `s` is the state with the tasklet. */
    ghost predicate Requests(w: World, op: Op, v: World, s: S.State)
      requires op.Request? && op.memory.address.Some? && -1 <= w.tasklet < 128
      requires (forall n | n in w.st.eventFree :: n in w.st.recs)
      requires w.tasklet == -1 ==> FreeId(S.TaskletIds(w.st.tasklets), 0) < 128
    {
      var a, id := op.memory.address.value, WithTasklet(w, op.memory).1;
      var n := S.NextTimer(s, op.memory.timer);
      && v.tasklet == id && v.given == w.given + multiset{a}
      && if id < 0 || n.None?
         then v.st == s && v.heap == w.heap && v.freed == w.freed + multiset{a}
         else -0x80 <= id < 0x80 && v.st == EventRequested(s, id, a, op.at, op.period, op.memory.timer) && v.freed == w.freed
              && v.heap == w.heap[a := Timeout(op.callback, op.arg, n.value)]
    }

    /** What an object's event holds is what its record says. */
    lemma ObjectFacts(t: nat)
      requires Valid() && t in heap
      ensures var n := heap[t].event;
        && n in loop.Model().recs && loop.Model().recs[n].period == n.period && Low32(loop.Model().recs[n].due) == n.launchTime
    {
      hide R.Inv, Balanced, S.TaskletIds;
      assert Backed(View(), t);
    }

    /** Request one callback, `ms` milliseconds from now: after the least number of ticks that covers them. */
    method TimeoutMs(callback: nat, ms: U32, arg: nat,
                     address: Option<nat>, taskletMemory: bool, eventMemory: bool, timerMemory: bool)
        returns (t: nat, ghost memory: Memory)
      requires Valid() && (address.Some? ==> address.value != 0 && address.value !in heap)
      requires tasklet == -1 ==> FreeId(S.TaskletIds(loop.tasklets), 0) < 128
      modifies this, loop, loop.life.Keys
      ensures Valid() && View() == Step(old(View()), Request(callback, arg, Low32(MsToTicks(ms) + old(loop.ticks)), 0, memory))
      ensures memory.address == address && t == (if address.Some? && old(Possible(taskletMemory, eventMemory, timerMemory)) then address.value else 0)
      ensures t != 0 ==> t in heap && heap[t].callback == callback && heap[t].arg == arg && heap[t].event.period == 0
      ensures t != 0 ==> var d := Low32(heap[t].event.launchTime - old(loop.ticks));
        if 0 < ms <= 0xFFFF_FFF6 then 10 * (d - 1) < ms <= 10 * d else d == 0
    {
      hide Valid, Step, Low32, Sound, Allowed, Possible, Scheduler.Model, Scheduler.Valid;
      ghost var w, now := View(), loop.ticks;
      Parts();
      t, memory := TimeoutAt(callback, arg, Low32(MsToTicks(ms) + loop.ticks), 0, address, taskletMemory, eventMemory, timerMemory);
      if t != 0 {
        SumIsTrue(w.st.clock, MsToTicks(ms));
        T.GotNeeded(w, Request(callback, arg, Low32(MsToTicks(ms) + now), 0, memory));
        T.AfterIsInTime(w, callback, arg, ms, memory);
        ObjectFacts(t);
        LowDue(w.st.clock, loop.Model().recs[heap[t].event].due);
      }
    }

    lemma Parts()
      requires Valid()
      ensures Sound(View()) && loop.ticks == Low32(View().st.clock)
    {
      hide R.Inv, Matched, Balanced;
    }

    /** The 32-bit distance to a time less than half the range ahead. */
    lemma LowDue(clock: int, due: int)
      ensures 0 <= due - clock < TWO_32 ==> Low32(Low32(due) - Low32(clock)) == due - clock
    {
      if 0 <= due - clock < TWO_32 {
        LowDifference(due, clock);
      }
    }

    /** Request a callback every so many milliseconds: with the least period in ticks that covers them, the first after one period. */
    method TimeoutEveryMs(callback: nat, every: U32, arg: nat,
                          address: Option<nat>, taskletMemory: bool, eventMemory: bool, timerMemory: bool)
        returns (t: nat, ghost memory: Memory)
      requires Valid() && (address.Some? ==> address.value != 0 && address.value !in heap)
      requires tasklet == -1 ==> FreeId(S.TaskletIds(loop.tasklets), 0) < 128
      modifies this, loop, loop.life.Keys
      ensures Valid() && View() == Step(old(View()), Request(callback, arg, 0, MsToTicks(every), memory))
      ensures memory.address == address && t == (if address.Some? && old(Possible(taskletMemory, eventMemory, timerMemory)) then address.value else 0)
      ensures t != 0 ==> t in heap && heap[t].callback == callback && heap[t].arg == arg
      ensures t != 0 ==> var e := heap[t].event;
        if 0 < every <= 0xFFFF_FFF6
        then 10 * (e.period - 1) < every <= 10 * e.period && e.launchTime == Low32(old(loop.ticks) + e.period)
        else e.period == 0 && e.launchTime == 0
    {
      hide Valid, Step, Low32, Sound, Allowed, Possible, Scheduler.Model, Scheduler.Valid;
      ghost var w := View();
      Parts();
      MsToTicksRoundsUp(every);
      t, memory := TimeoutAt(callback, arg, 0, MsToTicks(every), address, taskletMemory, eventMemory, timerMemory);
      if t != 0 {
        T.GotNeeded(w, Request(callback, arg, 0, MsToTicks(every), memory));
        T.EveryIsPeriodic(w, callback, arg, every, memory);
        ObjectFacts(t);
        SumIsTrue(w.st.clock, heap[t].event.period);
      }
    }

    // ---------------------------------------------------------------- the tasklet

    /** The timeout tasklet is entered: which callback it calls with which argument, if the event is a timeout's. */
    method TaskletEntered() returns (called: Option<(nat, nat)>)
      requires Valid() && loop.running != null
      ensures called.Some? <==> loop.running.data.receiver == tasklet && loop.running.data.eventType == TIMER_EVENT
      ensures called.Some? ==>
        exists a :: a in heap && heap[a].event == loop.running && called == Some((heap[a].callback, heap[a].arg))
    {
      hide R.Inv, Scheduler.Valid, Matched, Balanced;
      called := None;
      RunningFacts();
      var event := loop.running;
      if event.data.receiver == tasklet && event.data.eventType == TIMER_EVENT {
        var t := heap[event.data.dataPtr];
        called := Some((t.callback, t.arg));
      }
    }

    /** What the running event's storage holds is what its record says; a timeout's points to its object. */
    lemma RunningFacts()
      requires Valid() && loop.running != null
      ensures loop.running in loop.life && loop.running in loop.Model().recs
      ensures loop.Model().recs[loop.running].data == loop.running.data
      ensures var d := loop.running.data; d.receiver == tasklet && d.eventType == TIMER_EVENT ==>
        d.dataPtr in heap && heap[d.dataPtr].event == loop.running
      ensures loop.Model().recs[loop.running].period == loop.running.period
    {
      hide R.Inv, Matched, Balanced;
      RunningPoints(View());
    }

    /** The tasklet's handler ends: the running event's object is freed unless its timer is periodic. */
    method FreeUnlessPeriodic()
      requires Valid() && loop.running != null
      modifies this`heap, this`freed
      ensures loop.running in old(loop.Model()).recs
      ensures var w := old(View());
        var r := w.st.recs[loop.running];
        View() == if r.data.receiver == w.tasklet && r.data.eventType == TIMER_EVENT && r.period == 0 && r.data.dataPtr in w.heap
                  then Freed(w, r.data.dataPtr) else w
    {
      hide R.Inv, Scheduler.Valid, Scheduler.Model, Matched, Balanced;
      RunningFacts();
      var event := loop.running;
      if event.data.receiver == tasklet && event.data.eventType == TIMER_EVENT {
        var timer := heap[event.data.dataPtr].event;
        if timer.period == 0 {
          Free(event.data.dataPtr);
        }
      }
    }

    /** The handler has returned: a timeout that will not be called again is freed, and the event is over. */
    method HandlerReturned()
      requires Valid() && loop.running != null
      modifies this`heap, this`freed
      modifies loop`running, loop`eventFree, loop`timerFree, loop`queue, loop`pending, loop`life, loop`stamps, loop.life.Keys
      ensures old(loop.running) in old(loop.Model()).recs && loop.running == null
      ensures heap == Step(old(View()), Other(R.End)).heap && freed == Step(old(View()), Other(R.End)).freed
      ensures loop.Model() == S.Ended(Nearest(old(loop.Model()), old(loop.running)))
      ensures old(InTime(loop.Model(), loop.running)) ==> Valid() && View() == Step(old(View()), Other(R.End))
    {
      hide R.Inv, Scheduler.Valid, Scheduler.Model, Matched, Balanced, S.Ended, Nearest, InTime;
      RunningFacts();
      RunningOf();
      SoundFacts(View());
      FreeUnlessPeriodic();
      loop.DispatchEnd();
      T.StepSound(old(View()), Other(R.End));
    }
  }
}
