/**
 The event scheduler and its tick timers as the program keeps them: storages
 updated in place, and times in 32 bits that wrap around. Every operation is
 specified by the function of EventSpec for it, which knows neither.
 */
module EventLoop {
  import opened Basics
  import opened Ticks
  import opened EventTypes
  import opened EventSpec
  import opened EventInvariants
  import opened EventOrder
  import opened EventRuns
  import opened CatchUp
  import opened Commands
  import opened IdleTheorems
  import opened EventTheorems

  /** What the specification knows of a storage beyond its contents. */
  datatype Life = Life(due: int, base: nat, runs: nat, stamp: Option<nat>)

  ghost function RecOf(n: Storage, l: Life): Rec
    reads n
  {
    Rec(n.data, n.allocator, n.state, l.due, n.period, l.base, l.runs, l.stamp)
  }

  /** A timer request finds a struct unless there is neither a receiver nor memory. */
  ghost predicate Granted(st: State, data: Event, memory: bool, n: Storage?, spare: Option<Storage>) {
    && n == (if Registered(st, data.receiver) && NextTimer(st, spare).Some? then NextTimer(st, spare).value else null)
    && (spare.Some? ==> memory)
    && (memory && Registered(st, data.receiver) ==> n != null)
  }

  /** After `n` more ticks the first pending timer is still told from one that is to come. */
  ghost predicate Told(st: State, n: nat) {
    st.pending != [] && st.pending[0] in st.recs ==> st.clock + n - st.recs[st.pending[0]].due <= HALF_32
  }

  class Scheduler {
    var ticks: U32
    var pending: seq<Storage>
    var timerFree: seq<Storage>
    var queue: seq<Storage>
    var eventFree: seq<Storage>
    var running: Storage?
    var tasklets: seq<Tasklet>

    ghost var clock: nat
    ghost var life: map<Storage, Life>
    ghost var pool: set<Storage>
    ghost var structs: set<Storage>
    ghost var stamps: nat
    ghost var delivered: seq<Tag>

    /** Nothing registered, queued or pending; ten events and six timer structs are free. */
    constructor ()
      ensures Valid() && |eventFree| == 10 && |timerFree| == 6
      ensures fresh(life.Keys)
      ensures Distinct(eventFree + timerFree) && Model() == Boot(eventFree, timerFree)
    {
      hide Inv, Low32, Distinct, RecOf, Recs, Boot, Synced;
      var events := NewStorages(10);
      var timers := NewStorages(6);
      JoinDistinct(events, timers);
      ticks, pending, queue, running, tasklets := 0, [], [], null, [];
      eventFree, timerFree := events, timers;
      clock, stamps, delivered := 0, 0, [];
      life := map n | n in events + timers :: Life(0, 0, 0, None);
      pool, structs := set n | n in events, set n | n in timers;
      new;
      Booted(events, timers);
      BootInv(events, timers);
    }

    lemma Booted(events: seq<Storage>, timers: seq<Storage>)
      requires ticks == 0 && pending == [] && queue == [] && running == null && tasklets == []
      requires eventFree == events && timerFree == timers && clock == 0 && stamps == 0 && delivered == []
      requires life == map n | n in events + timers :: Life(0, 0, 0, None)
      requires pool == (set n | n in events) && structs == set n | n in timers
      requires forall n | n in life :: RecOf(n, life[n]) == FRESH_REC
      ensures Synced() && Model() == Boot(events, timers)
    {
      assert Recs() == Boot(events, timers).recs;
    }

    /** Blank storages on a free list, each put at its start. */
    static method NewStorages(count: nat) returns (s: seq<Storage>)
      ensures |s| == count && Distinct(s)
      ensures forall k | 0 <= k < |s| :: fresh(s[k]) && RecOf(s[k], Life(0, 0, 0, None)) == FRESH_REC
    {
      s := [];
      for i := 0 to count
        invariant |s| == i && Distinct(s)
        invariant forall k | 0 <= k < |s| :: fresh(s[k]) && RecOf(s[k], Life(0, 0, 0, None)) == FRESH_REC
      {
        var n := new Storage();
        s := [n] + s;
      }
    }

    ghost function Recs(): map<Storage, Rec>
      reads this`life, life.Keys
    {
      map n | n in life :: RecOf(n, life[n])
    }

    ghost function Model(): State
      reads this, life.Keys
    {
      State(clock, pending, timerFree, queue, eventFree, if running == null then None else Some(running), Recs(),
            pool, structs, tasklets, stamps, delivered)
    }

    /** The tick count and the launch times are the low 32 bits of what they stand for. */
    ghost predicate Synced()
      reads this`ticks, this`clock, this`life, life.Keys
    {
      && ticks == Low32(clock)
      && forall n | n in life && n.allocator == Timer :: n.launchTime == Low32(life[n].due)
    }

    ghost predicate Valid()
      reads this, life.Keys
    {
      Inv(Model()) && Synced()
    }

    /** Updating one storage changes its record and no other. */
    twostate lemma OneChanged(new n: Storage)
      requires n in life && forall m | m in life && m != n :: m in old(life) && old(life)[m] == life[m] && unchanged(m)
      requires forall m | m in old(life) :: m in life
      ensures Recs() == old(Recs())[n := RecOf(n, life[n])]
    {
      var r, s := Recs(), old(Recs())[n := RecOf(n, life[n])];
      forall m | m in r ensures m in s && r[m] == s[m] {
        assert m != n ==> RecOf(m, life[m]) == old(RecOf(m, life[m]));
      }
      assert r.Keys == s.Keys;
    }

    lemma RecsAt(n: Storage)
      requires n in life
      ensures n in Recs() && Recs()[n] == RecOf(n, life[n])
    {
    }

    // ---------------------------------------------------------------- the active queue

    /** Where an event of the given priority goes: before the first of lower priority. */
    method QueuePlace(p: Priority) returns (k: nat)
      requires forall m | m in queue :: m in life
      ensures k == Slot(queue, Recs(), ByPriority, Rank(p), 0)
    {
      hide Slot;
      k := 0;
      while k < |queue|
        invariant k <= |queue| && Slot(queue, Recs(), ByPriority, Rank(p), 0) == Slot(queue, Recs(), ByPriority, Rank(p), k)
      {
        SlotStep(queue, Recs(), ByPriority, Rank(p), k);
        if Rank(queue[k].data.priority) > Rank(p) {
          return;
        }
        k := k + 1;
      }
      SlotEnd(queue, Recs(), ByPriority, Rank(p));
    }

    /** Thread an event into the active queue. */
    method EventCoreWrite(n: Storage)
      requires n in life && forall m | m in queue :: m in life
      modifies this`queue, n`state
      ensures Model() == Write(old(Model()), n)
      ensures old(Synced()) ==> Synced()
      ensures forall m | m in queue :: m in old(queue) || m == n
    {
      hide Slot, Low32;
      var k := QueuePlace(n.data.priority);
      queue := queue[..k] + [n] + queue[k..];
      n.state := Queued;
      OneChanged(n);
    }

    method SendTimerAllocated(n: Storage)
      requires n in life && forall m | m in queue :: m in life
      modifies this`queue, n`state, n`allocator
      ensures Model() == SendTimer(old(Model()), n)
      ensures old(Synced()) && n.launchTime == Low32(life[n].due) ==> Synced()
      ensures forall m | m in queue :: m in old(queue) || m == n
    {
      hide Slot, Write, Low32;
      n.allocator := Timer;
      OneChanged(n);
      EventCoreWrite(n);
    }

    // ---------------------------------------------------------------- the pending list

    /** All launch times of the list are within half the range of `due`. */
    ghost predicate Near(due: int)
      reads this`pending, this`life, life.Keys
    {
      forall m | m in pending :: m in life && m.launchTime == Low32(life[m].due) && -HALF_32 <= due - life[m].due < HALF_32
    }

    /** Where a timer with launch time `at` goes: before the first scheduled to run after it. */
    method PendingPlace(at: U32, ghost due: int) returns (k: nat)
      requires at == Low32(due) && Near(due)
      ensures k == Slot(pending, Recs(), ByDue, due, 0)
    {
      hide Slot, Low32;
      k := 0;
      while k < |pending|
        invariant k <= |pending| && Slot(pending, Recs(), ByDue, due, 0) == Slot(pending, Recs(), ByDue, due, k)
      {
        var t := pending[k];
        SlotStep(pending, Recs(), ByDue, due, k);
        ComparisonsAreTrue(due, life[t].due);
        if TicksBefore(at, t.launchTime) {
          return;
        }
        k := k + 1;
      }
      SlotEnd(pending, Recs(), ByDue, due);
    }

    method TimerSysAdd(n: Storage)
      requires n in life && n.launchTime == Low32(life[n].due) && Near(life[n].due)
      modifies this`pending, this`life, this`stamps
      ensures Model() == AddPending(old(Model()), n)
      ensures life.Keys == old(life.Keys)
      ensures old(Synced()) ==> Synced()
    {
      hide Slot, Low32, InsertAt, Recs;
      Stamp(n);
      ghost var s := Model();
      assert Key(s.recs, ByDue, n) == life[n].due by { RecsAt(n); }
      var k := PendingPlace(n.launchTime, life[n].due);
      pending := pending[..k] + [n] + pending[k..];
      assert pending == InsertAt(s.pending, k, n) by { InsertAtIs(s.pending, k, n); }
    }

    /** Ghost bookkeeping: `n` is the latest to enter the pending list. */
    ghost method Stamp(n: Storage)
      requires n in life
      modifies this`life, this`stamps
      ensures var st := old(Model());
        Model() == Revised(st, n, st.recs[n].(stamp := Some(st.stamps))).(stamps := st.stamps + 1)
      ensures life.Keys == old(life.Keys) && forall m | m in life :: life[m].due == old(life)[m].due
      ensures old(Synced()) ==> Synced()
    {
      hide Low32;
      life := life[n := life[n].(stamp := Some(stamps))];
      stamps := stamps + 1;
      OneChanged(n);
    }

    /** Pending timers are ahead of the clock, within the horizon, and their launch times say when. */
    ghost predicate PendingAhead()
      reads this`pending, this`clock, this`life, life.Keys
    {
      forall m | m in pending :: m in life && m.launchTime == Low32(life[m].due) && clock < life[m].due <= clock + HORIZON
    }

    /**
     A timer event is over: free its struct, or arm it for the next period. In 32 bits the time of
     that is taken for the nearest it can stand for.
     */
    method TimerSysEventFree(n: Storage)
      requires n in life && n.allocator == Timer && Synced() && PendingAhead()
      requires forall m | m in queue :: m in life
      modifies this`timerFree, this`queue, this`pending, this`life, this`stamps, n`state, n`allocator, n`launchTime
      ensures Model() == TimerEventFreed(Nearest(old(Model()), n), n) && life.Keys == old(life.Keys) && Synced()
    {
      hide Synced, PendingAhead, Revised, SendTimer, AddPending;
      if n.period == 0 {
        timerFree := [n] + timerFree;
      } else {
        Rearm(n);
      }
    }

    method Rearm(n: Storage)
      requires n in life && n.allocator == Timer && Synced() && PendingAhead() && n.period > 0
      requires forall m | m in queue :: m in life
      modifies this`queue, this`pending, this`life, this`stamps, n`state, n`allocator, n`launchTime
      ensures Model() == TimerEventFreed(Nearest(old(Model()), n), n) && life.Keys == old(life.Keys) && Synced()
    {
      hide Slot, Insert, Low32, Revised, SendTimer, AddPending, Nearest, Recs;
      RecsAt(n);
      ghost var st := Nearest(Model(), n);
      NextTime(n);
      ComparisonsAreTrue(life[n].due, clock);
      if TicksBeforeOrAt(n.launchTime, ticks) {
        SendTimerAllocated(n);
      } else {
        TimerSysAdd(n);
      }
      FreedPeriodic(st, n);
    }

    /** The timer's next time, counted from the nearest its last one can stand for. */
    method NextTime(n: Storage)
      requires n in life && n.allocator == Timer && Synced() && PendingAhead() && n.period > 0
      modifies this`life, n`launchTime
      ensures n in old(Model()).recs
      ensures Model() == NextRound(Nearest(old(Model()), n), n)
      ensures life.Keys == old(life.Keys) && Synced() && (life[n].due > clock ==> Near(life[n].due))
      ensures n.launchTime == Low32(life[n].due) && -HALF_32 <= life[n].due - clock < HALF_32
      ensures NextRound(Nearest(old(Model()), n), n).recs[n].due == life[n].due
      ensures Nearest(old(Model()), n).recs[n].period > 0 && Nearest(old(Model()), n).clock == clock
    {
      hide Low32, Nearest, Slot, Recs;
      RecsAt(n);
      Readjust(n);
      RecsAt(n);
      NextPeriod(n);
    }

    /** Ghost bookkeeping: all that 32 bits tell of the next period is its nearest time. */
    ghost method Readjust(n: Storage)
      requires n in life && n.allocator == Timer && Synced() && PendingAhead() && n.period > 0
      modifies this`life
      ensures Model() == Nearest(old(Model()), n) && life.Keys == old(life.Keys) && Synced()
      ensures forall m | m in pending && m != n :: life[m] == old(life)[m]
      ensures -HALF_32 <= life[n].due + n.period - clock < HALF_32
    {
      hide Low32, PendingAhead;
      var due := NearestTo(clock, life[n].due + n.period) - n.period;
      NearestSame(clock, life[n].due + n.period, n.period);
      life := life[n := life[n].(due := due)];
      OneChanged(n);
    }

    /** Move the launch time on by the period, in 32 bits. */
    method NextPeriod(n: Storage)
      requires n in life && n.allocator == Timer && Synced() && n.period > 0
      requires forall m | m in pending :: m in life
      modifies this`life, n`launchTime
      ensures Model() == (var st, r := old(Model()), old(Model().recs[n]);
        Revised(st, n, r.(due := r.due + r.period, runs := r.runs + 1, stamp := None)))
      ensures life.Keys == old(life.Keys) && life[n].due == old(life[n].due) + n.period && Synced()
      ensures forall m | m in pending && m != n :: life[m] == old(life)[m]
      ensures n.launchTime == Low32(life[n].due)
    {
      hide Low32;
      SumIsTrue(life[n].due, n.period);
      n.launchTime := Low32(n.launchTime + n.period);
      var l := life[n];
      life := life[n := l.(due := l.due + n.period, runs := l.runs + 1, stamp := None)];
      OneChanged(n);
    }

    /** An event is over: its storage goes back where it came from. */
    method EventCoreFreePush(n: Storage)
      requires n in life && Synced() && PendingAhead()
      requires forall m | m in queue :: m in life
      modifies this`eventFree, this`timerFree, this`queue, this`pending, this`life, this`stamps
      modifies n`state, n`allocator, n`launchTime
      ensures n in old(Model()).recs
      ensures Model() == FreePushed(Nearest(old(Model()), n), n) && Synced()
      ensures life.Keys <= old(life.Keys)
    {
      hide Slot, Insert, Low32, TimerEventFreed, Nearest, Recs, FreePushed, Synced, PendingAhead;
      RecsAt(n);
      FreePushedCases(Model(), n);
      match n.allocator {
        case StartupPool =>
          MakeUnqueued(n);
          eventFree := [n] + eventFree;
        case Dynamic =>
          Forget(n);
        case Timer =>
          MakeUnqueued(n);
          TimerSysEventFree(n);
        case User =>
      }
    }

    method MakeUnqueued(n: Storage)
      requires n in life
      modifies n`state
      ensures n in old(Model()).recs
      ensures Model() == (var st := old(Model()); Revised(st, n, st.recs[n].(state := Unqueued)))
      ensures old(Synced()) ==> Synced()
      ensures old(PendingAhead()) ==> PendingAhead()
    {
      hide Low32;
      n.state := Unqueued;
      OneChanged(n);
    }

    /** A storage from the heap goes back to it. */
    method Forget(n: Storage)
      requires n in life
      modifies this`life
      ensures Model() == (var st := old(Model()); st.(recs := st.recs - {n})) && life.Keys == old(life.Keys) - {n}
      ensures old(Synced()) ==> Synced()
    {
      hide Low32;
      life := life - {n};
      Forgotten(n);
    }

    /** A freed storage is no longer known. */
    twostate lemma Forgotten(n: Storage)
      requires n in old(life) && life == old(life) - {n} && forall m | m in life :: unchanged(m)
      ensures Recs() == old(Recs()) - {n}
    {
      forall m | m in life ensures RecOf(m, life[m]) == old(RecOf(m, life[m])) {
      }
      assert Recs().Keys == (old(Recs()) - {n}).Keys;
    }

    /** What validity says of the lists. */
    lemma Facts()
      requires Valid()
      ensures forall m | m in queue || m in eventFree || m in timerFree || m in pending :: m in life
      ensures PendingAhead() && TaskletsOk(tasklets) && Synced() && Recs().Keys == life.Keys
      ensures running != null ==> running in life
      ensures forall m | m in timerFree :: m !in pending
    {
      hide Ordered, TaskletsOk, TaskletIds, Low32;
      forall m | m in pending ensures m in life && m.launchTime == Low32(life[m].due) && clock < life[m].due <= clock + HORIZON {
        assert Waiting(Model(), m, clock) && Placed(Model(), m);
      }
    }

    // ---------------------------------------------------------------- sending

    /** Take a storage for an event: the first free one, or a new one if there is memory. */
    method EventCoreGet(memory: bool) returns (n: Storage?, ghost spare: Option<Storage>)
      requires forall m | m in eventFree :: m in life
      modifies this`eventFree, this`life, life.Keys
      ensures spare.Some? ==> fresh(spare.value) && spare.value !in old(life)
      ensures spare.Some? <==> old(eventFree) == [] && memory
      ensures n == null ==> NextEvent(old(Model()), spare).None? && Model() == old(Model()) && life == old(life)
      ensures n != null ==> NextEvent(old(Model()), spare) == Some(n) && n in life && Model() == TakenEvent(old(Model()), spare)
      ensures old(Synced()) ==> Synced()
      ensures (forall m | m in life :: m in old(life) || fresh(m)) && forall m | m in old(life) :: m in life
      ensures forall m | m in old(life) && m != n :: unchanged(m)
      ensures n != null && n in old(life) ==> n.state == old(n.state)
      ensures n != null ==> n.data.dataPtr == 0 && n.data.priority == Low
    {
      hide Low32;
      if eventFree != [] {
        n, spare := eventFree[0], None;
        eventFree := eventFree[1..];
        n.data := n.data.(dataPtr := 0, priority := Low);
        OneChanged(n);
      } else if memory {
        n := EventDynamicallyAllocate();
        spare := Some(n);
        n.data := n.data.(dataPtr := 0, priority := Low);
        OneChanged(n);
      } else {
        n, spare := null, None;
      }
    }

    /** A storage from the heap. */
    method EventDynamicallyAllocate() returns (n: Storage)
      modifies this`life
      ensures fresh(n) && n !in old(life) && n.allocator == Dynamic
      ensures n.data == Event(0, 0, 0, 0, 0, High, 0) && n.state == Unqueued && n.period == 0
      ensures life == old(life)[n := Life(0, 0, 0, None)]
    {
      n := new Storage();
      n.allocator := Dynamic;
      assert n !in life;
      life := life[n := Life(0, 0, 0, None)];
    }

    /** Is there a handler with this id? */
    method HandlerIdValid(id: U8) returns (found: bool)
      ensures found <==> id in TaskletIds(tasklets)
    {
      hide TaskletIds;
      for k := 0 to |tasklets|
        invariant id !in TaskletIds(tasklets)[..k]
      {
        if tasklets[k].id == id {
          return true;
        }
      }
      found := false;
    }

    /** An id read as unsigned names the same handler. */
    lemma UnsignedId(id: I8)
      requires TaskletsOk(tasklets)
      ensures id % 0x100 in TaskletIds(tasklets) <==> id in TaskletIds(tasklets)
    {
      hide TaskletIds, Distinct;
    }

    method EventSend(data: Event, memory: bool) returns (r: I8, ghost spare: Option<Storage>)
      requires Valid()
      modifies this`queue, this`eventFree, this`life, life.Keys
      ensures Valid() && Model() == Sent(old(Model()), data, spare)
      ensures spare.Some? ==> fresh(spare.value) && memory
      ensures r == if Registered(old(Model()), data.receiver) && NextEvent(old(Model()), spare).Some? then 0 else -1
      ensures memory && Registered(old(Model()), data.receiver) ==> r == 0
      ensures forall m | m in life :: m in old(life) || fresh(m)
    {
      hide Inv, Low32, TaskletIds, TakenEvent, Posted, Synced, Recs;
      Facts();
      UnsignedId(data.receiver);
      spare := None;
      r := -1;
      var valid := HandlerIdValid(data.receiver % 0x100);
      if valid {
        var n: Storage?;
        n, spare := EventCoreGet(memory);
        if n != null {
          Post(n, data);
          r := 0;
        }
      }
      SentInv(old(Model()), data, spare);
    }

    /** Fill in a storage and queue it. */
    method Post(n: Storage, data: Event)
      requires n in life && forall m | m in queue :: m in life
      modifies this`queue, n`data, n`state
      ensures Model() == Posted(old(Model()), n, data)
      ensures old(Synced()) ==> Synced()
    {
      hide Low32, Write;
      n.data := data;
      OneChanged(n);
      EventCoreWrite(n);
    }

    /** The lowest id no handler has, or -1. */
    method GetFreeId() returns (id: I8)
      ensures var i := FreeId(TaskletIds(tasklets), 0); id == if i < 128 then i else -1
    {
      hide TaskletIds;
      var i := 0;
      while i <= 127
        invariant 0 <= i <= 128 && FreeId(TaskletIds(tasklets), 0) == FreeId(TaskletIds(tasklets), i)
      {
        var taken := HandlerIdValid(i);
        if !taken {
          return i;
        }
        i := i + 1;
      }
      id := -1;
    }

    /** Is this function a handler already? */
    method IsHandler(handler: nat) returns (found: bool)
      ensures found <==> HandlerKnown(Model(), handler)
    {
      for k := 0 to |tasklets|
        invariant forall j | 0 <= j < k :: tasklets[j].handler != handler
      {
        if tasklets[k].handler == handler {
          return true;
        }
      }
      found := false;
    }

    /** Register a handler, and send it its first event: its id, -1 if it is one already, or -2 without memory. */
    method HandlerCreate(handler: nat, initType: U8, taskletMemory: bool, eventMemory: bool)
        returns (r: I8, ghost spare: Option<Storage>)
      requires Valid() && FreeId(TaskletIds(tasklets), 0) < 128
      modifies this`tasklets, this`queue, this`eventFree, this`life, life.Keys
      ensures Valid() && Model() == Created(old(Model()), handler, initType, taskletMemory, spare)
      ensures spare.Some? ==> fresh(spare.value) && eventMemory
      ensures r == if HandlerKnown(old(Model()), handler) then -1
                   else if taskletMemory && NextEvent(old(Model()), spare).Some? then FreeId(TaskletIds(old(tasklets)), 0)
                   else -2
      ensures taskletMemory && eventMemory ==> r != -2
      ensures forall m | m in life :: m in old(life) || fresh(m)
    {
      hide Inv, Low32, TaskletIds, FreeId, TakenEvent, Posted, Synced, Recs, HandlerKnown;
      Facts();
      spare := None;
      var known := IsHandler(handler);
      if known {
        r := -1;
      } else if !taskletMemory {
        r := -2;
      } else {
        var n: Storage?;
        n, spare := EventCoreGet(eventMemory);
        if n == null {
          r := -2;
        } else {
          r := AddHandler(n, handler, initType);
        }
      }
      CreatedInv(old(Model()), handler, initType, taskletMemory, spare);
    }

    /** Add a handler to the list, and queue its first event in storage `n`. */
    method AddHandler(n: Storage, handler: nat, initType: U8) returns (id: I8)
      requires n in life && n.data.dataPtr == 0 && n.data.priority == Low && forall m | m in queue :: m in life
      requires FreeId(TaskletIds(tasklets), 0) < 128
      modifies this`tasklets, this`queue, n`data, n`state
      ensures id == FreeId(TaskletIds(old(tasklets)), 0)
      ensures Model() == (var st := old(Model());
        Posted(st.(tasklets := st.tasklets + [Tasklet(id, handler)]), n, Event(id, 0, initType, 0, 0, Low, 0)))
      ensures old(Synced()) ==> Synced()
    {
      hide TaskletIds, FreeId, Posted, Synced;
      id := GetFreeId();
      tasklets := tasklets + [Tasklet(id, handler)];
      Post(n, n.data.(receiver := id, sender := 0, eventType := initType, eventId := 0, eventData := 0));
    }

    /** A client sends an event in a storage of its own. */
    method EventSendUserAllocated(n: Storage)
      requires Valid() && n.period == 0 && Allowed(Model(), SendUser(n, n.data))
      modifies this`queue, this`life, n`allocator, n`state
      ensures Valid() && Model() == SentUser(old(Model()), n, old(n.data))
      ensures forall m | m in life :: m in old(life) || m == n
    {
      hide Inv, Low32, TaskletIds, Write;
      Facts();
      n.allocator := User;
      life := life[n := Life(0, 0, 0, None)];
      OneChanged(n);
      EventCoreWrite(n);
      StateIsOverwritten(old(Model()), n, Rec(n.data, User, Unqueued, 0, 0, 0, 0, None), old(n.state));
      SentUserInv(old(Model()), n, old(n.data));
    }

    // ---------------------------------------------------------------- requesting timers

    /** Take a timer struct: the first free one, or a new one if there is memory. */
    method TimerStructGet(memory: bool) returns (n: Storage?, ghost spare: Option<Storage>)
      requires forall m | m in timerFree :: m in life
      modifies this`timerFree
      ensures spare.Some? ==> fresh(spare.value) && spare.value !in life
      ensures spare.Some? <==> old(timerFree) == [] && memory
      ensures NextTimer(old(Model()), spare) == if n == null then None else Some(n)
      ensures n != null ==> n in life || spare == Some(n)
      ensures timerFree == if old(timerFree) == [] then [] else old(timerFree)[1..]
      ensures Model() == old(Model()).(timerFree := timerFree)
    {
      if timerFree != [] {
        n, spare := timerFree[0], None;
        timerFree := timerFree[1..];
      } else if memory {
        n := new Storage();
        spare := Some(n);
      } else {
        n, spare := null, None;
      }
    }

    /** Fill in the struct just taken. */
    method FillTimer(n: Storage, data: Event, at: U32, period: U32, ghost due: int)
      requires at == Low32(due)
      modifies this`life, this`structs, n
      ensures Model() == (var st := old(Model());
        Revised(st, n, Rec(data, Timer, Unqueued, due, period, st.clock, 0, None)).(timers := st.timers + {n}))
      ensures n in life && n.launchTime == at && life[n].due == due && n.allocator == Timer
      ensures life.Keys == old(life.Keys) + {n} && forall m | m in life && m != n :: life[m] == old(life)[m]
      ensures old(Synced()) ==> Synced()
    {
      hide Low32;
      n.data := data;
      n.allocator := Timer;
      n.state := Unqueued;
      n.launchTime := at;
      n.period := period;
      life := life[n := Life(due, clock, 0, None)];
      structs := structs + {n};
      OneChanged(n);
    }

    /** Request an event at launch time `at`, `delay` ticks from now. */
    method RequestAtCore(data: Event, at: U32, period: U32, memory: bool, ghost delay: int)
        returns (n: Storage?, ghost spare: Option<Storage>)
      requires Valid() && at == Low32(clock + delay) && -HALF_32 <= delay <= HORIZON && (period > 0 ==> delay == period)
      modifies this`timerFree, this`structs, this`queue, this`pending, this`life, this`stamps, life.Keys
      ensures Valid() && Model() == Requested(old(Model()), data, delay, period, spare)
      ensures spare.Some? ==> fresh(spare.value)
      ensures Granted(old(Model()), data, memory, n, spare)
      ensures forall m | m in life :: m in old(life) || fresh(m)
    {
      hide Inv, Low32, TaskletIds, Requested, Synced, Recs, PendingAhead;
      Facts();
      UnsignedId(data.receiver);
      NotRequested(Model(), data, delay, period);
      n, spare := null, None;
      var valid := HandlerIdValid(data.receiver % 0x100);
      if valid {
        n, spare := Grant(data, at, period, memory, delay);
      }
      RequestedInv(old(Model()), data, delay, period, spare);
    }

    /** The receiver is registered: take a struct, fill it in, and queue it or let it wait. */
    method Grant(data: Event, at: U32, period: U32, memory: bool, ghost delay: int)
        returns (n: Storage?, ghost spare: Option<Storage>)
      requires Synced() && PendingAhead() && (forall m | m in timerFree || m in queue :: m in life)
      requires forall m | m in timerFree :: m !in pending
      requires Registered(Model(), data.receiver) && at == Low32(clock + delay) && -HALF_32 <= delay <= HORIZON
      modifies this`timerFree, this`structs, this`queue, this`pending, this`life, this`stamps, life.Keys
      ensures Model() == Requested(old(Model()), data, delay, period, spare) && Synced()
      ensures spare.Some? ==> fresh(spare.value) && spare.value !in old(life)
      ensures NextTimer(old(Model()), spare) == if n == null then None else Some(n)
      ensures spare.Some? <==> old(timerFree) == [] && memory
      ensures life.Keys == old(life.Keys) + (if spare.Some? then {spare.value} else {})
    {
      hide Low32, TaskletIds, TakenTimer, SendTimer, AddPending, Synced, Recs, PendingAhead, Requested;
      ghost var st := Model();
      n, spare := TakeTimer(data, at, period, memory, clock + delay);
      if n != null {
        Launch(n, delay);
      }
      RequestedSteps(st, data, delay, period, spare);
    }

    method TakeTimer(data: Event, at: U32, period: U32, memory: bool, ghost due: int)
        returns (n: Storage?, ghost spare: Option<Storage>)
      requires Synced() && PendingAhead() && (forall m | m in timerFree || m in queue :: m in life)
      requires forall m | m in timerFree :: m !in pending
      requires at == Low32(due)
      modifies this`timerFree, this`structs, this`life, life.Keys
      ensures Synced() && PendingAhead() && life.Keys == old(life.Keys) + (if spare.Some? then {spare.value} else {})
      ensures spare.Some? ==> fresh(spare.value) && spare.value !in old(life)
      ensures spare.Some? <==> old(timerFree) == [] && memory
      ensures NextTimer(old(Model()), spare) == if n == null then None else Some(n)
      ensures n == null ==> Model() == old(Model())
      ensures n != null ==> Model() == TakenTimer(old(Model()), data, due, period, spare)
      ensures n != null ==> n in life && n.allocator == Timer && n.launchTime == at && life[n].due == due
    {
      hide Low32, Recs;
      n, spare := TimerStructGet(memory);
      if n != null {
        FillTimer(n, data, at, period, due);
      }
    }

    /** Queue a filled-in timer whose time has come, or let it wait. */
    method Launch(n: Storage, ghost delay: int)
      requires n in life && n.allocator == Timer && n.launchTime == Low32(life[n].due) && life[n].due == clock + delay
      requires -HALF_32 <= delay <= HORIZON && Synced() && PendingAhead()
      requires forall m | m in queue :: m in life
      modifies this`queue, this`pending, this`life, this`stamps, n`state, n`allocator
      ensures Model() == if delay <= 0 then SendTimer(old(Model()), n) else AddPending(old(Model()), n)
      ensures life.Keys == old(life.Keys) && Synced()
    {
      hide Low32, SendTimer, AddPending, Recs;
      ComparisonsAreTrue(clock + delay, clock);
      if TicksBeforeOrAt(n.launchTime, ticks) {
        SendTimerAllocated(n);
      } else {
        TimerSysAdd(n);
      }
    }

    method EventTimerRequestAt(data: Event, at: U32, memory: bool) returns (n: Storage?, ghost spare: Option<Storage>)
      requires Valid()
      modifies this`timerFree, this`structs, this`queue, this`pending, this`life, this`stamps, life.Keys
      ensures Valid() && Model() == Requested(old(Model()), data, Difference(at, old(ticks)), 0, spare)
      ensures Granted(old(Model()), data, memory, n, spare)
      ensures spare.Some? ==> fresh(spare.value)
      ensures forall m | m in life :: m in old(life) || fresh(m)
    {
      hide Inv, Low32, Requested, Recs;
      Facts();
      NearestCount(clock, at);
      n, spare := RequestAtCore(data, at, 0, memory, Difference(at, ticks));
    }

    method EventTimerRequestIn(data: Event, delay: I32, memory: bool) returns (n: Storage?, ghost spare: Option<Storage>)
      requires Valid()
      modifies this`timerFree, this`structs, this`queue, this`pending, this`life, this`stamps, life.Keys
      ensures Valid() && Model() == Requested(old(Model()), data, delay, 0, spare)
      ensures Granted(old(Model()), data, memory, n, spare)
      ensures spare.Some? ==> fresh(spare.value)
      ensures forall m | m in life :: m in old(life) || fresh(m)
    {
      hide Inv, Low32, Requested, Recs;
      Facts();
      SumIsTrue(clock, delay);
      n, spare := RequestAtCore(data, Low32(ticks + delay), 0, memory, delay);
    }

    method EventTimerRequestEvery(data: Event, period: I32, memory: bool) returns (n: Storage?, ghost spare: Option<Storage>)
      requires Valid()
      modifies this`timerFree, this`structs, this`queue, this`pending, this`life, this`stamps, life.Keys
      ensures period <= 0 ==> n == null && spare.None? && Model() == old(Model())
      ensures period > 0 ==> Model() == Requested(old(Model()), data, period, period, spare)
      ensures period > 0 ==> Granted(old(Model()), data, memory, n, spare)
      ensures Valid() && (spare.Some? ==> fresh(spare.value))
      ensures forall m | m in life :: m in old(life) || fresh(m)
    {
      hide Inv, Low32, Requested, Recs;
      if period <= 0 {
        n, spare := null, None;
      } else {
        Facts();
        SumIsTrue(clock, period);
        n, spare := RequestAtCore(data, Low32(ticks + period), period, memory, period);
      }
    }

    /** Request an event in a number of milliseconds, with the rounding of the first versions. */
    method EventTimerRequest(eventId: U8, eventType: U8, tasklet: I8, time: U32, memory: bool)
        returns (r: I8, ghost spare: Option<Storage>)
      requires Valid()
      modifies this`timerFree, this`structs, this`queue, this`pending, this`life, this`stamps, life.Keys
      ensures Valid() && Model() == Requested(old(Model()), Event(tasklet, 0, eventType, eventId, 0, Medium, 0), LegacyTicks(time), 0, spare)
      ensures r == 0 ==> NextTimer(old(Model()), spare).Some? && NextTimer(old(Model()), spare).value in Model().recs
      ensures r == 0 ==> var d := Model().recs[NextTimer(old(Model()), spare).value].due - clock;
        if time <= 20 then d == 2 else 10 * (d - 1) <= time < 10 * d
      ensures r == if Registered(old(Model()), tasklet) && NextTimer(old(Model()), spare).Some? then 0 else -1
      ensures spare.Some? ==> fresh(spare.value) && memory
      ensures memory && Registered(old(Model()), tasklet) ==> r == 0
      ensures forall m | m in life :: m in old(life) || fresh(m)
    {
      hide Inv, Low32, Requested, Recs;
      var t := time;
      if t > 20 {
        t := t / 10;
        t := t + 1;
      } else {
        t := 2;
      }
      Facts();
      SumIsTrue(clock, t);
      var n: Storage?;
      n, spare := RequestAtCore(Event(tasklet, 0, eventType, eventId, 0, Medium, 0), Low32(ticks + t), 0, memory, t);
      r := if n != null then 0 else -1;
      RequestedDue(old(Model()), Event(tasklet, 0, eventType, eventId, 0, Medium, 0), t, 0, spare);
      LegacyCovers(time);
    }

    // ---------------------------------------------------------------- ticks

    /** Tell the time, and queue the timers that have become due. */
    method TickUpdate(n: U32)
      requires Valid()
      modifies this`ticks, this`clock, this`pending, this`queue, life.Keys
      ensures Synced() && life == old(life) && clock == old(clock) + n
      ensures Told(old(Model()), n) ==> Valid() && Model() == Ticked(old(Model()), n)
      ensures !Told(old(Model()), n) ==> Model() == old(Model()).(clock := clock)
    {
      hide Inv, Low32, Recs, Expire;
      Facts();
      SumIsTrue(clock, n);
      ToldApart(n);
      ghost var told := Told(Model(), n);
      ticks := Low32(ticks + n);
      clock := clock + n;
      ExpireTimers(told);
      if told {
        TickedInv(old(Model()), n);
      }
    }

    /** The 32-bit comparison of this timer's launch time with the tick count is true. */
    ghost predicate Apart(m: Storage)
      reads this`clock, this`life
    {
      m in life && -HALF_32 <= life[m].due - clock < HALF_32
    }

    lemma ClockOf()
      requires Valid()
      ensures ticks == Low32(clock) && Model().clock == clock
    {
    }

    lemma TaskletsOf()
      ensures Model().tasklets == tasklets && Model().recs.Keys == life.Keys
    {
    }

    lemma ValidInv()
      requires Valid()
      ensures Inv(Model())
    {
    }

    /** A single tick is always told. */
    lemma AlwaysTold()
      requires Valid()
      ensures Told(Model(), 1)
    {
      hide Inv;
      if pending != [] {
        FirstAhead(Model());
      }
    }

    /** Is `due` told from a time to come, `n` ticks later? */
    lemma ToldApart(n: U32)
      requires Valid()
      ensures Told(Model(), n) ==> forall m | m in pending :: m in life && -HALF_32 <= life[m].due - (clock + n) < HALF_32
      ensures !Told(Model(), n) ==>
        pending != [] && pending[0] in life && HALF_32 < clock + n - life[pending[0]].due < TWO_32
    {
      hide Inv, Low32, Owned;
      Facts();
      if pending != [] {
        FirstAhead(Model());
        RecsAt(pending[0]);
        forall m | m in pending ensures life[pending[0]].due <= life[m].due {
          RecsAt(m);
        }
      }
    }

    lemma Compared(m: Storage, apart: bool)
      requires Synced() && m in life && m.launchTime == Low32(life[m].due)
      requires if apart then Apart(m) else HALF_32 < clock - life[m].due < TWO_32
      ensures TicksBeforeOrAt(m.launchTime, ticks) <==> apart && life[m].due <= clock
    {
      hide Low32;
      if apart {
        DifferenceIsTrue(life[m].due, clock);
      } else {
        PastMistakenForFuture(life[m].due, clock);
      }
    }

    /** Queue the timers that are due, up to the first that is not. */
    method ExpireTimers(ghost apart: bool)
      requires Synced() && forall m | m in queue || m in pending :: m in life
      requires forall m | m in pending :: m.launchTime == Low32(life[m].due)
      requires if apart then forall m | m in pending :: Apart(m)
               else pending != [] && HALF_32 < clock - life[pending[0]].due < TWO_32
      requires Recs().Keys == life.Keys
      modifies this`pending, this`queue, life.Keys
      ensures Synced()
      ensures Model() == if apart then Expire(old(Model())) else old(Model())
    {
      hide Low32, Recs, SendTimer, Synced;
      while pending != []
        invariant Synced() && (forall m | m in pending || m in queue :: m in life) && Recs().Keys == life.Keys
        invariant forall m | m in pending :: m in old(pending) && m.launchTime == Low32(life[m].due)
        invariant if apart then Expire(Model()) == Expire(old(Model())) else Model() == old(Model())
      {
        Compared(pending[0], apart);
        assert Recs()[pending[0]].due == life[pending[0]].due by { RecsAt(pending[0]); }
        if TicksBeforeOrAt(pending[0].launchTime, ticks) {
          ExpireFirst(pending[0]);
        } else {
          break;
        }
      }
    }

    /** Move the first pending timer to the active queue. */
    method ExpireFirst(cur: Storage)
      requires Synced() && pending != [] && cur == pending[0] && forall m | m in queue || m in pending :: m in life
      requires cur.launchTime == Low32(life[cur].due)
      modifies this`pending, this`queue, cur`state, cur`allocator
      ensures Model() == (var st := old(Model()); SendTimer(st.(pending := st.pending[1..]), st.pending[0]))
      ensures Synced() && pending == old(pending)[1..] && (forall m | m in queue :: m in life) && Recs().Keys == life.Keys
    {
      hide Low32, SendTimer;
      pending := pending[1..];
      SendTimerAllocated(cur);
    }

    /** After a sleep of so many milliseconds, make up for the ticks that were missed. */
    method TimerSynchAfterSleep(sleepTicks: U32)
      requires Valid()
      modifies this`ticks, this`clock, this`pending, this`queue, life.Keys
      ensures Synced() && life == old(life) && clock == old(clock) + SleptTicks(sleepTicks)
      ensures 10 * (clock - old(clock) - 1) <= sleepTicks < 10 * (clock - old(clock))
      ensures Told(old(Model()), SleptTicks(sleepTicks)) ==>
        Valid() && Model() == Ticked(old(Model()), SleptTicks(sleepTicks))
      ensures !Told(old(Model()), SleptTicks(sleepTicks)) ==> Model() == old(Model()).(clock := clock)
    {
      hide Inv, Ticked, Recs;
      var t := sleepTicks;
      t := t / 10;
      t := t + 1;
      Facts();
      TickUpdate(t);
    }

    /** Milliseconds to the next timer, 0 for none; the branch for an overdue one is never taken. */
    method ShortestActiveTimer() returns (ms: U32)
      requires Valid()
      ensures ms == Shortest(Model())
    {
      hide Inv, Low32, Recs;
      var r: int := 0;
      if pending != [] {
        var first := pending[0];
        Facts();
        FirstAhead(Model());
        RecsAt(first);
        DifferenceIsTrue(life[first].due, clock);
        if TicksBeforeOrAt(first.launchTime, ticks) {
          assert false;
          r := 1;
        } else {
          r := Low32(first.launchTime - ticks);
          LowDifference(life[first].due, clock);
        }
      }
      ms := TicksToMs(r);
    }

    // ---------------------------------------------------------------- cancelling

    /** Remove a timer's period, and the timer from the pending list if it is there. */
    method TimerSysEventCancel(n: Storage)
      requires n in life && (n.state == Unqueued ==> n in pending)
      modifies this`pending, n`period
      ensures Model() == (var st := old(Model()); Revised(st, n, st.recs[n].(period := 0)).(pending := pending))
      ensures n.period == 0 && pending == if n.state == Unqueued then Minus(old(pending), n) else old(pending)
      ensures old(Synced()) ==> Synced()
    {
      hide Low32, Minus;
      n.period := 0;
      OneChanged(n);
      if n.state == Unqueued {
        pending := Minus(pending, n);
      }
    }

    method Cancel(n: Storage?)
      requires Valid() && (n != null ==> Live(Model(), n))
      modifies this`eventFree, this`timerFree, this`queue, this`pending, this`life, this`stamps, life.Keys
      ensures Valid() && Model() == if n == null then old(Model()) else Cancelled(old(Model()), n)
      ensures forall m | m in life :: m in old(life)
    {
      hide Inv, Low32, Recs, FreePushed, Minus, Synced;
      if n == null {
        return;
      }
      Facts();
      LiveFacts(n);
      if n.allocator == Timer {
        TimerSysEventCancel(n);
      }
      if n.state == Queued {
        queue := Minus(queue, n);
      }
      if n.state != Running {
        EventCoreFreePush(n);
      }
      CancelledInv(old(Model()), n);
    }

    /** A live event's tags say where it is. */
    lemma LiveFacts(n: Storage)
      requires Valid() && Live(Model(), n)
      ensures n in life && Recs()[n] == RecOf(n, life[n])
      ensures n.allocator == Timer && n.state == Unqueued ==> n in pending
      ensures n.state == Queued ==> n in queue
    {
      hide Ordered, Contents, TaskletsOk, Placed;
      CancelledCases(Model(), n);
      RecsAt(n);
    }

    /** The first event in the active queue with this receiver and id. */
    method FindById(tasklet: U8, eventId: U8) returns (n: Storage?)
      requires forall m | m in queue :: m in life
      ensures FirstMatch(queue, Recs(), eventId, tasklet) == if n == null then None else Some(n)
    {
      for k := 0 to |queue|
        invariant FirstMatch(queue[k..], Recs(), eventId, tasklet) == FirstMatch(queue, Recs(), eventId, tasklet)
      {
        MatchStep(queue[k..], Recs(), eventId, tasklet);
        if queue[k].data.receiver == tasklet && queue[k].data.eventId == eventId {
          return queue[k];
        }
        assert queue[k..][1..] == queue[k + 1..];
      }
      n := null;
    }

    /** The first pending timer with this receiver and id. */
    method FindPending(tasklet: I8, eventId: U8) returns (n: Storage?)
      requires forall m | m in pending :: m in life
      ensures FirstMatch(pending, Recs(), eventId, tasklet) == if n == null then None else Some(n)
    {
      for k := 0 to |pending|
        invariant FirstMatch(pending[k..], Recs(), eventId, tasklet) == FirstMatch(pending, Recs(), eventId, tasklet)
      {
        MatchStep(pending[k..], Recs(), eventId, tasklet);
        if pending[k].data.receiver == tasklet && pending[k].data.eventId == eventId {
          return pending[k];
        }
        assert pending[k..][1..] == pending[k + 1..];
      }
      n := null;
    }

    /** Cancel a timer by id: 0 if one was found, else -1. */
    method EventTimerCancel(eventId: U8, tasklet: I8) returns (r: I8)
      requires Valid()
      modifies this`eventFree, this`timerFree, this`queue, this`pending, this`life, this`stamps, life.Keys
      ensures Valid() && Model() == TimerCancelled(old(Model()), eventId, tasklet)
      ensures r == if CancelTarget(old(Model()), eventId, tasklet).Some? then 0 else -1
      ensures forall m | m in life :: m in old(life)
    {
      hide Inv, Recs, Cancelled, FirstMatch, Synced;
      Facts();
      var cur := FindPending(tasklet, eventId);
      if cur != null {
        Cancel(cur);
        return 0;
      }
      var event := FindById(tasklet % 0x100, eventId);
      if event != null {
        RecsAt(event);
        if event.allocator == Timer {
          Cancel(event);
          return 0;
        }
      }
      r := -1;
    }

    // ---------------------------------------------------------------- dispatching

    /** Take the next event off the queue and find its handler. */
    method DispatchBegin() returns (n: Storage?, handler: nat)
      requires Valid() && running == null
      modifies this`queue, this`running, this`delivered, life.Keys
      ensures Valid() && Model() == Begun(old(Model())) && running == n && life == old(life)
      ensures n == null <==> old(queue) == []
      ensures n != null ==> exists k | 0 <= k < |tasklets| :: tasklets[k] == Tasklet(n.data.receiver, handler)
    {
      hide Inv, Low32, Recs, TaskletIds, Synced, Begun;
      Facts();
      handler := 0;
      n := EventCoreRead();
      BegunInv(old(Model()));
      if n != null {
        RunningHasReceiver();
        handler := HandlerGet(n.data.receiver);
      }
    }

    method EventCoreRead() returns (n: Storage?)
      requires forall m | m in queue :: m in life
      modifies this`queue, this`running, this`delivered, life.Keys
      ensures Model() == Begun(old(Model()))
      ensures old(Synced()) ==> Synced()
      ensures n == null <==> old(queue) == []
      ensures if n == null then running == old(running) else running == n && n in life
    {
      hide Low32;
      n := null;
      if queue != [] {
        n := queue[0];
        n.state := Running;
        queue := queue[1..];
        running := n;
        delivered := delivered + [Tag(n.data.priority, life[n].due, life[n].stamp)];
        OneChanged(n);
      }
    }

    /** The handler registered under an id. */
    method HandlerGet(id: I8) returns (handler: nat)
      requires id in TaskletIds(tasklets)
      ensures exists k | 0 <= k < |tasklets| :: tasklets[k] == Tasklet(id, handler)
    {
      hide TaskletIds;
      handler := 0;
      for k := 0 to |tasklets|
        invariant id !in TaskletIds(tasklets)[..k]
      {
        if tasklets[k].id == id {
          assert tasklets[k] == Tasklet(id, tasklets[k].handler);
          return tasklets[k].handler;
        }
      }
    }

    lemma RunningHasReceiver()
      requires Valid() && running != null
      ensures running in life && running.data.receiver in TaskletIds(tasklets)
    {
      hide Ordered, Owned, TaskletIds;
      assert Fired(Model(), running);
    }

    /**
     The handler has returned. In 32 bits a periodic timer's next time is taken for the nearest it can stand for,
     which is the true one if the timer is at most half the range behind.
     */
    method DispatchEnd()
      requires Valid() && running != null
      modifies this`running, this`eventFree, this`timerFree, this`queue, this`pending, this`life, this`stamps, life.Keys
      ensures old(running) in old(Model()).recs
      ensures Model() == Ended(Nearest(old(Model()), old(running))) && running == null && Synced()
      ensures old(InTime(Model(), running)) ==> Valid() && Model() == Ended(old(Model()))
      ensures forall m | m in life :: m in old(life)
    {
      hide Inv, Low32, Recs, FreePushed, Synced, Nearest, InTime;
      Facts();
      var n := running;
      EndedNearest(Model(), n);
      NearestIsTrue(Model(), n);
      running := null;
      EventCoreFreePush(n);
      EndedInv(old(Model()));
    }

    // ---------------------------------------------------------------- any call, and running until idle

    /** A client fills in a storage of its own and sends it. */
    method SendFilled(n: Storage, data: Event)
      requires Valid() && Allowed(Model(), SendUser(n, data))
      modifies this`queue, this`life, n
      ensures Valid() && Model() == SentUser(old(Model()), n, data)
      ensures forall m | m in life :: m in old(life) || m == n
    {
      hide Inv, Low32, TaskletIds, Write;
      Facts();
      n.data := data;
      n.period := 0;
      n.allocator := User;
      life := life[n := Life(0, 0, 0, None)];
      OneChanged(n);
      EventCoreWrite(n);
      StateIsOverwritten(old(Model()), n, Rec(data, User, Unqueued, 0, 0, 0, 0, None), old(n.state));
      SentUserInv(old(Model()), n, data);
    }

    /** May a client send this storage? It may if it is in no list and not part of the event loop. */
    method MaySend(n: Storage) returns (may: bool)
      requires Valid()
      ensures may <==> (n in Model().recs ==> Model().recs[n].allocator == User && n !in queue)
    {
      may := n !in queue && (n.allocator == User || (n !in eventFree && n !in timerFree && n !in pending && running != n));
      OwnOrListed(n);
    }

    /** What the event loop owns is in a list or running. */
    lemma OwnOrListed(n: Storage)
      requires Valid()
      ensures n in Model().recs <==> n in life
      ensures n in life ==> Model().recs[n].allocator == n.allocator
      ensures n in life && n.allocator != User ==> n in eventFree || n in timerFree || n in pending || n in queue || running == n
      ensures n in eventFree || n in timerFree || n in pending || n in queue || running == n ==> n in life
      ensures n in eventFree || n in timerFree || n in pending ==> n.allocator != User
    {
      hide Contents, Ordered, TaskletsOk;
      if n in life {
        RecsAt(n);
        assert Placed(Model(), n);
      }
    }

    /** The 32-bit counts tell true times in this call: no tick jump or return of a handler is too late for them. */
    ghost predicate Timely(c: Command)
      reads this, life.Keys
    {
      && (c.PassTicks? ==> Told(Model(), c.ticks))
      && (c.EndDispatch? && running != null ==> running in Model().recs && InTime(Model(), running))
    }

    /** Carry out any call; those the specification does not allow do nothing. */
    method Perform(c: Command) returns (ghost ops: seq<Op>)
      requires Valid() && Timely(c)
      modifies this, life.Keys, Own(c)
      ensures Valid() && ComesTo(old(Model()), c, ops) && Model() == Run(old(Model()), ops)
      ensures forall m | m in life :: m in old(life) || fresh(m) || m in Own(c)
    {
      hide Inv, Model, Step, Allowed, ComesTo, Told, InTime;
      if c.CreateHandler? || c.SendEvent? || c.SendOwn? {
        ops := PerformSend(c);
      } else if c.CancelPending? || c.CancelQueued? || c.CancelRunning? || c.CancelById? {
        ops := PerformCancel(c);
      } else if c.PassTicks? || c.BeginDispatch? || c.EndDispatch? {
        ops := PerformTime(c);
      } else {
        ops := PerformRequest(c);
      }
    }

    lemma KnownReceiver(id: I8)
      requires Valid()
      ensures id % 0x100 in TaskletIds(tasklets) <==> Registered(Model(), id)
    {
      hide Owned, Contents, Ordered, TaskletIds, TaskletsOk;
      UnsignedId(id);
    }

    method PerformSend(c: Command) returns (ghost ops: seq<Op>)
      requires Valid() && (c.CreateHandler? || c.SendEvent? || c.SendOwn?)
      modifies this, life.Keys, Own(c)
      ensures Valid() && ComesTo(old(Model()), c, ops) && Model() == Run(old(Model()), ops)
      ensures forall m | m in life :: m in old(life) || fresh(m) || m in Own(c)
    {
      hide Inv, Model, Created, Sent, SentUser, TaskletIds, FreeId, Synced;
      ghost var st := Model();
      TaskletsOf();
      QueueOf();
      match c {
        case CreateHandler(handler, initType, taskletMemory, eventMemory) =>
          var id := GetFreeId();
          ghost var spare := None;
          if id >= 0 {
            var r;
            r, spare := HandlerCreate(handler, initType, taskletMemory, eventMemory);
          }
          ops := [Create(handler, initType, taskletMemory, spare)];
        case SendEvent(data, memory) =>
          var r;
          ghost var spare;
          r, spare := EventSend(data, memory);
          ops := [Send(data, spare)];
        case SendOwn(n, data) =>
          KnownReceiver(data.receiver);
          var may := MaySend(n);
          var known := HandlerIdValid(data.receiver % 0x100);
          if may && known {
            SendFilled(n, data);
          }
          ops := [SendUser(n, data)];
      }
      RunOne(st, ops[0]);
    }

    method PerformRequest(c: Command) returns (ghost ops: seq<Op>)
      requires Valid() && (c.RequestAt? || c.RequestIn? || c.RequestEvery? || c.RequestAfter?)
      modifies this, life.Keys
      ensures Valid() && ComesTo(old(Model()), c, ops) && Model() == Run(old(Model()), ops)
      ensures forall m | m in life :: m in old(life) || fresh(m)
    {
      hide Inv, Model, Requested, Synced, Low32;
      ghost var st := Model();
      ghost var spare := None;
      TaskletsOf();
      ClockOf();
      var n;
      match c {
        case RequestAt(data, at, memory) =>
          n, spare := EventTimerRequestAt(data, at, memory);
          ops := [Request(data, Difference(at, old(ticks)), 0, spare)];
        case RequestIn(data, delay, memory) =>
          n, spare := EventTimerRequestIn(data, delay, memory);
          ops := [Request(data, delay, 0, spare)];
        case RequestEvery(data, period, memory) =>
          n, spare := EventTimerRequestEvery(data, period, memory);
          ops := if period <= 0 then [] else [Request(data, period, period, spare)];
        case RequestAfter(eventId, eventType, tasklet, time, memory) =>
          var r;
          r, spare := EventTimerRequest(eventId, eventType, tasklet, time, memory);
          ops := [Request(Event(tasklet, 0, eventType, eventId, 0, Medium, 0), LegacyTicks(time), 0, spare)];
      }
      if ops != [] {
        RunOne(st, ops[0]);
      }
    }

    /** May this event still be cancelled? */
    method IsLive(n: Storage) returns (live: bool)
      requires Valid()
      ensures live <==> Live(Model(), n)
    {
      hide Inv;
      OwnOrListed(n);
      Facts();
      live := n in pending || n in queue || (running == n && n.state == Running);
      if running == n {
        RecsAt(n);
      }
    }

    method PerformCancel(c: Command) returns (ghost ops: seq<Op>)
      requires Valid() && (c.CancelPending? || c.CancelQueued? || c.CancelRunning? || c.CancelById?)
      modifies this, life.Keys
      ensures Valid() && ComesTo(old(Model()), c, ops) && Model() == Run(old(Model()), ops)
      ensures forall m | m in life :: m in old(life) || fresh(m)
    {
      hide Inv, Model, TimerCancelled, Cancelled, Synced;
      ghost var st := Model();
      QueueOf();
      if c.CancelById? {
        var r := EventTimerCancel(c.eventId, c.tasklet);
        ops := [CancelTimer(c.eventId, c.tasklet)];
        RunOne(st, ops[0]);
      } else {
        var n: Storage? := null;
        match c {
          case CancelPending(k) => if k < |pending| { n := pending[k]; }
          case CancelQueued(k) => if k < |queue| { n := queue[k]; }
          case CancelRunning => n := running;
        }
        ops := [];
        if n != null {
          CancelLive(n);
          ops := [EventRuns.Op.Cancel(n)];
        }
      }
    }

    /** Cancel an event if it may still be cancelled. */
    method CancelLive(n: Storage)
      requires Valid()
      modifies this`eventFree, this`timerFree, this`queue, this`pending, this`life, this`stamps, life.Keys
      ensures Valid() && Inv(old(Model())) && Model() == Run(old(Model()), [EventRuns.Op.Cancel(n)])
      ensures forall m | m in life :: m in old(life)
    {
      hide Inv, Model, Cancelled, Synced, Live;
      ghost var st := Model();
      RunOne(st, EventRuns.Op.Cancel(n));
      var live := IsLive(n);
      if live {
        Cancel(n);
      }
    }

    method PerformTime(c: Command) returns (ghost ops: seq<Op>)
      requires Valid() && Timely(c) && (c.PassTicks? || c.BeginDispatch? || c.EndDispatch?)
      modifies this, life.Keys
      ensures Valid() && ComesTo(old(Model()), c, ops) && Model() == Run(old(Model()), ops)
      ensures forall m | m in life :: m in old(life) || fresh(m)
    {
      hide Inv, Model, Ticked, Begun, Ended, Told, InTime, Synced, Nearest;
      ghost var st := Model();
      QueueOf();
      match c {
        case PassTicks(n) =>
          TickUpdate(n);
          ops := [EventRuns.Op.TickUpdate(n)];
        case BeginDispatch =>
          if running == null {
            var n, handler := DispatchBegin();
          }
          ops := [Begin];
        case EndDispatch =>
          if running != null {
            DispatchEnd();
          }
          ops := [End];
      }
      RunOne(st, ops[0]);
    }

    /** What a handler does: one call after the other, none of them sending anything. */
    method Handle(cs: seq<Command>) returns (ghost script: seq<Op>)
      requires Valid() && forall k | 0 <= k < |cs| :: SilentCommand(cs[k], ticks)
      modifies this, life.Keys
      ensures Valid() && Follows(old(Model()), cs, script) && Silent(script) && Model() == Run(old(Model()), script)
      ensures NoMore(old(Model()), Model()) && ticks == old(ticks)
      ensures forall m | m in life :: m in old(life) || fresh(m)
      decreases |cs|
    {
      hide Inv, Model, ComesTo, SilentCommand, Silent, NoMore;
      if cs == [] {
        script := [];
        NothingSilent();
      } else {
        ghost var st := Model();
        ClockOf();
        assert SilentCommand(cs[0], ticks);
        SilentIsTimely(cs[0]);
        ghost var first := Perform(cs[0]);
        SilentPerformed(st, cs[0], first);
        ghost var rest := Handle(cs[1..]);
        script := first + rest;
        RunJoins(st, first, rest);
        FollowsOn(st, cs, first, rest);
        SilentJoins(first, rest);
        ScriptOwesNoMore(st, script) by { IsSilent(script); }
      }
    }

    lemma QueueOf()
      requires Valid()
      ensures Inv(Model()) && Model().queue == queue && Model().pending == pending
      ensures Model().running == (if running == null then None else Some(running)) && Idle(Model()) == (running == null)
    {
    }

    lemma NothingSilent()
      requires Valid()
      ensures Inv(Model()) && Follows(Model(), [], []) && Silent([]) && NoMore(Model(), Model()) && Run(Model(), []) == Model()
    {
      hide Inv, NoMore;
      SameOwesNoMore(Model());
    }

    lemma SilentIsTimely(c: Command)
      requires SilentCommand(c, ticks)
      ensures Timely(c) && Own(c) == {}
    {
      hide Model;
    }

    lemma SilentPerformed(st: State, c: Command, ops: seq<Op>)
      requires Valid() && Inv(st) && ComesTo(st, c, ops) && SilentCommand(c, Low32(st.clock)) && Model() == Run(st, ops)
      ensures Silent(ops) && ticks == Low32(st.clock)
    {
      hide Inv, Low32, Run, Silent, SilentCommand, ComesTo;
      SilentComesTo(st, c, ops);
      ScriptOwesNoMore(st, ops) by { IsSilent(ops); }
    }

    /** Dispatch one event to a handler that makes these calls; false if there is none. */
    method DispatchHandled(cs: seq<Command>) returns (more: bool, ghost script: seq<Op>)
      requires Valid() && running == null && CatchingUp(Model()) && forall k | 0 <= k < |cs| :: SilentCommand(cs[k], ticks)
      modifies this, life.Keys
      ensures Valid() && Idle(old(Model())) && Idle(Model()) && CatchingUp(Model()) && ticks == old(ticks) && running == null
      ensures more <==> old(queue) != []
      ensures !more ==> Model() == old(Model())
      ensures more ==> Silent(script) && Model() == Handled(old(Model()), script)
      ensures more ==> Inv(Begun(old(Model()))) && Follows(Begun(old(Model())), cs, script)
      ensures forall m | m in life :: m in old(life) || fresh(m)
    {
      hide Inv, Recs, Begun, Ended, CatchingUp, SilentCommand, Silent, NoMore, Follows, Synced, InTime;
      ghost var st := Model();
      script := [];
      BegunInv(st);
      var n, handler := DispatchBegin();
      more := n != null;
      if more {
        BegunCatchesUp(st);
        script := Handle(cs);
        HandlerReturns(Begun(st), Model());
        ReturnInTime(n);
        DispatchEnd();
        EndedCatchesUp(Run(Begun(st), script));
      } else {
        NothingToBegin(st);
      }
    }

    lemma HandlerReturns(st: State, t: State)
      requires NoMore(st, t) && CatchingUp(st)
      ensures CatchingUp(t) && t.running == st.running && t.clock == st.clock
    {
      NoMoreCatchesUp(st, t);
    }

    lemma ReturnInTime(n: Storage)
      requires Valid() && Model().running == Some(n) && CatchingUp(Model())
      ensures running == n && n in Model().recs && InTime(Model(), n)
    {
      hide Inv;
      Facts();
      RecsAt(n);
    }

    /**
     Run until the queue is empty. The handlers' calls cancel events or request timers for later, and send nothing.
     Each dispatch pays for at least one of the events owed, and for exactly one if the handlers do nothing.
     */
    method RunUntilIdle(handlers: nat -> seq<Command>) returns (ghost scripts: seq<seq<Op>>)
      requires Valid() && running == null && CatchingUp(Model())
      requires forall i: nat :: forall k | 0 <= k < |handlers(i)| :: SilentCommand(handlers(i)[k], ticks)
      modifies this, life.Keys
      ensures Valid() && running == null && queue == [] && Idle(old(Model()))
      ensures Busy(old(Model()), scripts) && Model() == HandledAll(old(Model()), scripts)
      ensures |scripts| <= Debt(old(Model()))
      ensures AllMade(old(Model()), scripts, handlers)
      ensures (forall i | 0 <= i < |scripts| :: scripts[i] == []) ==> (Model(), |scripts|) == Drained(old(Model()))
      ensures forall m | m in life :: m in old(life) || fresh(m)
    {
      hide Inv, Model, Handled, CatchingUp, SilentCommand, Silent, Drained, Debt, HandledAll, Busy, AllMade;
      ghost var st := Model();
      scripts := [];
      ValidInv();
      QueueOf();
      NoneHandled(st, handlers);
      var i := 0;
      var more := true;
      while more
        invariant Valid() && running == null && Idle(Model()) && CatchingUp(Model()) && ticks == old(ticks)
        invariant i == |scripts| && Idle(st) && Busy(st, scripts) && Model() == HandledAll(st, scripts)
        invariant AllMade(st, scripts, handlers)
        invariant forall m | m in life :: m in old(life) || fresh(m)
        invariant more || Model().queue == []
        decreases Debt(Model()), more
      {
        ghost var s, script := Model(), [];
        QueueOf();
        more, script := DispatchHandled(handlers(i));
        QueueOf();
        if more {
          HandlingPays(s, script) by { IsSilent(script); }
          OneMoreHandled(st, scripts, script, handlers);
          scripts := scripts + [script];
          i := i + 1;
        }
      }
      AtMostTheDebt(st, scripts) by { AllSilent(st, scripts, handlers); }
      InertIsDrained(st, scripts);
      QueueOf();
    }
  }

  lemma NotRequested(st: State, data: Event, delay: int, period: U32)
    ensures !Registered(st, data.receiver) ==> Requested(st, data, delay, period, None) == st
  {
    hide TaskletIds;
  }

  lemma RequestedDue(st: State, data: Event, delay: int, period: U32, spare: Option<Storage>)
    ensures Registered(st, data.receiver) && NextTimer(st, spare).Some? ==> (
      var t, n := Requested(st, data, delay, period, spare), NextTimer(st, spare).value;
      n in t.recs && t.recs[n].due == st.clock + delay && t.clock == st.clock)
  {
    hide Insert, TaskletIds;
  }

  lemma RequestedSteps(st: State, data: Event, delay: int, period: U32, spare: Option<Storage>)
    requires Registered(st, data.receiver)
    ensures Requested(st, data, delay, period, spare) ==
      if NextTimer(st, spare).None? then st
      else
        var n, s := NextTimer(st, spare).value, TakenTimer(st, data, st.clock + delay, period, spare);
        if delay <= 0 then SendTimer(s, n) else AddPending(s, n)
  {
    hide TaskletIds, TakenTimer, SendTimer, AddPending;
  }

  ghost function NextRound(st: State, n: Storage): (t: State)
    requires n in st.recs
    ensures n in t.recs
  {
    var r := st.recs[n];
    Revised(st, n, r.(due := r.due + r.period, runs := r.runs + 1, stamp := None))
  }

  lemma FreedPeriodic(st: State, n: Storage)
    requires n in st.recs && st.recs[n].period > 0
    ensures var s := NextRound(st, n);
      TimerEventFreed(st, n) == if s.recs[n].due <= st.clock then SendTimer(s, n) else AddPending(s, n)
  {
    hide SendTimer, AddPending;
  }

  /** Where each kind of storage goes, for the state as the program sees it. */
  lemma FreePushedCases(st: State, n: Storage)
    requires n in st.recs
    ensures var r := st.recs[n]; var s := Revised(st, n, r.(state := Unqueued));
      FreePushed(Nearest(st, n), n) ==
        match r.allocator
        case StartupPool => s.(eventFree := [n] + st.eventFree)
        case Dynamic => st.(recs := st.recs - {n})
        case Timer => TimerEventFreed(Nearest(s, n), n)
        case User => st
  {
    hide TimerEventFreed, NearestTo;
    var r := st.recs[n];
    if r.allocator == Timer {
      var s := Revised(st, n, r.(state := Unqueued));
      var x := Nearest(st, n);
      assert Revised(x, n, x.recs[n].(state := Unqueued)) == Nearest(s, n);
    }
  }

  lemma EndedNearest(st: State, n: Storage)
    requires st.running == Some(n) && n in st.recs
    ensures Ended(Nearest(st, n)) == FreePushed(Nearest(st.(running := None), n), n)
  {
    hide FreePushed;
  }

  lemma MatchStep(s: seq<Storage>, recs: map<Storage, Rec>, eventId: U8, tasklet: int)
    requires s != []
    ensures FirstMatch(s, recs, eventId, tasklet) ==
      if Matches(recs, s[0], eventId, tasklet) then Some(s[0]) else FirstMatch(s[1..], recs, eventId, tasklet)
  {
  }

  lemma SlotStep(s: seq<Storage>, recs: map<Storage, Rec>, o: Order, key: int, k: nat)
    requires k < |s|
    ensures Slot(s, recs, o, key, k) == if key < Key(recs, o, s[k]) then k else Slot(s, recs, o, key, k + 1)
  {
  }

  lemma {:induction false} SameSlot(s: seq<Storage>, r1: map<Storage, Rec>, r2: map<Storage, Rec>, o: Order, key: int, k: nat)
    requires k <= |s| && forall m | m in s :: Key(r1, o, m) == Key(r2, o, m)
    ensures Slot(s, r1, o, key, k) == Slot(s, r2, o, key, k)
    decreases |s| - k
  {
    if k < |s| {
      SameSlot(s, r1, r2, o, key, k + 1);
    }
  }

  /** Queueing does not depend on the storage's state before. */
  lemma StateIsOverwritten(st: State, n: Storage, r: Rec, state: Progress)
    ensures Write(Revised(st, n, r), n) == Write(Revised(st, n, r.(state := state)), n)
  {
    hide Slot;
    var r1, r2 := st.recs[n := r], st.recs[n := r.(state := state)];
    SameSlot(st.queue, r1, r2, ByPriority, Rank(r.data.priority), 0);
    assert r1[n := r.(state := Queued)] == r2[n := r.(state := Queued)];
  }

  lemma InsertAtIs(s: seq<Storage>, k: nat, n: Storage)
    requires k <= |s|
    ensures InsertAt(s, k, n) == s[..k] + [n] + s[k..]
  {
  }

  lemma SlotEnd(s: seq<Storage>, recs: map<Storage, Rec>, o: Order, key: int)
    ensures Slot(s, recs, o, key, |s|) == |s|
  {
  }
}
