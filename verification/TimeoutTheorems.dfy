/** Timeout objects are freed exactly once and never used afterwards, on every run. */
module TimeoutTheorems {
  import opened Basics
  import opened Ticks
  import opened EventTypes
  import opened EventSpec
  import opened EventInvariants
  import opened EventOrder
  import R = EventRuns
  import opened CancelTheorems
  import E = EventEffects
  import opened TimeoutSpec

  // ---------------------------------------------------------------- what an operation leaves alone

  /** The event in storage `n` is still on its way; if it was periodic, it may have been cancelled. */
  ghost predicate Stays(st: State, t: State, n: Storage) {
    && n in st.recs && n in t.recs && Held(t, n) && t.recs[n].data == st.recs[n].data && t.recs[n].allocator == st.recs[n].allocator
    && (t.recs[n].period == st.recs[n].period || t.recs[n].period == 0)
  }

  /** Apart from storage `m`, the same events are on their way as before. */
  ghost predicate Others(st: State, t: State, m: Option<Storage>) {
    && (forall n | n in st.recs && Some(n) != m && Held(st, n) :: Stays(st, t, n))
    && (forall n | n in t.recs && Some(n) != m && Held(t, n) :: n in st.recs && Held(st, n))
  }

  lemma OthersChain(a: State, b: State, c: State, m: Option<Storage>)
    requires Others(a, b, m) && Others(b, c, m)
    ensures Others(a, c, m)
  {
    hide Held;
    forall n | n in a.recs && Some(n) != m && Held(a, n) ensures Stays(a, c, n) {
      assert Stays(a, b, n) && Stays(b, c, n);
    }
  }

  lemma WriteOthers(st: State, n: Storage)
    requires n in st.recs
    ensures Others(st, Write(st, n), Some(n))
  {
    hide Slot;
  }

  lemma AddPendingOthers(st: State, n: Storage)
    requires n in st.recs
    ensures Others(st, AddPending(st, n), Some(n))
  {
    hide Slot;
  }

  lemma ReviseOthers(st: State, n: Storage, r: Rec)
    ensures Others(st, Revised(st, n, r), Some(n))
  {
  }

  lemma SendTimerOthers(st: State, n: Storage)
    requires n in st.recs
    ensures Others(st, SendTimer(st, n), Some(n))
  {
    hide Write, Others;
    var s := Revised(st, n, st.recs[n].(allocator := Timer));
    ReviseOthers(st, n, st.recs[n].(allocator := Timer));
    WriteOthers(s, n);
    OthersChain(st, s, Write(s, n), Some(n));
  }

  lemma TimerFreedOthers(st: State, n: Storage)
    requires n in st.recs
    ensures Others(st, TimerEventFreed(st, n), Some(n))
  {
    hide SendTimer, AddPending, Held;
    var r := st.recs[n];
    if r.period > 0 {
      var q := r.(due := r.due + r.period, runs := r.runs + 1, stamp := None);
      var s := Revised(st, n, q);
      ReviseOthers(st, n, q);
      SendTimerOthers(s, n);
      AddPendingOthers(s, n);
      OthersChain(st, s, TimerEventFreed(st, n), Some(n));
    } else {
      SameEvents(st, TimerEventFreed(st, n));
    }
  }

  lemma SameEvents(st: State, t: State)
    requires t.recs == st.recs && t.pending == st.pending && t.queue == st.queue && t.running == st.running
    ensures Others(st, t, None) && forall n :: Others(st, t, Some(n))
  {
  }

  lemma FreePushedOthersStay(st: State, n: Storage)
    requires n in st.recs
    ensures Others(st, FreePushed(st, n), Some(n))
  {
    hide TimerEventFreed, Others;
    var r := st.recs[n];
    var s := Revised(st, n, r.(state := Unqueued));
    ReviseOthers(st, n, r.(state := Unqueued));
    match r.allocator
    case StartupPool =>
      SameEvents(s, FreePushed(st, n));
      OthersChain(st, s, FreePushed(st, n), Some(n));
    case Dynamic => ForgottenOthers(st, n);
    case Timer =>
      TimerFreedOthers(s, n);
      OthersChain(st, s, TimerEventFreed(s, n), Some(n));
    case User => SameEvents(st, st);
  }

  lemma ForgottenOthers(st: State, n: Storage)
    ensures Others(st, st.(recs := st.recs - {n}), Some(n))
  {
  }

  /** Taking `m` off lists, or out of the running slot, touches no other event. */
  lemma FewerOthers(st: State, t: State, m: Storage)
    requires t.recs == st.recs
    requires forall n | n != m :: (n in t.pending <==> n in st.pending) && (n in t.queue <==> n in st.queue)
    requires t.running == st.running || (st.running == Some(m) && t.running == None)
    ensures Others(st, t, Some(m))
  {
  }

  lemma EndedOthers(st: State)
    requires st.running.Some? && st.running.value in st.recs
    ensures Others(st, Ended(st), st.running)
  {
    hide FreePushed, Others;
    var n, s := st.running.value, st.(running := None);
    FewerOthers(st, s, n);
    FreePushedOthersStay(s, n);
    OthersChain(st, s, Ended(st), Some(n));
  }

  lemma CancelledOthers(st: State, n: Storage)
    requires n in st.recs
    ensures Others(st, Cancelled(st, n), Some(n))
  {
    hide FreePushed, Others, Minus;
    var r := st.recs[n];
    var s := if r.allocator == Timer then Revised(st, n, r.(period := 0)) else st;
    ReviseOthers(st, n, r.(period := 0));
    SameEvents(st, st);
    if r.state != Running {
      var t := s.(pending := if r.allocator == Timer && r.state == Unqueued then Minus(s.pending, n) else s.pending,
                  queue := if r.state == Queued then Minus(s.queue, n) else s.queue);
      FewerOthers(s, t, n);
      FreePushedOthersStay(t, n);
      OthersChain(st, s, t, Some(n));
      OthersChain(st, t, Cancelled(st, n), Some(n));
    }
  }

  lemma {:induction false} ExpireOthers(st: State)
    requires forall m | m in st.pending :: m in st.recs && st.recs[m].allocator == Timer
    ensures Others(st, Expire(st), None)
    decreases |st.pending|
  {
    hide Others, SendTimer;
    if st.pending != [] && st.recs[st.pending[0]].due <= st.clock {
      var s := st.(pending := st.pending[1..]);
      var t := SendTimer(s, st.pending[0]);
      FirstExpires(st);
      ExpireOthers(t);
      OthersChain(st, t, Expire(t), None);
    } else {
      SameEvents(st, st);
    }
  }

  /** A timer whose time has come moves from one list to the other. */
  lemma FirstExpires(st: State)
    requires st.pending != [] && forall m | m in st.pending :: m in st.recs && st.recs[m].allocator == Timer
    ensures var t := SendTimer(st.(pending := st.pending[1..]), st.pending[0]);
      Others(st, t, None) && t.pending == st.pending[1..] && forall m | m in t.pending :: m in t.recs && t.recs[m].allocator == Timer
  {
    hide Slot;
  }

  lemma BegunOthers(st: State)
    requires st.running.None?
    ensures Others(st, Begun(st), None)
  {
  }

  /** The storage an operation puts an event into, or takes one out of. */
  ghost function Target(st: State, op: R.Op): (m: Option<Storage>) {
    match op
    case Create(_, _, _, spare) => NextEvent(st, spare)
    case Send(_, spare) => NextEvent(st, spare)
    case SendUser(n, _) => Some(n)
    case Request(_, _, _, spare) => NextTimer(st, spare)
    case TickUpdate(_) => None
    case Cancel(n) => Some(n)
    case CancelTimer(eventId, tasklet) => CancelTarget(st, eventId, tasklet)
    case Begin => None
    case End => st.running
  }

  lemma TakenEventOthers(st: State, spare: Option<Storage>)
    requires NextEvent(st, spare).Some? && forall n | n in st.eventFree :: n in st.recs
    ensures Others(st, TakenEvent(st, spare), NextEvent(st, spare))
  {
  }

  lemma PostedOthers(st: State, n: Storage, data: Event)
    requires n in st.recs
    ensures Others(st, Posted(st, n, data), Some(n)) && n in Posted(st, n, data).recs && Posted(st, n, data).recs[n].data == data
    ensures Posted(st, n, data).tasklets == st.tasklets
  {
    hide Others, Insert;
    var s := Revised(st, n, st.recs[n].(data := data));
    ReviseOthers(st, n, st.recs[n].(data := data));
    WriteOthers(s, n);
    OthersChain(st, s, Write(s, n), Some(n));
  }

  lemma SentOthers(st: State, data: Event, spare: Option<Storage>)
    requires forall n | n in st.eventFree :: n in st.recs
    ensures Others(st, Sent(st, data, spare), NextEvent(st, spare)) && Sent(st, data, spare).tasklets == st.tasklets
    ensures Sent(st, data, spare) == st
      || (NextEvent(st, spare).Some? && NextEvent(st, spare).value in Sent(st, data, spare).recs
          && Sent(st, data, spare).recs[NextEvent(st, spare).value].data == data)
  {
    hide Others, TakenEvent, Posted, TaskletIds;
    SameEvents(st, st);
    if Registered(st, data.receiver) && NextEvent(st, spare).Some? {
      var s, n := TakenEvent(st, spare), NextEvent(st, spare).value;
      TakenEventOthers(st, spare);
      TakenEventTasklets(st, spare);
      PostedOthers(s, n, data);
      OthersChain(st, s, Posted(s, n, data), Some(n));
    }
  }

  lemma TakenEventTasklets(st: State, spare: Option<Storage>)
    requires NextEvent(st, spare).Some? && forall n | n in st.eventFree :: n in st.recs
    ensures TakenEvent(st, spare).tasklets == st.tasklets
  {
  }

  lemma CreatedOthers(st: State, handler: nat, initType: U8, memory: bool, spare: Option<Storage>)
    requires (forall n | n in st.eventFree :: n in st.recs) && FreeId(TaskletIds(st.tasklets), 0) < 128
    ensures var t, id := Created(st, handler, initType, memory, spare), FreeId(TaskletIds(st.tasklets), 0);
      && Others(st, t, NextEvent(st, spare))
      && (t == st || (t.tasklets == st.tasklets + [Tasklet(id, handler)] && NextEvent(st, spare).Some?
                      && NextEvent(st, spare).value in t.recs
                      && t.recs[NextEvent(st, spare).value].data == Event(id, 0, initType, 0, 0, Low, 0)))
  {
    hide Others, TakenEvent, Posted, TaskletIds, FreeId;
    SameEvents(st, st);
    if !HandlerKnown(st, handler) && memory && NextEvent(st, spare).Some? {
      var id := FreeId(TaskletIds(st.tasklets), 0);
      var s, n := TakenEvent(st, spare), NextEvent(st, spare).value;
      var t := s.(tasklets := st.tasklets + [Tasklet(id, handler)]);
      var data := Event(id, 0, initType, 0, 0, Low, 0);
      TakenEventOthers(st, spare);
      SameEvents(s, t);
      PostedOthers(t, n, data);
      OthersChain(st, s, t, Some(n));
      OthersChain(st, t, Posted(t, n, data), Some(n));
    }
  }

  lemma TakenTimerOthers(st: State, data: Event, due: int, period: U32, spare: Option<Storage>)
    requires NextTimer(st, spare).Some?
    ensures var n, t := NextTimer(st, spare).value, TakenTimer(st, data, due, period, spare);
      Others(st, t, Some(n)) && t.tasklets == st.tasklets && t.recs[n].data == data && t.recs[n].allocator == Timer
  {
  }

  lemma RequestedOthers(st: State, data: Event, delay: int, period: U32, spare: Option<Storage>)
    ensures var t := Requested(st, data, delay, period, spare);
      && Others(st, t, NextTimer(st, spare)) && t.tasklets == st.tasklets
      && (t == st || (NextTimer(st, spare).Some? && Launched(t, NextTimer(st, spare).value, data)))
    ensures Registered(st, data.receiver) && NextTimer(st, spare).Some? ==>
      Launched(Requested(st, data, delay, period, spare), NextTimer(st, spare).value, data)
  {
    hide Others, TakenTimer, SendTimer, AddPending, TaskletIds, Launched;
    SameEvents(st, st);
    if Registered(st, data.receiver) && NextTimer(st, spare).Some? {
      var n, s := NextTimer(st, spare).value, TakenTimer(st, data, st.clock + delay, period, spare);
      TakenTimerOthers(st, data, st.clock + delay, period, spare);
      SendTimerOthers(s, n);
      AddPendingOthers(s, n);
      Launches(s, n, data);
      OthersChain(st, s, Requested(st, data, delay, period, spare), Some(n));
    }
  }

  /** The timer in storage `n` is on its way, with this data. */
  ghost predicate Launched(t: State, n: Storage, data: Event) {
    n in t.recs && Held(t, n) && t.recs[n].data == data && t.recs[n].allocator == Timer
  }

  lemma Launches(s: State, n: Storage, data: Event)
    requires n in s.recs && s.recs[n].data == data && s.recs[n].allocator == Timer
    ensures Launched(SendTimer(s, n), n, data) && Launched(AddPending(s, n), n, data)
    ensures SendTimer(s, n).tasklets == s.tasklets && AddPending(s, n).tasklets == s.tasklets
  {
    hide Slot;
  }

  lemma StepOthers(st: State, op: R.Op)
    requires R.Inv(st) && R.Allowed(st, op)
    ensures Others(st, R.Step(st, op), Target(st, op))
  {
    hide R.Inv, Others, Created, Sent, Requested, Expire, Cancelled, Begun, Ended, Write, CancelTarget, TaskletIds, FreeId;
    StepFacts(st);
    SameEvents(st, st);
    match op
    case Create(handler, initType, memory, spare) => CreatedOthers(st, handler, initType, memory, spare);
    case Send(data, spare) => SentOthers(st, data, spare);
    case SendUser(n, data) => SentUserOthers(st, n, data);
    case Request(data, delay, period, spare) => RequestedOthers(st, data, delay, period, spare);
    case TickUpdate(ticks) => TickedOthers(st, ticks);
    case Cancel(n) => CancelledOthers(st, n);
    case CancelTimer(eventId, tasklet) =>
      var m := CancelTarget(st, eventId, tasklet);
      if m.Some? { CancelledOthers(st, m.value); }
    case Begin => BegunOthers(st);
    case End => EndedOthers(st);
  }

  lemma StepFacts(st: State)
    requires R.Inv(st)
    ensures forall n | n in st.eventFree :: n in st.recs
    ensures forall n | n in st.pending :: n in st.recs && st.recs[n].allocator == Timer
    ensures st.running.Some? ==> st.running.value in st.recs
  {
    hide Ordered, Contents, TaskletsOk, Placed;
    PendingTimers(st);
  }

  lemma SentUserOthers(st: State, n: Storage, data: Event)
    ensures Others(st, SentUser(st, n, data), Some(n))
  {
    hide Others, Write;
    var r := Rec(data, User, Unqueued, 0, 0, 0, 0, None);
    ReviseOthers(st, n, r);
    WriteOthers(Revised(st, n, r), n);
    OthersChain(st, Revised(st, n, r), SentUser(st, n, data), Some(n));
  }

  lemma TickedOthers(st: State, ticks: nat)
    requires forall m | m in st.pending :: m in st.recs && st.recs[m].allocator == Timer
    ensures Others(st, Ticked(st, ticks), None)
  {
    hide Others, Expire;
    var s := st.(clock := st.clock + ticks);
    SameEvents(st, s);
    ExpireOthers(s);
    OthersChain(st, s, Expire(s), None);
  }

  // ---------------------------------------------------------------- objects and events stay matched

  /** Operations on events that carry no timeout leave objects and events matched. */
  lemma MatchedKept(w: World, t: State, m: Option<Storage>)
    requires Matched(w) && Others(w.st, t, m) && (w.tasklet != -1 ==> Registered(t, w.tasklet))
    requires m.Some? ==> !Carries(w.st, w.tasklet, m.value) && !Carries(t, w.tasklet, m.value)
    ensures Matched(w.(st := t))
  {
    hide TaskletIds, Held;
    var v := w.(st := t);
    forall a | a in w.heap ensures a != 0 && Backed(v, a) {
      assert Backed(w, a) && Stays(w.st, t, w.heap[a].event);
    }
    forall n | n in t.recs && Carries(t, w.tasklet, n) ensures Pointed(v, n) {
      assert Stays(w.st, t, n);
      assert Pointed(w, n);
    }
  }

  /** What carries a timeout is a timer's storage, and is live. */
  lemma CarriersAreTimers(w: World, n: Storage)
    requires Sound(w) && Carries(w.st, w.tasklet, n)
    ensures w.st.recs[n].allocator == Timer && n in w.st.timers && Live(w.st, n) && Pointed(w, n)
    ensures w.st.recs[n].state == Running <==> w.st.running == Some(n)
  {
    hide Ordered, Contents, TaskletsOk, Pointed;
    assert Pointed(w, n);
    PointedIsBacked(w, n);
    assert Placed(w.st, n);
  }

  lemma PointedIsBacked(w: World, n: Storage)
    requires Matched(w) && n in w.st.recs && Pointed(w, n)
    ensures var a := w.st.recs[n].data.dataPtr; a in w.heap && Backed(w, a) && w.heap[a].event == n
  {
  }

  /** Storages on free lists, and new ones, carry nothing. */
  lemma FreeCarryNothing(st: State, n: Storage)
    requires Owned(st, None) && (n in st.eventFree || n in st.timerFree || n !in st.recs)
    ensures !Held(st, n)
  {
    if n in st.recs {
      assert Placed(st, n);
    }
  }

  /** Receivers of events on their way are registered. */
  lemma HeldIsRegistered(st: State, n: Storage)
    requires R.Inv(st) && n in st.recs && Held(st, n)
    ensures st.recs[n].data.receiver in TaskletIds(st.tasklets) && 0 <= st.recs[n].data.receiver < 128
  {
    hide Owned, Ordered, TaskletIds;
    if n in st.pending {
      assert Waiting(st, n, st.clock);
    } else {
      assert Fired(st, n);
    }
  }

  lemma TaskletsGrow(st: State, op: R.Op, id: int)
    requires R.Inv(st) && R.Allowed(st, op) && Registered(st, id)
    ensures Registered(R.Step(st, op), id)
  {
    hide R.Inv, FreePushed, Insert, Minus, TaskletIds, FreeId, CancelTarget, Cancelled, Created, Requested, Sent, Expire;
    match op
    case Create(handler, initType, memory, spare) =>
      StepFacts(st);
      CreatedOthers(st, handler, initType, memory, spare);
      MoreIds(st.tasklets, Tasklet(FreeId(TaskletIds(st.tasklets), 0), handler), id);
    case Send(data, spare) => StepFacts(st); SentOthers(st, data, spare);
    case Request(data, delay, period, spare) => RequestedOthers(st, data, delay, period, spare);
    case TickUpdate(ticks) => StepFacts(st); ExpireTasklets(st.(clock := st.clock + ticks));
    case Cancel(n) => CancelledTasklets(st, n);
    case CancelTimer(eventId, tasklet) =>
      if CancelTarget(st, eventId, tasklet).Some? { CancelledTasklets(st, CancelTarget(st, eventId, tasklet).value); }
    case End => StepFacts(st); FreePushedTasklets(st.(running := None), st.running.value);
    case _ =>
  }

  lemma MoreIds(tasklets: seq<Tasklet>, t: Tasklet, id: int)
    requires id in TaskletIds(tasklets)
    ensures id in TaskletIds(tasklets + [t])
  {
    hide TaskletIds;
    var k :| 0 <= k < |tasklets| && TaskletIds(tasklets)[k] == id;
    assert TaskletIds(tasklets + [t])[k] == (tasklets + [t])[k].id == tasklets[k].id;
  }

  lemma {:induction false} ExpireTasklets(st: State)
    requires forall m | m in st.pending :: m in st.recs && st.recs[m].allocator == Timer
    ensures Expire(st).tasklets == st.tasklets
    decreases |st.pending|
  {
    hide Insert;
    if st.pending != [] && st.recs[st.pending[0]].due <= st.clock {
      ExpireTasklets(SendTimer(st.(pending := st.pending[1..]), st.pending[0]));
    }
  }

  lemma FreePushedTasklets(st: State, n: Storage)
    requires n in st.recs
    ensures FreePushed(st, n).tasklets == st.tasklets
    ensures n in FreePushed(st, n).recs ==> FreePushed(st, n).recs[n].data == st.recs[n].data
  {
    hide Insert;
  }

  lemma CancelledTasklets(st: State, n: Storage)
    requires n in st.recs
    ensures Cancelled(st, n).tasklets == st.tasklets
    ensures n in Cancelled(st, n).recs ==> Cancelled(st, n).recs[n].data == st.recs[n].data
  {
    hide FreePushed, Minus;
    var r := st.recs[n];
    var s := if r.allocator == Timer then Revised(st, n, r.(period := 0)) else st;
    if r.state != Running {
      FreePushedTasklets(s.(pending := if r.allocator == Timer && r.state == Unqueued then Minus(s.pending, n) else s.pending,
                            queue := if r.state == Queued then Minus(s.queue, n) else s.queue), n);
    }
  }

  lemma TargetBefore(w: World, op: R.Op, m: Storage)
    requires Sound(w) && Allowed(w, Other(op)) && op != R.End && Target(w.st, op) == Some(m)
    ensures !Carries(w.st, w.tasklet, m)
  {
    hide Ordered, Contents, TaskletsOk, Placed, Held, FirstMatch, TaskletIds, FreeId, Matched, Balanced;
    if Carries(w.st, w.tasklet, m) {
      match op
      case Create(_, _, _, _) => FreeCarryNothing(w.st, m);
      case Send(_, _) => FreeCarryNothing(w.st, m);
      case Request(_, _, _, _) => FreeCarryNothing(w.st, m);
      case SendUser(_, _) => CarriersAreTimers(w, m);
      case CancelTimer(eventId, tasklet) => TargetMatches(w, eventId, tasklet);
      case _ =>
    }
  }

  /** Cancelling by id finds an event for the receiver named. */
  lemma TargetMatches(w: World, eventId: U8, tasklet: I8)
    requires R.Inv(w.st) && CancelTarget(w.st, eventId, tasklet).Some?
    ensures var m := CancelTarget(w.st, eventId, tasklet).value;
      m in w.st.recs && w.st.recs[m].data.receiver == tasklet
  {
    hide R.Inv, FirstMatch, TaskletIds;
    FirstMatchFinds(w.st.pending, w.st.recs, eventId, tasklet);
    FirstMatchFinds(w.st.queue, w.st.recs, eventId, tasklet % 0x100);
    HeldIsRegistered(w.st, CancelTarget(w.st, eventId, tasklet).value);
  }

  lemma TargetAfter(w: World, op: R.Op, m: Storage)
    requires Sound(w) && Allowed(w, Other(op)) && op != R.End && Target(w.st, op) == Some(m)
    ensures !Carries(R.Step(w.st, op), w.tasklet, m)
  {
    hide R.Inv, Matched, Balanced, Others, FirstMatch, TaskletIds, FreeId, Created, Sent, Requested, Cancelled, Insert, CancelTarget;
    StepFacts(w.st);
    TargetBefore(w, op, m);
    match op
    case Create(handler, initType, memory, spare) => CreatedCarriesNothing(w, handler, initType, memory, spare);
    case Send(data, spare) => SentOthers(w.st, data, spare);
    case Request(data, delay, period, spare) => RequestedOthers(w.st, data, delay, period, spare);
    case SendUser(_, _) =>
    case Cancel(_) => CancelledCarriesNothing(w, m);
    case CancelTimer(_, _) => CancelledCarriesNothing(w, m);
  }

  lemma CreatedCarriesNothing(w: World, handler: nat, initType: U8, memory: bool, spare: Option<Storage>)
    requires Sound(w) && FreeId(TaskletIds(w.st.tasklets), 0) < 128 && NextEvent(w.st, spare).Some?
    requires !Carries(w.st, w.tasklet, NextEvent(w.st, spare).value)
    ensures !Carries(Created(w.st, handler, initType, memory, spare), w.tasklet, NextEvent(w.st, spare).value)
  {
    hide R.Inv, Balanced, Others, TaskletIds, FreeId, Created, Held;
    StepFacts(w.st);
    CreatedOthers(w.st, handler, initType, memory, spare);
  }

  lemma CancelledCarriesNothing(w: World, m: Storage)
    requires R.Inv(w.st) && Live(w.st, m) && !Carries(w.st, w.tasklet, m)
    ensures !Carries(Cancelled(w.st, m), w.tasklet, m)
  {
    hide R.Inv, Cancelled;
    CancelRetires(w.st, m) by { OwnedNow(w.st); }
    CancelledTasklets(w.st, m);
  }

  lemma OwnedNow(st: State)
    requires R.Inv(st)
    ensures Owned(st, None)
  {
  }

  lemma OtherSound(w: World, op: R.Op)
    requires Sound(w) && Allowed(w, Other(op)) && op != R.End
    ensures Sound(w.(st := R.Step(w.st, op)))
  {
    hide R.Inv, Matched, Others, R.Step, Target, R.Allowed, TaskletIds, FreeId;
    AllowedThere(w, op);
    OwnedNow(w.st);
    R.StepInv(w.st, op);
    StepOthers(w.st, op);
    var m := Target(w.st, op);
    if m.Some? {
      TargetBefore(w, op, m.value);
      TargetAfter(w, op, m.value);
    }
    if w.tasklet != -1 {
      TaskletsGrow(w.st, op, w.tasklet) by { TaskletThere(w); }
    }
    MatchedKept(w, R.Step(w.st, op), m);
  }

  lemma AllowedThere(w: World, op: R.Op)
    requires Allowed(w, Other(op))
    ensures R.Allowed(w.st, op)
  {
  }

  lemma TaskletThere(w: World)
    requires Matched(w) && w.tasklet != -1
    ensures Registered(w.st, w.tasklet)
  {
  }

  // ---------------------------------------------------------------- the three operations on timeouts

  /** When object `a` is freed because its event is on its way no longer, the others stay matched. */
  lemma MatchedFreed(w: World, t: State, a: nat)
    requires Matched(w) && a in w.heap && w.heap[a].event in w.st.recs && Others(w.st, t, Some(w.heap[a].event))
    requires !Held(t, w.heap[a].event) && (w.tasklet != -1 ==> Registered(t, w.tasklet))
    ensures Matched(Freed(w.(st := t), a))
  {
    hide TaskletIds, Held;
    var v := Freed(w.(st := t), a);
    assert Backed(w, a);
    forall b | b in v.heap ensures b != 0 && Backed(v, b) {
      assert Backed(w, b) && Stays(w.st, t, w.heap[b].event);
    }
    forall n | n in t.recs && Carries(t, w.tasklet, n) ensures Pointed(v, n) {
      assert Stays(w.st, t, n);
      assert Pointed(w, n);
    }
  }

  /** When the event of object `a` is still on its way, all stay matched. */
  lemma MatchedStill(w: World, t: State, a: nat)
    requires Matched(w) && a in w.heap && w.heap[a].event in w.st.recs && Others(w.st, t, Some(w.heap[a].event))
    requires Stays(w.st, t, w.heap[a].event) && (w.tasklet != -1 ==> Registered(t, w.tasklet))
    ensures Matched(w.(st := t))
  {
    hide TaskletIds, Held;
    var v := w.(st := t);
    forall b | b in w.heap ensures b != 0 && Backed(v, b) {
      assert Backed(w, b) && (b == a || Stays(w.st, t, w.heap[b].event));
    }
    forall n | n in t.recs && Carries(t, w.tasklet, n) ensures Pointed(v, n) {
      assert Stays(w.st, t, n);
      assert Pointed(w, n);
    }
  }

  lemma CancelledTimer(st: State, n: Storage)
    requires Owned(st, None) && Live(st, n) && st.recs[n].allocator == Timer
    ensures var t := Cancelled(st, n);
      n in t.recs && if st.recs[n].state == Running then t.recs[n].state == Running && Stays(st, t, n) && t.recs[n].period == 0
                     else t.recs[n].state == Unqueued && !Held(t, n)
  {
    hide FreePushed, Owned;
    CancelRetires(st, n);
    CancelledCases(st, n);
    var r := st.recs[n];
    if r.state != Running {
      OverRuns(st, n);
      var s := Revised(st, n, r.(period := 0));
      var t := s.(pending := if r.state == Unqueued then Minus(s.pending, n) else s.pending,
                  queue := if r.state == Queued then Minus(s.queue, n) else s.queue);
      FreedTimer(t, n);
    }
  }

  lemma FreedTimer(st: State, n: Storage)
    requires n in st.recs && st.recs[n].allocator == Timer && st.recs[n].period == 0
    ensures n in FreePushed(st, n).recs && FreePushed(st, n).recs[n].state == Unqueued
  {
  }

  /** Cancelling frees the object at once, unless its callback is running; then it has no period left. */
  lemma CancelledSound(w: World, a: nat)
    requires Sound(w) && a in w.heap
    ensures w.heap[a].event in w.st.recs && Sound(TimeoutCancelled(w, a))
    ensures var n, v := w.heap[a].event, TimeoutCancelled(w, a);
      if w.st.running == Some(n) then v.heap == w.heap && v.freed == w.freed && n in v.st.recs && v.st.recs[n].period == 0
      else v.heap == w.heap - {a} && v.freed == w.freed + multiset{a}
  {
    hide R.Inv, Matched, Others, Cancelled, Owned, TaskletIds, Held;
    OwnedNow(w.st);
    var n := w.heap[a].event;
    BackedCarries(w, a);
    CarriersAreTimers(w, n);
    CancelledTimer(w.st, n);
    CancelledOthers(w.st, n);
    CancelledTasklets(w.st, n);
    R.CancelledInv(w.st, n);
    if w.tasklet != -1 { TaskletThere(w); }
    if w.st.recs[n].state == Running {
      MatchedStill(w, Cancelled(w.st, n), a);
    } else {
      MatchedFreed(w, Cancelled(w.st, n), a);
    }
  }

  lemma BackedCarries(w: World, a: nat)
    requires Matched(w) && a in w.heap
    ensures Carries(w.st, w.tasklet, w.heap[a].event) && w.st.recs[w.heap[a].event].data.dataPtr == a && a != 0
  {
    assert Backed(w, a);
  }

  lemma EndedTimer(st: State, n: Storage)
    requires Owned(st, None) && st.running == Some(n) && n in st.recs && st.recs[n].allocator == Timer
    ensures if st.recs[n].period == 0 then !Held(Ended(st), n) && n in Ended(st).timerFree else Stays(st, Ended(st), n)
    ensures Ended(st).tasklets == st.tasklets
  {
    hide Slot;
    assert Placed(st, n);
  }

  /** When the handler returns, a one-shot or cancelled timeout's object is freed, and its struct with it. */
  lemma ReturnedSound(w: World)
    requires Sound(w) && w.st.running.Some? && w.st.running.value in w.st.recs
    requires var d := w.st.recs[w.st.running.value].data; d.receiver == w.tasklet && d.eventType == TIMER_EVENT ==>
      d.dataPtr in w.heap && w.heap[d.dataPtr].event in w.st.recs
    ensures Sound(Returned(w))
    ensures var n := w.st.running.value; Carries(w.st, w.tasklet, n) ==>
      var a := w.st.recs[n].data.dataPtr;
      if w.st.recs[n].period == 0
      then a in w.heap && Returned(w).heap == w.heap - {a} && Returned(w).freed == w.freed + multiset{a} && n in Returned(w).st.timerFree
      else Returned(w).heap == w.heap && Returned(w).freed == w.freed
    ensures !Carries(w.st, w.tasklet, w.st.running.value) ==> Returned(w).heap == w.heap && Returned(w).freed == w.freed
  {
    hide R.Inv, Matched, Others, Ended, Owned, TaskletIds, Pointed;
    OwnedNow(w.st);
    var n := w.st.running.value;
    R.EndedInv(w.st);
    EndedOthers(w.st);
    EndedKeepsTasklets(w.st);
    if w.tasklet != -1 { TaskletThere(w); }
    if Carries(w.st, w.tasklet, n) {
      CarriersAreTimers(w, n);
      PointedIsBacked(w, n);
      EndedTimer(w.st, n);
      if w.st.recs[n].period == 0 {
        MatchedFreed(w, Ended(w.st), w.st.recs[n].data.dataPtr);
      } else {
        MatchedStill(w, Ended(w.st), w.st.recs[n].data.dataPtr);
      }
    } else {
      MatchedKept(w, Ended(w.st), Some(n));
    }
  }

  lemma EndedKeepsTasklets(st: State)
    requires st.running.Some? && st.running.value in st.recs
    ensures Ended(st).tasklets == st.tasklets
    ensures var n := st.running.value; n in Ended(st).recs ==> Ended(st).recs[n].data == st.recs[n].data
  {
    hide FreePushed;
    FreePushedTasklets(st.(running := None), st.running.value);
  }

  // ---------------------------------------------------------------- requesting

  /** Before there is a timeout tasklet there are no timeouts. */
  lemma NoTaskletNoTimeouts(w: World)
    requires Sound(w) && w.tasklet == -1
    ensures w.heap == map[]
  {
    hide R.Inv, TaskletIds, Held, Balanced, Matched;
    forall a ensures a !in w.heap {
      if a in w.heap {
        BackedCarries(w, a);
        HeldIsRegistered(w.st, w.heap[a].event);
      }
    }
    NoKeys(w.heap);
  }

  lemma CreatedDomain(st: State, handler: nat, initType: U8, memory: bool, spare: Option<Storage>)
    requires (forall n | n in st.eventFree :: n in st.recs) && FreeId(TaskletIds(st.tasklets), 0) < 128
    ensures forall n | n in Created(st, handler, initType, memory, spare).recs :: n in st.recs || spare == Some(n)
  {
    hide TaskletIds, FreeId, Insert;
  }

  /** A new tasklet's id is nobody's receiver yet, and its first event is no timeout's. */
  lemma NewTaskletCarriesNothing(st: State, m: Memory, n: Storage)
    requires R.Inv(st) && FreeId(TaskletIds(st.tasklets), 0) < 128 && forall n | n in st.eventFree :: n in st.recs
    ensures !Carries(Created(st, TIMEOUT_TASKLET, STARTUP_EVENT, m.tasklet, m.event), FreeId(TaskletIds(st.tasklets), 0), n)
  {
    hide R.Inv, TaskletIds, FreeId, Created, Held;
    var t, id := Created(st, TIMEOUT_TASKLET, STARTUP_EVENT, m.tasklet, m.event), FreeId(TaskletIds(st.tasklets), 0);
    CreatedOthers(st, TIMEOUT_TASKLET, STARTUP_EVENT, m.tasklet, m.event);
    if Carries(t, id, n) && (NextEvent(st, m.event) != Some(n) || t == st) {
      assert Held(st, n) && n in st.recs && (t == st || Stays(st, t, n));
      HeldIsRegistered(st, n);
    }
  }

  /** With the tasklet there, created just now or before, and no timeout requested yet. */
  lemma TaskletReady(w: World, m: Memory)
    requires Sound(w) && New(w.st, m.event) && (w.tasklet == -1 ==> FreeId(TaskletIds(w.st.tasklets), 0) < 128)
    requires forall n | n in w.st.eventFree :: n in w.st.recs
    ensures var (s, id) := WithTasklet(w, m);
      R.Inv(s) && Matched(w.(st := s, tasklet := id)) && forall n | n in s.recs :: n in w.st.recs || m.event == Some(n)
  {
    hide R.Inv, Others, Created, TaskletIds, FreeId, Held, HandlerKnown;
    if w.tasklet == -1 {
      var s := Created(w.st, TIMEOUT_TASKLET, STARTUP_EVENT, m.tasklet, m.event);
      NoTaskletNoTimeouts(w);
      R.CreatedInv(w.st, TIMEOUT_TASKLET, STARTUP_EVENT, m.tasklet, m.event);
      CreatedDomain(w.st, TIMEOUT_TASKLET, STARTUP_EVENT, m.tasklet, m.event);
      if WithTasklet(w, m).1 >= 0 {
        NewIdRegistered(w.st, m);
        forall n ensures !Carries(s, FreeId(TaskletIds(w.st.tasklets), 0), n) {
          NewTaskletCarriesNothing(w.st, m, n);
        }
      } else {
        NotCreated(w.st, m);
      }
    }
  }

  lemma NewIdRegistered(st: State, m: Memory)
    requires (forall n | n in st.eventFree :: n in st.recs) && FreeId(TaskletIds(st.tasklets), 0) < 128
    requires !HandlerKnown(st, TIMEOUT_TASKLET) && m.tasklet && NextEvent(st, m.event).Some?
    ensures Registered(Created(st, TIMEOUT_TASKLET, STARTUP_EVENT, m.tasklet, m.event), FreeId(TaskletIds(st.tasklets), 0))
  {
    hide TaskletIds, FreeId, Posted, TakenEvent;
    var id := FreeId(TaskletIds(st.tasklets), 0);
    var tasklets := st.tasklets + [Tasklet(id, TIMEOUT_TASKLET)];
    TakenEventTasklets(st, m.event);
    PostedOthers(TakenEvent(st, m.event).(tasklets := tasklets), NextEvent(st, m.event).value, Event(id, 0, STARTUP_EVENT, 0, 0, Low, 0));
    assert TaskletIds(tasklets)[|st.tasklets|] == id;
  }

  lemma NotCreated(st: State, m: Memory)
    requires (forall n | n in st.eventFree :: n in st.recs) && FreeId(TaskletIds(st.tasklets), 0) < 128
    requires HandlerKnown(st, TIMEOUT_TASKLET) || !m.tasklet || NextEvent(st, m.event).None?
    ensures Created(st, TIMEOUT_TASKLET, STARTUP_EVENT, m.tasklet, m.event) == st
  {
  }

  /** The event just requested and its object match. */
  lemma MatchedNew(w: World, t: State, n: Storage, a: nat, x: Timeout)
    requires Matched(w) && Others(w.st, t, Some(n)) && !Held(w.st, n) && a !in w.heap && a != 0 && x.event == n
    requires w.tasklet >= 0 && Launched(t, n, Event(w.tasklet, w.tasklet, TIMER_EVENT, TIMER_EVENT, a, High, 0))
    requires t.tasklets == w.st.tasklets
    ensures Matched(w.(st := t, heap := w.heap[a := x]))
  {
    hide TaskletIds, Held;
    var v := w.(st := t, heap := w.heap[a := x]);
    forall b | b in v.heap ensures b != 0 && Backed(v, b) {
      if b != a {
        assert Backed(w, b);
        assert Stays(w.st, t, w.heap[b].event);
      }
    }
    forall m | m in t.recs && Carries(t, w.tasklet, m) ensures Pointed(v, m) {
      if m != n {
        assert Stays(w.st, t, m);
        assert Pointed(w, m);
      }
    }
  }

  lemma EventRequestedSound(w: World, a: nat, at: U32, period: U32, spare: Option<Storage>, x: Timeout)
    requires R.Inv(w.st) && Matched(w) && 0 <= w.tasklet < 128 && a !in w.heap && a != 0 && period < HALF_32
    requires New(w.st, spare) && NextTimer(w.st, spare) == Some(x.event)
    ensures var t := EventRequested(w.st, w.tasklet, a, at, period, spare);
      R.Inv(t) && Matched(w.(st := t, heap := w.heap[a := x]))
  {
    hide R.Inv, Matched, Others, Requested, TaskletIds, Launched, Low32, Held;
    var data := Event(w.tasklet, w.tasklet, TIMER_EVENT, TIMER_EVENT, a, High, 0);
    var delay := if period > 0 then period else Delay(w.st, at);
    RequestedOthers(w.st, data, delay, period, spare);
    R.RequestedInv(w.st, data, delay, period, spare);
    TaskletThere(w);
    OwnedNow(w.st);
    FreeCarryNothing(w.st, x.event) by { TimerIsFree(w.st, spare); }
    MatchedNew(w, Requested(w.st, data, delay, period, spare), x.event, a, x);
  }

  lemma TimerIsFree(st: State, spare: Option<Storage>)
    requires New(st, spare) && NextTimer(st, spare).Some?
    ensures var n := NextTimer(st, spare).value; n in st.timerFree || n !in st.recs
  {
  }

  lemma TaskletSmall(w: World)
    requires Matched(w)
    ensures -1 <= w.tasklet < 128
  {
  }

  /** Matching says nothing of what has been given out and freed. */
  lemma SameMatched(w: World, v: World)
    requires Matched(w) && v == w.(given := v.given, freed := v.freed)
    ensures Matched(v)
  {
    hide TaskletIds, Carries;
    forall a | a in v.heap ensures a != 0 && Backed(v, a) {
      assert Backed(w, a);
    }
    forall n | n in v.st.recs && Carries(v.st, v.tasklet, n) ensures Pointed(v, n) {
      assert Pointed(w, n);
    }
  }

  lemma RequestedSound(w: World, op: Op)
    requires Sound(w) && op.Request? && Allowed(w, op) && -1 <= w.tasklet < 128 && forall n | n in w.st.eventFree :: n in w.st.recs
    ensures Sound(TimeoutRequested(w, op))
  {
    hide R.Inv, Matched, WithTasklet, EventRequested, TaskletIds, FreeId;
    var m := op.memory;
    if m.address.Some? {
      var (s, id) := WithTasklet(w, m);
      TaskletReady(w, m);
      if id >= 0 && NextTimer(s, m.timer).Some? {
        var x := Timeout(op.callback, op.arg, NextTimer(s, m.timer).value);
        var a := m.address.value;
        TaskletSmall(w.(st := s, tasklet := id));
        EventRequestedSound(w.(st := s, tasklet := id), a, op.at, op.period, m.timer, x);
        SameMatched(w.(st := EventRequested(s, id, a, op.at, op.period, m.timer), tasklet := id, heap := w.heap[a := x]), TimeoutRequested(w, op));
      } else {
        SameMatched(w.(st := s, tasklet := id), TimeoutRequested(w, op));
      }
    }
  }

  // ---------------------------------------------------------------- runs

  lemma StepSound(w: World, op: Op)
    requires Sound(w)
    ensures Sound(Step(w, op))
  {
    hide R.Inv, TimeoutRequested, TimeoutCancelled, Returned, Backed, Carries, Balanced, TaskletIds, FreeId, R.Step;
    SoundFacts(w);
    if Allowed(w, op) {
      match op
      case Request(_, _, _, _, _) => RequestedSound(w, op);
      case CancelTimeout(a) => if a != 0 { CancelledSound(w, a); }
      case Other(End) => RunningPoints(w); ReturnedSound(w);
      case Other(o) => OtherSound(w, o);
    }
  }

  ghost function Run(w: World, ops: seq<Op>): (v: World)
    requires Sound(w)
    ensures Sound(v)
    decreases |ops|
  {
    if ops == [] then w else StepSound(w, ops[0]); Run(Step(w, ops[0]), ops[1..])
  }

  /** Startup, as far as timeouts are concerned. */
  ghost predicate Untouched(w: World) {
    R.Inv(w.st) && w.heap == map[] && w.tasklet == -1 && w.given == multiset{} && w.freed == multiset{}
  }

  lemma UntouchedSound(w: World)
    requires Untouched(w)
    ensures Sound(w)
  {
    hide R.Inv, TaskletIds, Held;
    forall n | n in w.st.recs && Held(w.st, n) ensures 0 <= w.st.recs[n].data.receiver {
      HeldIsRegistered(w.st, n);
    }
  }

  /**
   On every run, whatever timeouts expire, are cancelled while pending or queued, or cancel
   themselves from their callback: each object given out is freed exactly once or still has a
   timer event on its way, and each such event has its object. When none is on its way, all are freed.
   */
  lemma FreedExactlyOnce(w: World, ops: seq<Op>)
    requires Untouched(w)
    ensures Sound(w)
    ensures var v := Run(w, ops);
      && (forall a: nat :: v.given[a] == v.freed[a] + if a in v.heap then 1 else 0)
      && (forall a | a in v.heap :: v.heap[a].event in v.st.recs && Carries(v.st, v.tasklet, v.heap[a].event)
                                    && v.st.recs[v.heap[a].event].data.dataPtr == a)
      && (forall a, b | a in v.heap && b in v.heap && a != b :: v.heap[a].event != v.heap[b].event)
      && (forall n | n in v.st.recs && Carries(v.st, v.tasklet, n) ::
            v.st.recs[n].data.dataPtr in v.heap && v.heap[v.st.recs[n].data.dataPtr].event == n)
      && ((forall n | n in v.st.recs :: !Carries(v.st, v.tasklet, n)) ==> v.heap == map[] && v.given == v.freed)
  {
    hide R.Inv, Held, TaskletIds, Run;
    UntouchedSound(w);
    var v := Run(w, ops);
    forall a | a in v.heap
      ensures v.heap[a].event in v.st.recs && Carries(v.st, v.tasklet, v.heap[a].event) && v.st.recs[v.heap[a].event].data.dataPtr == a
    {
      assert Backed(v, a);
    }
    forall n | n in v.st.recs && Carries(v.st, v.tasklet, n)
      ensures v.st.recs[n].data.dataPtr in v.heap && v.heap[v.st.recs[n].data.dataPtr].event == n
    {
      assert Pointed(v, n);
    }
    if forall n | n in v.st.recs :: !Carries(v.st, v.tasklet, n) {
      AllFreed(v);
    }
  }

  lemma AllFreed(w: World)
    requires Matched(w) && Balanced(w) && forall n | n in w.st.recs :: !Carries(w.st, w.tasklet, n)
    ensures w.heap == map[] && w.given == w.freed
  {
    hide Held, TaskletIds;
    forall a ensures a !in w.heap {
      assert a in w.heap ==> Backed(w, a);
    }
    NoKeys(w.heap);
    assert forall a: nat :: w.given[a] == w.freed[a];
  }

  // ---------------------------------------------------------------- cancelling from the callback

  /** The callback of object `a` is running, and its timer will not be armed again. */
  ghost predicate LastCall(w: World, a: nat) {
    && a in w.heap && w.st.running == Some(w.heap[a].event) && w.heap[a].event in w.st.recs
    && w.st.recs[w.heap[a].event].period == 0
  }

  lemma RunningStays(st: State, op: R.Op)
    requires R.Inv(st) && R.Allowed(st, op) && op != R.Begin && op != R.End
    ensures R.Step(st, op).running == st.running
  {
    hide R.Inv, FreePushed, Insert, Minus, TaskletIds, FreeId, CancelTarget, Cancelled, Created, Requested, Sent, Expire;
    OwnedNow(st);
    StepFacts(st);
    match op
    case Create(handler, initType, memory, spare) => CreatedRunning(st, handler, initType, memory, spare);
    case Send(data, spare) => SentRunning(st, data, spare);
    case Request(data, delay, period, spare) => RequestedRunning(st, data, delay, period, spare);
    case TickUpdate(ticks) => ExpireAdds(st.(clock := st.clock + ticks));
    case Cancel(n) => CancelRetires(st, n);
    case CancelTimer(eventId, tasklet) =>
      if CancelTarget(st, eventId, tasklet).Some? { CancelRetires(st, CancelTarget(st, eventId, tasklet).value); }
    case SendUser(_, _) =>
  }

  lemma CreatedRunning(st: State, handler: nat, initType: U8, memory: bool, spare: Option<Storage>)
    requires (forall n | n in st.eventFree :: n in st.recs) && FreeId(TaskletIds(st.tasklets), 0) < 128
    ensures Created(st, handler, initType, memory, spare).running == st.running
  {
    hide Insert, TaskletIds, FreeId;
  }

  lemma SentRunning(st: State, data: Event, spare: Option<Storage>)
    requires forall n | n in st.eventFree :: n in st.recs
    ensures Sent(st, data, spare).running == st.running
  {
    hide Insert, TaskletIds;
  }

  lemma RequestedRunning(st: State, data: Event, delay: int, period: U32, spare: Option<Storage>)
    ensures Requested(st, data, delay, period, spare).running == st.running
  {
    hide Insert, TaskletIds;
  }

  /** Until the callback returns, nothing else frees its object. */
  lemma StepKeepsLastCall(w: World, op: Op, a: nat)
    requires Sound(w) && LastCall(w, a) && op != Other(R.End)
    ensures LastCall(Step(w, op), a) && Step(w, op).heap[a] == w.heap[a]
  {
    hide R.Inv, Matched, Others, TaskletIds, FreeId, R.Step, R.Allowed, TimeoutRequested, TimeoutCancelled, Held, Balanced;
    SoundFacts(w);
    if Allowed(w, op) {
      match op
      case Request(_, _, _, _, _) => TaskletSmall(w); RequestKeepsLastCall(w, op, a);
      case CancelTimeout(b) => if b != 0 { CancelKeepsLastCall(w, b, a); }
      case Other(o) => OtherKeepsLastCall(w, o, a);
    }
  }

  lemma OtherKeepsLastCall(w: World, op: R.Op, a: nat)
    requires Sound(w) && LastCall(w, a) && Allowed(w, Other(op)) && op != R.End
    ensures Owned(w.st, None) && LastCall(w.(st := R.Step(w.st, op)), a)
  {
    hide R.Inv, Matched, TaskletIds, FreeId, R.Step, Target, Held, Balanced, Carries, R.Allowed;
    OwnedNow(w.st);
    AllowedThere(w, op);
    BeginNeedsNone(w, op);
    BackedCarries(w, a);
    var n := w.heap[a].event;
    CarriersAreTimers(w, n);
    StepOthers(w.st, op);
    if Target(w.st, op) == Some(n) {
      TargetBefore(w, op, n);
    }
    RunningStays(w.st, op);
    HeldWhenRunning(w.st, n);
    assert Stays(w.st, R.Step(w.st, op), n);
  }

  lemma BeginNeedsNone(w: World, op: R.Op)
    requires R.Allowed(w.st, op) && w.st.running.Some?
    ensures op != R.Begin
  {
  }

  lemma HeldWhenRunning(st: State, n: Storage)
    ensures st.running == Some(n) ==> Held(st, n)
  {
  }

  lemma CancelKeepsLastCall(w: World, b: nat, a: nat)
    requires Sound(w) && LastCall(w, a) && b in w.heap && w.heap[b].event in w.st.recs
    ensures LastCall(TimeoutCancelled(w, b), a) && TimeoutCancelled(w, b).heap[a] == w.heap[a]
  {
    hide R.Inv, Matched, Others, TaskletIds, Cancelled, Held, Balanced, Owned, Carries;
    OwnedNow(w.st);
    var n, m := w.heap[a].event, w.heap[b].event;
    BackedCarries(w, a);
    BackedCarries(w, b);
    CarriersAreTimers(w, m);
    CancelledTimer(w.st, m);
    CancelRetires(w.st, m);
    if m != n {
      CancelledOthers(w.st, m);
      HeldWhenRunning(w.st, n);
      StaysOf(w.st, Cancelled(w.st, m), Some(m), n);
    }
  }

  lemma StaysOf(st: State, t: State, m: Option<Storage>, n: Storage)
    requires Others(st, t, m) && m != Some(n) && n in st.recs && Held(st, n)
    ensures Stays(st, t, n)
  {
  }

  lemma RequestKeepsLastCall(w: World, op: Op, a: nat)
    requires Sound(w) && LastCall(w, a) && op.Request? && Allowed(w, op) && -1 <= w.tasklet < 128
    requires forall n | n in w.st.eventFree :: n in w.st.recs
    ensures LastCall(TimeoutRequested(w, op), a) && TimeoutRequested(w, op).heap[a] == w.heap[a]
  {
    hide R.Inv, Matched, Others, TaskletIds, FreeId, Held, Balanced, Carries, Requested, Low32;
    if w.tasklet == -1 {
      NoTaskletNoTimeouts(w);
    } else if op.memory.address.Some? {
      var n, spare := w.heap[a].event, op.memory.timer;
      var data := Event(w.tasklet, w.tasklet, TIMER_EVENT, TIMER_EVENT, op.memory.address.value, High, 0);
      var delay := if op.period > 0 then op.period else Delay(w.st, op.at);
      RequestedOthers(w.st, data, delay, op.period, spare);
      RequestedRunning(w.st, data, delay, op.period, spare);
      HeldWhenRunning(w.st, n);
      OwnedNow(w.st);
      if NextTimer(w.st, spare) == Some(n) {
        FreeCarryNothing(w.st, n);
      } else {
        StaysOf(w.st, Requested(w.st, data, delay, op.period, spare), NextTimer(w.st, spare), n);
      }
    }
  }

  lemma {:induction false} RunKeepsLastCall(w: World, ops: seq<Op>, a: nat)
    requires Sound(w) && LastCall(w, a) && forall op | op in ops :: op != Other(R.End)
    ensures LastCall(Run(w, ops), a) && Run(w, ops).heap[a] == w.heap[a]
    decreases |ops|
  {
    hide Sound, Step, LastCall;
    if ops != [] {
      assert ops[0] in ops;
      StepSound(w, ops[0]);
      StepKeepsLastCall(w, ops[0], a);
      HasObject(Step(w, ops[0]), a);
      forall op | op in ops[1..] ensures op != Other(R.End) {
        assert op in ops;
      }
      RunKeepsLastCall(Step(w, ops[0]), ops[1..], a);
    }
  }

  lemma HasObject(w: World, a: nat)
    ensures LastCall(w, a) ==> a in w.heap
  {
  }

  /**
   A timeout cancelled from its own callback keeps its object for the rest of the callback,
   whatever else happens meanwhile; when the callback returns, object and struct are free.
   */
  lemma SelfCancelFreesOnReturn(w: World, a: nat, ops: seq<Op>)
    requires Sound(w) && a in w.heap && a != 0 && w.st.running == Some(w.heap[a].event)
    requires forall op | op in ops :: op != Other(R.End)
    ensures Sound(Step(w, CancelTimeout(a)))
    ensures var v := Run(Step(w, CancelTimeout(a)), ops); var u := Step(v, Other(R.End));
      && a in v.heap && v.heap[a] == w.heap[a]
      && u.heap == v.heap - {a} && u.freed == v.freed + multiset{a} && w.heap[a].event in u.st.timerFree
  {
    hide R.Inv, Matched, TaskletIds, TimeoutCancelled, Returned, Run, Balanced, Carries;
    StepSound(w, CancelTimeout(a));
    CancelledSound(w, a);
    CancelKeepsRunning(w, a);
    var x := Step(w, CancelTimeout(a));
    RunKeepsLastCall(x, ops, a);
    var v := Run(x, ops);
    RunningPoints(v);
    BackedCarries(v, a);
    SoundFacts(v);
    ReturnedSound(v);
  }

  lemma CancelKeepsRunning(w: World, a: nat)
    requires Sound(w) && a in w.heap && w.heap[a].event in w.st.recs
    ensures TimeoutCancelled(w, a).st.running == w.st.running
  {
    hide R.Inv, Matched, TaskletIds, Cancelled, Balanced, Owned, Carries;
    OwnedNow(w.st);
    BackedCarries(w, a);
    CarriersAreTimers(w, w.heap[a].event);
    CancelRetires(w.st, w.heap[a].event);
  }

  // ---------------------------------------------------------------- what a request gets

  /** The event loop once the timeout tasklet has been asked for: it is created if it is not there yet and can be. */
  ghost function Prepared(w: World, m: Memory): (s: State)
    requires Owned(w.st, None)
  {
    if w.tasklet != -1 then w.st else R.Step(w.st, R.Create(TIMEOUT_TASKLET, STARTUP_EVENT, m.tasklet, m.event))
  }

  /** Is the timeout tasklet there, or can it be created? */
  ghost predicate TaskletToHave(w: World, m: Memory) {
    || w.tasklet != -1
    || (&& (forall k | 0 <= k < |w.st.tasklets| :: w.st.tasklets[k].handler != TIMEOUT_TASKLET)
        && m.tasklet && (w.st.eventFree != [] || m.event.Some?))
  }

  /** The timer event in storage `n` is for the object at address `a`, with the time and the period asked for. */
  ghost predicate AsAsked(s: State, t: State, n: Storage, tasklet: int, a: nat, at: U32, period: U32) {
    && n in t.recs && -0x80 <= tasklet < 0x80
    && var r := t.recs[n];
    && r.data == Event(tasklet, tasklet, TIMER_EVENT, TIMER_EVENT, a, High, 0) && r.allocator == Timer && r.period == period
    && (if period > 0 then r.due == s.clock + period else Low32(r.due) == at && -HALF_32 <= r.due - s.clock < HALF_32)
    && E.OnlyTouches(s, t, n) && t.timerFree == (if s.timerFree != [] then s.timerFree[1..] else [])
    && t == s.(queue := t.queue, pending := t.pending, timerFree := t.timerFree, timers := t.timers, recs := t.recs, stamps := t.stamps)
    && (if r.due <= s.clock then E.Appended(s, t, n) && t.pending == s.pending else E.Inserted(s, t, n) && t.queue == s.queue)
  }

  lemma EventAsAsked(st: State, tasklet: I8, a: nat, at: U32, period: U32, spare: Option<Storage>)
    requires R.Inv(st) && New(st, spare) && Registered(st, tasklet) && period < HALF_32 && NextTimer(st, spare).Some?
    ensures AsAsked(st, EventRequested(st, tasklet, a, at, period, spare), NextTimer(st, spare).value, tasklet, a, at, period)
  {
    hide R.Inv, Requested, TaskletIds, Low32, E.Appended, E.Inserted, E.OnlyTouches, Difference, E.HasReceiver;
    var data := Event(tasklet, tasklet, TIMER_EVENT, TIMER_EVENT, a, High, 0);
    var delay := if period > 0 then period else Delay(st, at);
    NearestCount(st.clock, at);
    E.ReceiverIsRegistered(st, tasklet);
    E.RequestSchedules(st, data, delay, period, spare);
  }

  /** Asking for the tasklet gives what creating its handler gives. */
  lemma TaskletPrepared(w: World, m: Memory)
    requires Sound(w) && New(w.st, m.event) && (w.tasklet == -1 ==> FreeId(TaskletIds(w.st.tasklets), 0) < 128)
    requires forall n | n in w.st.eventFree :: n in w.st.recs
    ensures Owned(w.st, None)
    ensures var (s, id) := WithTasklet(w, m);
      && s == Prepared(w, m) && s.clock == w.st.clock && s.timerFree == w.st.timerFree && (id >= 0 <==> TaskletToHave(w, m))
      && (if id < 0 then s == w.st && id == -1 else w.tasklet == -1 ==> s.tasklets == w.st.tasklets + [Tasklet(id, TIMEOUT_TASKLET)])
  {
    hide R.Inv, Matched, Balanced, TaskletIds, FreeId, Created, Others, E.Appended, E.OnlyTouches, E.HasReceiver;
    OwnedNow(w.st);
    TaskletSmall(w);
    if w.tasklet == -1 {
      E.CreateQueues(w.st, TIMEOUT_TASKLET, STARTUP_EVENT, m.tasklet, m.event);
      CreatedOthers(w.st, TIMEOUT_TASKLET, STARTUP_EVENT, m.tasklet, m.event);
    }
  }

  /**
   A timeout requested with an address for its object, a tasklet and a timer struct to be had: the object at this address
   holds exactly the callback and argument, and its event, the struct, is due one period from now with that period or
   else at the nearest count with the low half asked for. It is queued or waits as that time has come or not. No other
   object and no other event is touched. When something is lacking, there is no object, and its address is given back.
   */
  lemma RequestGetsAsked(w: World, op: Op)
    requires Sound(w) && op.Request? && Allowed(w, op)
    ensures Owned(w.st, None)
    ensures var v, m := Step(w, op), op.memory;
      if m.address.None? then v == w
      else
        var s, a := Prepared(w, m), m.address.value;
        && v.given == w.given + multiset{a}
        && if !TaskletToHave(w, m) || (w.st.timerFree == [] && m.timer.None?)
           then v.heap == w.heap && v.freed == w.freed + multiset{a} && v.st == s
           else
             var n := if w.st.timerFree != [] then w.st.timerFree[0] else m.timer.value;
             && v.heap == w.heap[a := Timeout(op.callback, op.arg, n)] && v.freed == w.freed
             && (if w.tasklet != -1 then v.tasklet == w.tasklet
                 else s.tasklets == w.st.tasklets + [Tasklet(v.tasklet, TIMEOUT_TASKLET)])
             && s.clock == w.st.clock && AsAsked(s, v.st, n, v.tasklet, a, op.at, op.period)
  {
    hide R.Inv, Matched, Balanced, WithTasklet, TaskletIds, FreeId, EventRequested, AsAsked, Prepared, TaskletToHave;
    SoundFacts(w);
    TaskletSmall(w);
    var m := op.memory;
    if m.address.Some? {
      TaskletReady(w, m);
      TaskletPrepared(w, m);
      var (s, id) := WithTasklet(w, m);
      TaskletKept(w, m);
      if id >= 0 && NextTimer(s, m.timer).Some? {
        TaskletSmall(w.(st := s, tasklet := id));
        TaskletThere(w.(st := s, tasklet := id));
        EventAsAsked(s, id, m.address.value, op.at, op.period, m.timer);
      }
    }
  }

  /** There is an object only if nothing was lacking. */
  lemma GotNeeded(w: World, op: Op)
    requires Sound(w) && op.Request? && Allowed(w, op) && op.memory.address.Some? && op.memory.address.value in Step(w, op).heap
    ensures TaskletToHave(w, op.memory) && (w.st.timerFree != [] || op.memory.timer.Some?)
  {
    hide R.Inv, Matched, Balanced, TaskletIds, FreeId, AsAsked, Prepared, TaskletToHave, Step;
    RequestGetsAsked(w, op);
  }

  lemma TaskletKept(w: World, m: Memory)
    requires (forall n | n in w.st.eventFree :: n in w.st.recs) && (w.tasklet == -1 ==> FreeId(TaskletIds(w.st.tasklets), 0) < 128)
    ensures w.tasklet != -1 ==> WithTasklet(w, m).1 == w.tasklet
  {
  }

  /**
   A request for a callback every `ms` milliseconds that gets an object is periodic exactly when 0 < ms <= 2^32 - 10,
   with the least period in ticks that covers the time, and is due one period from now. Otherwise the conversion to
   ticks gives 0, and the callback is called once, at the nearest count that reads 0 in 32 bits.
   */
  lemma EveryIsPeriodic(w: World, callback: nat, arg: nat, ms: U32, m: Memory)
    requires Sound(w) && Allowed(w, Request(callback, arg, 0, MsToTicks(ms), m)) && m.address.Some?
    requires TaskletToHave(w, m) && (w.st.timerFree != [] || m.timer.Some?)
    ensures var v, a := Step(w, Request(callback, arg, 0, MsToTicks(ms), m)), m.address.value;
      && a in v.heap && v.heap[a].callback == callback && v.heap[a].arg == arg && v.heap[a].event in v.st.recs
      && var r := v.st.recs[v.heap[a].event];
      && (r.period > 0 <==> 0 < ms <= 0xFFFF_FFF6)
      && (if r.period > 0 then 10 * (r.period - 1) < ms <= 10 * r.period && r.due == w.st.clock + r.period
          else Low32(r.due) == 0 && -HALF_32 <= r.due - w.st.clock < HALF_32)
  {
    hide Sound, Allowed, MsToTicks, Low32, TaskletToHave, E.Appended, E.Inserted, E.OnlyTouches, Prepared, Step;
    MsToTicksRoundsUp(ms);
    TicksCover(ms);
    RequestGetsAsked(w, Request(callback, arg, 0, MsToTicks(ms), m));
  }

  /** A request for a callback after `ms` milliseconds is for the least number of ticks that covers them. */
  lemma AfterIsInTime(w: World, callback: nat, arg: nat, ms: U32, m: Memory)
    requires var op := Request(callback, arg, Low32(MsToTicks(ms) + w.st.clock), 0, m); Sound(w) && Allowed(w, op) && m.address.Some?
    requires TaskletToHave(w, m) && (w.st.timerFree != [] || m.timer.Some?)
    ensures var v, a := Step(w, Request(callback, arg, Low32(MsToTicks(ms) + w.st.clock), 0, m)), m.address.value;
      && a in v.heap && v.heap[a].callback == callback && v.heap[a].arg == arg && v.heap[a].event in v.st.recs
      && var r := v.st.recs[v.heap[a].event];
      && r.period == 0
      && (if 0 < ms <= 0xFFFF_FFF6 then 10 * (r.due - w.st.clock - 1) < ms <= 10 * (r.due - w.st.clock) else r.due == w.st.clock)
  {
    hide Sound, Allowed, MsToTicks, Low32, TaskletToHave, E.Appended, E.Inserted, E.OnlyTouches, Prepared, Step;
    MsToTicksRoundsUp(ms);
    TicksCover(ms);
    var at := Low32(MsToTicks(ms) + w.st.clock);
    RequestGetsAsked(w, Request(callback, arg, at, 0, m));
    var v := Step(w, Request(callback, arg, at, 0, m));
    NearestIsUnique(w.st.clock, v.st.recs[v.heap[m.address.value].event].due, MsToTicks(ms) + w.st.clock);
  }

  /** Two counts with the same low half, less than half the range from a third, are the same. */
  lemma NearestIsUnique(now: int, x: int, y: int)
    requires Low32(x) == Low32(y) && -HALF_32 <= x - now < HALF_32 && -HALF_32 <= y - now < HALF_32
    ensures x == y
  {
    DifferenceIsTrue(x, now);
    DifferenceIsTrue(y, now);
  }

  lemma TicksCover(ms: U32)
    ensures 0 < ms <= 0xFFFF_FFF6 ==> 10 * (MsToTicks(ms) - 1) < ms <= 10 * MsToTicks(ms)
  {
  }
}
