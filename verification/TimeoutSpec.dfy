/**
 Timeouts: heap objects whose lifetime follows that of the timer events that carry them.

 The heap is a map from addresses to timeout objects. Following a pointer or
 freeing it is defined only for an address the map has, so a run that is
 defined uses nothing after it is freed and frees nothing twice.
 */
module TimeoutSpec {
  import opened Basics
  import opened Ticks
  import opened EventTypes
  import opened EventSpec
  import opened EventInvariants
  import R = EventRuns

  const STARTUP_EVENT: U8 := 0
  const TIMER_EVENT: U8 := 1

  /** The handler function of the tasklet that timeouts are delivered to. */
  const TIMEOUT_TASKLET: nat := 0

  datatype Timeout = Timeout(callback: nat, arg: nat, event: Storage)

  datatype World = World(
    st: State,
    heap: map<nat, Timeout>,
    tasklet: int,            // the timeout tasklet's id, -1 before it exists
    given: multiset<nat>,    // addresses the allocator has given out
    freed: multiset<nat>)    // addresses given back

  /** What the allocator will give: an address, memory for a tasklet, and storages for an event and a timer. */
  datatype Memory = Memory(address: Option<nat>, tasklet: bool, event: Option<Storage>, timer: Option<Storage>)

  datatype Op =
    | Request(callback: nat, arg: nat, at: U32, period: U32, memory: Memory)
    | CancelTimeout(address: nat)
    | Other(op: R.Op)

  // ---------------------------------------------------------------- operations

  /** On its way to a handler, or in it. */
  predicate Held(st: State, n: Storage) {
    n in st.pending || n in st.queue || st.running == Some(n)
  }

  /** Storage `n` carries a timeout. */
  predicate Carries(st: State, tasklet: int, n: Storage) {
    && n in st.recs && Held(st, n)
    && st.recs[n].data.receiver == tasklet && st.recs[n].data.eventType == TIMER_EVENT
  }

  ghost function Delay(st: State, at: U32): int {
    Difference(at, Low32(st.clock))
  }

  /** Request the timer event for the object at address `a`. */
  ghost function EventRequested(st: State, tasklet: I8, a: nat, at: U32, period: U32, spare: Option<Storage>): (t: State) {
    var data := Event(tasklet, tasklet, TIMER_EVENT, TIMER_EVENT, a, High, 0);
    if period > 0 then Requested(st, data, period, period, spare) else Requested(st, data, Delay(st, at), 0, spare)
  }

  /** The state with the timeout tasklet, which is created when it is needed first, and its id or -1. */
  ghost function WithTasklet(w: World, m: Memory): (r: (State, int))
    requires (forall n | n in w.st.eventFree :: n in w.st.recs)
    requires w.tasklet == -1 ==> FreeId(TaskletIds(w.st.tasklets), 0) < 128
    ensures w.tasklet != -1 ==> r == (w.st, w.tasklet)
  {
    if w.tasklet != -1 then (w.st, w.tasklet)
    else
      (Created(w.st, TIMEOUT_TASKLET, STARTUP_EVENT, m.tasklet, m.event),
       if HandlerKnown(w.st, TIMEOUT_TASKLET) || !m.tasklet || NextEvent(w.st, m.event).None? then -1
       else FreeId(TaskletIds(w.st.tasklets), 0))
  }

  /** Request a timeout: an object is allocated, and freed again if there is no tasklet or no timer for it. */
  ghost function TimeoutRequested(w: World, op: Op): (r: World)
    requires op.Request? && -1 <= w.tasklet < 128
    requires (forall n | n in w.st.eventFree :: n in w.st.recs)
    requires w.tasklet == -1 ==> FreeId(TaskletIds(w.st.tasklets), 0) < 128
  {
    var m := op.memory;
    if m.address.None? then w
    else
      var a := m.address.value;
      var (s, id) := WithTasklet(w, m);
      if id < 0 || NextTimer(s, m.timer).None? then
        w.(st := s, tasklet := id, given := w.given + multiset{a}, freed := w.freed + multiset{a})
      else
        World(EventRequested(s, id, a, op.at, op.period, m.timer),
              w.heap[a := Timeout(op.callback, op.arg, NextTimer(s, m.timer).value)],
              id, w.given + multiset{a}, w.freed)
  }

  function Freed(w: World, a: nat): (r: World)
    requires a in w.heap
  {
    w.(heap := w.heap - {a}, freed := w.freed + multiset{a})
  }

  /** Cancel a timeout: its object is freed unless its callback is running. */
  ghost function TimeoutCancelled(w: World, a: nat): (r: World)
    requires a in w.heap && w.heap[a].event in w.st.recs
  {
    var n := w.heap[a].event;
    var s := Cancelled(w.st, n);
    if n in s.recs && s.recs[n].state == Running then w.(st := s) else Freed(w.(st := s), a)
  }

  /** The handler has returned; the timeout tasklet's frees the object unless its timer is periodic. */
  ghost function Returned(w: World): (r: World)
    requires w.st.running.Some? && w.st.running.value in w.st.recs
    requires var r := w.st.recs[w.st.running.value];
      r.data.receiver == w.tasklet && r.data.eventType == TIMER_EVENT ==>
        r.data.dataPtr in w.heap && w.heap[r.data.dataPtr].event in w.st.recs
  {
    var d := w.st.recs[w.st.running.value].data;
    var v := if d.receiver == w.tasklet && d.eventType == TIMER_EVENT && w.st.recs[w.heap[d.dataPtr].event].period == 0
             then Freed(w, d.dataPtr) else w;
    v.(st := Ended(w.st))
  }

  // ---------------------------------------------------------------- what holds in every reachable state

  /** The object at address `a` has a timer event on its way, that points back to it. */
  ghost predicate Backed(w: World, a: nat)
    requires a in w.heap
  {
    var n := w.heap[a].event;
    Carries(w.st, w.tasklet, n) && w.st.recs[n].data.dataPtr == a && w.st.recs[n].allocator == Timer
  }

  /** The event in storage `n` points to an object that belongs to it. */
  ghost predicate Pointed(w: World, n: Storage)
    requires n in w.st.recs
  {
    var a := w.st.recs[n].data.dataPtr;
    a in w.heap && w.heap[a].event == n
  }

  /** Objects and the events that carry them correspond one to one. */
  ghost predicate Matched(w: World) {
    && -1 <= w.tasklet < 128
    && (w.tasklet != -1 ==> Registered(w.st, w.tasklet))
    && (forall a | a in w.heap :: a != 0 && Backed(w, a))
    && (forall n | n in w.st.recs && Carries(w.st, w.tasklet, n) :: Pointed(w, n))
  }

  /** Each address given out has been freed once, or is in the heap. */
  ghost predicate Balanced(w: World) {
    forall a: nat :: w.given[a] == w.freed[a] + if a in w.heap then 1 else 0
  }

  ghost predicate Sound(w: World) {
    R.Inv(w.st) && Matched(w) && Balanced(w)
  }

  /** What is asked of callers: other clients leave the timeout tasklet and its events alone. */
  ghost predicate Allowed(w: World, op: Op) {
    match op
    case Request(_, _, _, period, m) =>
      && (m.address.Some? ==> m.address.value != 0 && m.address.value !in w.heap)
      && New(w.st, m.event) && New(w.st, m.timer) && (m.event.Some? ==> m.event != m.timer)
      && period < HALF_32 && (w.tasklet == -1 ==> FreeId(TaskletIds(w.st.tasklets), 0) < 128)
    case CancelTimeout(a) => a == 0 || a in w.heap
    case Other(Send(data, _)) => data.receiver != w.tasklet && R.Allowed(w.st, op.op)
    case Other(SendUser(n, data)) => data.receiver != w.tasklet && R.Allowed(w.st, op.op)
    case Other(Request(data, _, _, _)) => data.receiver != w.tasklet && R.Allowed(w.st, op.op)
    case Other(Cancel(n)) => !Carries(w.st, w.tasklet, n) && R.Allowed(w.st, op.op)
    case Other(CancelTimer(_, tasklet)) => tasklet != w.tasklet && R.Allowed(w.st, op.op)
    case Other(o) => R.Allowed(w.st, o)
  }

  lemma SoundFacts(w: World)
    requires Sound(w)
    ensures Owned(w.st, None)
    ensures forall n | n in w.st.eventFree :: n in w.st.recs
    ensures forall a | a in w.heap :: w.heap[a].event in w.st.recs
    ensures w.st.running.Some? ==> w.st.running.value in w.st.recs
  {
    forall a | a in w.heap ensures w.heap[a].event in w.st.recs {
      assert Backed(w, a);
    }
  }

  /** The timeout tasklet's event points to an object when its handler returns, just as when it was entered. */
  lemma RunningPoints(w: World)
    requires Sound(w) && w.st.running.Some?
    ensures var n := w.st.running.value;
      n in w.st.recs && (Carries(w.st, w.tasklet, n) ==> Pointed(w, n))
      && var d := w.st.recs[n].data; d.receiver == w.tasklet && d.eventType == TIMER_EVENT ==> Carries(w.st, w.tasklet, n)
  {
    hide R.Inv, Pointed, Backed;
    SoundFacts(w);
  }

  ghost function Step(w: World, op: Op): (r: World)
    requires Sound(w)
  {
    SoundFacts(w);
    if !Allowed(w, op) then w
    else match op
      case Request(_, _, _, _, _) => TimeoutRequested(w, op)
      case CancelTimeout(a) => if a == 0 then w else TimeoutCancelled(w, a)
      case Other(End) => RunningPoints(w); Returned(w)
      case Other(o) => w.(st := R.Step(w.st, o))
  }
}
