/** Properties of every reachable state and every run of the event loop. */
module EventTheorems {
  import opened Basics
  import opened EventTypes
  import opened EventSpec
  import opened EventInvariants
  import opened EventOrder
  import opened EventRuns
  import opened CancelTheorems

  // ---------------------------------------------------------------- startup

  const FRESH_REC: Rec := Rec(Event(0, 0, 0, 0, 0, High, 0), StartupPool, Unqueued, 0, 0, 0, 0, None)

  /** After initialisation all startup events and timer structs are free. */
  ghost function Boot(events: seq<Storage>, structs: seq<Storage>): (st: State) {
    State(0, [], structs, [], events, None, map n | n in events + structs :: FRESH_REC,
          set n | n in events, set n | n in structs, [], 0, [])
  }

  lemma BootInv(events: seq<Storage>, structs: seq<Storage>)
    requires Distinct(events + structs)
    ensures Inv(Boot(events, structs))
  {
    var st := Boot(events, structs);
    DistinctParts(events, structs);
    forall n | n in st.recs ensures Placed(st, n) {
      assert n in events <==> n !in structs;
    }
    assert Lists(st);
  }

  lemma JoinDistinct(a: seq<Storage>, b: seq<Storage>)
    requires Distinct(a) && Distinct(b) && forall n | n in b :: n !in a
    ensures Distinct(a + b)
  {
    forall i, j | 0 <= i < j < |a + b| ensures (a + b)[i] != (a + b)[j] {
      if i < |a| <= j {
        assert (a + b)[i] in a && (a + b)[j] in b;
      }
    }
  }

  lemma DistinctParts(a: seq<Storage>, b: seq<Storage>)
    requires Distinct(a + b)
    ensures Distinct(a) && Distinct(b) && forall n | n in a :: n !in b
  {
    var s := a + b;
    forall i, j | 0 <= i < j < |a| ensures a[i] != a[j] {
      assert s[i] != s[j];
    }
    forall i, j | 0 <= i < j < |b| ensures b[i] != b[j] {
      assert s[|a| + i] != s[|a| + j];
    }
    forall n | n in a ensures n !in b {
      var i :| 0 <= i < |a| && a[i] == n;
      forall j | 0 <= j < |b| ensures b[j] != n {
        assert s[i] != s[|a| + j];
      }
    }
  }

  /** Every run from startup keeps the invariant. */
  lemma ReachableInv(events: seq<Storage>, structs: seq<Storage>, ops: seq<Op>)
    requires Distinct(events + structs)
    ensures Inv(Boot(events, structs))
    ensures Inv(Run(Boot(events, structs), ops))
  {
    BootInv(events, structs);
  }

  // ---------------------------------------------------------------- exclusive ownership

  function One(b: bool): nat { if b then 1 else 0 }

  /** How many of the places a storage can be in it is in. */
  ghost function Places(st: State, n: Storage): nat {
    One(n in st.eventFree) + One(n in st.timerFree) + One(n in st.pending) + One(n in st.queue) + One(st.running == Some(n))
  }

  /**
   Startup events, timer structs and events from the heap are in exactly one
   place, where their tags say; startup events and timer structs are never lost.
   */
  lemma ExactlyOnePlace(st: State, n: Storage)
    requires Inv(st) && n in st.recs && (st.recs[n].allocator != User || n in st.pool || n in st.timers)
    ensures Places(st, n) == 1
    ensures st.recs[n].state == Queued <==> n in st.queue
    ensures st.recs[n].state == Running <==> st.running == Some(n)
    ensures st.recs[n].state == Unqueued <==> n in st.eventFree || n in st.timerFree || n in st.pending
    ensures n in st.eventFree ==> n in st.pool
    ensures n in st.timerFree || n in st.pending ==> n in st.timers
    ensures n !in st.pool && n !in st.timers ==> st.recs[n].allocator == Dynamic
  {
    hide Contents, Ordered, TaskletsOk;
    assert Placed(st, n);
  }

  /** No operation creates or loses a startup event, and none loses a timer struct. */
  lemma StepConserves(st: State, op: Op)
    requires Inv(st)
    ensures Step(st, op).pool == st.pool && st.timers <= Step(st, op).timers
    ensures forall n | n in st.pool || n in st.timers :: n in Step(st, op).recs
  {
    hide Ordered, Contents, TaskletsOk, Owned, Step;
    StepInv(st, op);
    StepPools(st, op);
    StepOwned(st, op);
  }

  lemma StepOwned(st: State, op: Op)
    requires Inv(st) && Inv(Step(st, op))
    ensures forall n | n in Step(st, op).pool || n in Step(st, op).timers :: n in Step(st, op).recs
  {
    hide Ordered, Contents, TaskletsOk, Step;
  }

  lemma StepPools(st: State, op: Op)
    requires Owned(st, None)
    ensures Step(st, op).pool == st.pool && st.timers <= Step(st, op).timers
  {
    hide FreePushed, Insert, Minus, TaskletIds, FreeId, Placed, InHand, CancelTarget;
    match op
    case TickUpdate(ticks) => ExpireConserves(st.(clock := st.clock + ticks));
    case Cancel(n) => if Live(st, n) { CancelConserves(st, n); }
    case CancelTimer(eventId, tasklet) =>
      if CancelTarget(st, eventId, tasklet).Some? { CancelConserves(st, CancelTarget(st, eventId, tasklet).value); }
    case End => if st.running.Some? { FreePushedConserves(st.(running := None), st.running.value); }
    case _ =>
  }

  lemma CancelConserves(st: State, n: Storage)
    requires n in st.recs
    ensures Cancelled(st, n).pool == st.pool && Cancelled(st, n).timers == st.timers
  {
    hide FreePushed, Minus;
    var r := st.recs[n];
    var s := if r.allocator == Timer then Revised(st, n, r.(period := 0)) else st;
    FreePushedConserves(s.(pending := if r.allocator == Timer && r.state == Unqueued then Minus(s.pending, n) else s.pending,
                           queue := if r.state == Queued then Minus(s.queue, n) else s.queue), n);
  }

  lemma FreePushedConserves(st: State, n: Storage)
    requires n in st.recs
    ensures FreePushed(st, n).pool == st.pool && FreePushed(st, n).timers == st.timers
  {
  }

  lemma {:induction false} ExpireConserves(st: State)
    requires forall n | n in st.pending :: n in st.recs
    ensures Expire(st).pool == st.pool && Expire(st).timers == st.timers && Expire(st).recs.Keys == st.recs.Keys
    decreases |st.pending|
  {
    hide Insert;
    if st.pending != [] && st.recs[st.pending[0]].due <= st.clock {
      ExpireConserves(SendTimer(st.(pending := st.pending[1..]), st.pending[0]));
    }
  }

  /** Over every run: the startup events and all timer structs there ever were are each in exactly one place. */
  lemma {:induction false} RunConserves(st: State, ops: seq<Op>)
    requires Inv(st)
    ensures Run(st, ops).pool == st.pool && st.timers <= Run(st, ops).timers
    ensures forall n | n in st.pool || n in st.timers :: n in Run(st, ops).recs && Places(Run(st, ops), n) == 1
    decreases |ops|
  {
    hide Step, Owned, Contents, Ordered, TaskletsOk, Places;
    if ops == [] {
      OwnedPlaces(st);
    } else {
      StepInv(st, ops[0]);
      StepConserves(st, ops[0]);
      RunConserves(Step(st, ops[0]), ops[1..]);
    }
  }

  lemma OwnedPlaces(st: State)
    requires Inv(st)
    ensures forall n | n in st.pool || n in st.timers :: n in st.recs && Places(st, n) == 1
  {
    hide Places, Ordered, Contents, TaskletsOk;
    forall n | n in st.pool || n in st.timers ensures Places(st, n) == 1 {
      ExactlyOnePlace(st, n);
    }
  }

  // ---------------------------------------------------------------- three queues in one

  /** The events of one priority, in queue order. */
  ghost function Of(s: seq<Storage>, recs: map<Storage, Rec>, p: Priority): (r: seq<Storage>) {
    if s == [] then []
    else (if s[0] in recs && recs[s[0]].data.priority == p then [s[0]] else []) + Of(s[1..], recs, p)
  }

  /** The queue is its high, medium and low priority events one after the other, each in order of arrival. */
  lemma {:induction false} QueueIsThreeFifos(s: seq<Storage>, recs: map<Storage, Rec>)
    requires Sorted(s, recs, ByPriority) && forall n | n in s :: n in recs
    ensures s == Of(s, recs, High) + Of(s, recs, Medium) + Of(s, recs, Low)
  {
    hide Of, Key, Sorted;
    if s == [] {
      OfCons(s, recs, High);
      OfCons(s, recs, Medium);
      OfCons(s, recs, Low);
    } else {
      var rest, p := s[1..], recs[s[0]].data.priority;
      TailSorted(s, recs);
      QueueIsThreeFifos(rest, recs);
      assert s == [s[0]] + rest;
      OfCons(s, recs, High);
      OfCons(s, recs, Medium);
      OfCons(s, recs, Low);
      if p != High {
        NoneOf(rest, recs, High, Rank(p));
      }
      if p == Low {
        NoneOf(rest, recs, Medium, Rank(p));
      }
      InFront(s[0], Of(rest, recs, High), Of(rest, recs, Medium), Of(rest, recs, Low));
    }
  }

  lemma InFront<T>(x: T, a: seq<T>, b: seq<T>, c: seq<T>)
    ensures [x] + (a + b + c) == ([x] + a) + b + c
    ensures a == [] ==> [x] + (a + b + c) == [] + ([x] + b) + c
    ensures a == [] && b == [] ==> [x] + (a + b + c) == [] + [] + ([x] + c)
  {
  }

  lemma OfCons(s: seq<Storage>, recs: map<Storage, Rec>, p: Priority)
    ensures Of(s, recs, p) == if s == [] then [] else
      (if s[0] in recs && recs[s[0]].data.priority == p then [s[0]] else []) + Of(s[1..], recs, p)
  {
  }

  lemma TailSorted(s: seq<Storage>, recs: map<Storage, Rec>)
    requires Sorted(s, recs, ByPriority) && s != [] && forall n | n in s :: n in recs
    ensures Sorted(s[1..], recs, ByPriority)
    ensures forall i | 0 <= i < |s| - 1 :: s[1..][i] in recs && Rank(recs[s[0]].data.priority) <= Key(recs, ByPriority, s[1..][i])
  {
    assert forall i | 0 <= i < |s| - 1 :: s[1..][i] == s[i + 1];
    assert Key(recs, ByPriority, s[0]) == Rank(recs[s[0]].data.priority);
  }

  lemma {:induction false} NoneOf(s: seq<Storage>, recs: map<Storage, Rec>, p: Priority, k: int)
    requires forall i | 0 <= i < |s| :: s[i] in recs && k <= Key(recs, ByPriority, s[i])
    requires Rank(p) < k
    ensures Of(s, recs, p) == []
  {
    if s != [] {
      assert Key(recs, ByPriority, s[0]) >= k;
      assert forall i | 0 <= i < |s| - 1 :: s[1..][i] == s[i + 1];
      NoneOf(s[1..], recs, p, k);
    }
  }

  lemma {:induction false} OfJoin(a: seq<Storage>, b: seq<Storage>, recs: map<Storage, Rec>, p: Priority)
    ensures Of(a + b, recs, p) == Of(a, recs, p) + Of(b, recs, p)
  {
    if a == [] {
      assert a + b == b;
    } else {
      assert (a + b)[0] == a[0] && (a + b)[1..] == a[1..] + b;
      OfJoin(a[1..], b, recs, p);
    }
  }

  lemma {:induction false} OfSame(s: seq<Storage>, r1: map<Storage, Rec>, r2: map<Storage, Rec>, p: Priority)
    requires forall n | n in s :: n in r1 && n in r2 && r1[n].data.priority == r2[n].data.priority
    ensures Of(s, r1, p) == Of(s, r2, p)
  {
    if s != [] {
      OfSame(s[1..], r1, r2, p);
    }
  }

  /** Queueing an event appends it to the FIFO of its priority and leaves the other two alone. */
  lemma WriteAppendsToFifo(st: State, n: Storage, p: Priority)
    requires Sorted(st.queue, st.recs, ByPriority) && Known(st, st.queue) && n in st.recs
    ensures var t := Write(st, n);
      Of(t.queue, t.recs, p) == Of(st.queue, st.recs, p) + (if st.recs[n].data.priority == p then [n] else [])
  {
    hide Slot, Key, Of;
    var t := Write(st, n);
    var k := Slot(st.queue, st.recs, ByPriority, Key(st.recs, ByPriority, n), 0);
    var a, b := st.queue[..k], st.queue[k..];
    OfSame(t.queue, t.recs, st.recs, p);
    OfJoin(a + [n], b, st.recs, p);
    OfJoin(a, [n], st.recs, p);
    OfJoin(a, b, st.recs, p);
    assert st.queue == a + b;
    OfOne(st.recs, n, p);
    if st.recs[n].data.priority == p {
      LaterRanks(st, n);
      NoneOf(b, st.recs, p, Rank(p) + 1);
    }
  }

  lemma OfOne(recs: map<Storage, Rec>, n: Storage, p: Priority)
    requires n in recs
    ensures Of([n], recs, p) == if recs[n].data.priority == p then [n] else []
  {
  }

  lemma LaterRanks(st: State, n: Storage)
    requires Sorted(st.queue, st.recs, ByPriority) && Known(st, st.queue) && n in st.recs
    ensures var k := Slot(st.queue, st.recs, ByPriority, Key(st.recs, ByPriority, n), 0);
      forall i | k <= i < |st.queue| :: Rank(st.recs[n].data.priority) + 1 <= Key(st.recs, ByPriority, st.queue[i])
  {
    hide Slot;
    var k := Slot(st.queue, st.recs, ByPriority, Key(st.recs, ByPriority, n), 0);
    forall i | k <= i < |st.queue| ensures Rank(st.recs[n].data.priority) + 1 <= Key(st.recs, ByPriority, st.queue[i]) {
      assert Key(st.recs, ByPriority, st.queue[k]) <= Key(st.recs, ByPriority, st.queue[i]);
    }
  }

  /** Dispatching takes the oldest event of the highest priority there is. */
  lemma BeginTakesOldestHighest(st: State)
    requires Inv(st) && st.queue != []
    ensures var h, m, l := Of(st.queue, st.recs, High), Of(st.queue, st.recs, Medium), Of(st.queue, st.recs, Low);
      Begun(st).running == Some(if h != [] then h[0] else if m != [] then m[0] else l[0])
  {
    hide Placed, Contents, TaskletsOk, Of;
    QueueIsThreeFifos(st.queue, st.recs);
  }

  /** It leaves that FIFO without its head, and the other two as they were. */
  lemma BeginPopsFifo(st: State, p: Priority)
    requires Inv(st) && st.queue != []
    ensures var t, of := Begun(st), Of(st.queue, st.recs, p);
      st.queue[0] in st.recs && Of(t.queue, t.recs, p) == if st.recs[st.queue[0]].data.priority == p then of[1..] else of
  {
    hide Placed, Contents, TaskletsOk, Of, Ordered;
    OfCons(st.queue, st.recs, p);
    OfSame(st.queue[1..], st.recs, Begun(st).recs, p);
  }

  /** Cancelling takes the event out of its FIFO and changes nothing else in the queue. */
  lemma CancelLeavesFifos(st: State, n: Storage, p: Priority)
    requires Inv(st) && Live(st, n)
    ensures Of(Cancelled(st, n).queue, Cancelled(st, n).recs, p) == Minus(Of(st.queue, st.recs, p), n)
  {
    hide Placed, Contents, TaskletsOk, Of, Ordered, Cancelled, Minus;
    CancelKeepsOthers(st, n);
    OfMinus(st.queue, st.recs, p, n);
    OfSame(Minus(st.queue, n), st.recs, Cancelled(st, n).recs, p);
  }

  lemma {:induction false} OfMinus(s: seq<Storage>, recs: map<Storage, Rec>, p: Priority, n: Storage)
    ensures Of(Minus(s, n), recs, p) == Minus(Of(s, recs, p), n)
  {
    if s != [] {
      OfMinus(s[1..], recs, p, n);
      assert Minus(s, n) == (if s[0] == n then [] else [s[0]]) + Minus(s[1..], n);
      OfJoin(if s[0] == n then [] else [s[0]], Minus(s[1..], n), recs, p);
      MinusJoin(if s[0] in recs && recs[s[0]].data.priority == p then [s[0]] else [], Of(s[1..], recs, p), n);
    }
  }

  lemma {:induction false} MinusJoin(a: seq<Storage>, b: seq<Storage>, n: Storage)
    requires |a| <= 1
    ensures Minus(a + b, n) == Minus(a, n) + Minus(b, n)
  {
    if a == [] {
      assert a + b == b;
    } else {
      assert (a + b)[0] == a[0] && (a + b)[1..] == b;
    }
  }

  // ---------------------------------------------------------------- the pending list

  /**
   In every reachable state pending timers lie 1 to 2^31 - 1 ticks ahead, by deadline
   and, among equal deadlines, in the order of insertion.
   */
  lemma PendingByDeadline(st: State, i: nat, j: nat)
    requires Inv(st) && i < j < |st.pending|
    ensures var m, n := st.pending[i], st.pending[j];
      && m in st.recs && n in st.recs && st.recs[m].stamp.Some? && st.recs[n].stamp.Some?
      && 1 <= st.recs[m].due - st.clock <= st.recs[n].due - st.clock <= HALF_32 - 1
      && (st.recs[m].due == st.recs[n].due ==> st.recs[m].stamp.value < st.recs[n].stamp.value)
  {
    hide Owned, TaskletsOk, TaskletIds, Line;
    var m, n := st.pending[i], st.pending[j];
    assert Waiting(st, m, st.clock) && Waiting(st, n, st.clock);
    assert Less(TagOf(st.recs, m), TagOf(st.recs, n));
  }

  /** Of the pending timers a tick update queues exactly those whose time has come, and it loses no event. */
  lemma TickQueuesExactlyTheDue(st: State, ticks: nat)
    requires Inv(st)
    ensures var t := Ticked(st, ticks);
      && (forall n | n in st.pending :: n in st.recs
            && (n in t.queue <==> st.recs[n].due <= st.clock + ticks) && (n in t.pending <==> st.clock + ticks < st.recs[n].due))
      && (forall n | n in st.queue :: n in t.queue)
      && (forall n | n in t.queue :: n in st.queue || n in st.pending)
      && (forall n | n in t.pending :: n in st.queue || n in st.pending)
  {
    hide Inv, Expire;
    InvFacts(st);
    var t := Ticked(st, ticks);
    TickedInv(st, ticks);
    ExpireAdds(st.(clock := st.clock + ticks));
    ExpirePlaces(st.(clock := st.clock + ticks));
    forall n | n in st.pending
      ensures n in st.recs && (n in t.queue <==> st.recs[n].due <= t.clock) && (n in t.pending <==> t.clock < st.recs[n].due)
    {
      WhenDue(t, n);
    }
  }

  lemma InvFacts(st: State)
    requires Inv(st)
    ensures forall n | n in st.pending :: n in st.recs && st.recs[n].allocator == Timer
  {
    hide Contents, Ordered, TaskletsOk, Placed;
    PendingTimers(st);
  }

  lemma WhenDue(st: State, n: Storage)
    requires Inv(st)
    ensures n in st.pending ==> n in st.recs && st.clock < st.recs[n].due && n !in st.queue
    ensures n in st.queue && n in st.recs && st.recs[n].allocator == Timer ==> st.recs[n].due <= st.clock
  {
    hide Ordered, TaskletsOk, TaskletIds;
    if n in st.pending {
      assert Waiting(st, n, st.clock) && Placed(st, n);
    }
    if n in st.queue {
      assert Fired(st, n);
    }
  }

  lemma {:induction false} ExpirePlaces(st: State)
    requires forall m | m in st.pending :: m in st.recs && st.recs[m].allocator == Timer
    ensures forall n | n in st.pending || n in st.queue :: n in Expire(st).pending || n in Expire(st).queue
    ensures forall n | n in st.queue :: n in Expire(st).queue
    ensures forall n | n in st.recs ::
      n in Expire(st).recs && Expire(st).recs[n].due == st.recs[n].due && Expire(st).recs[n].allocator == st.recs[n].allocator
    decreases |st.pending|
  {
    hide Slot;
    if st.pending != [] && st.recs[st.pending[0]].due <= st.clock {
      ExpirePlaces(SendTimer(st.(pending := st.pending[1..]), st.pending[0]));
    }
  }

  // ---------------------------------------------------------------- delivery order

  /**
   Among events of one priority that waited in the pending list, deliveries have
   been by deadline, and for equal deadlines by order of insertion; none was early.
   */
  lemma DeliveredInOrder(st: State, ops: seq<Op>)
    requires Inv(st)
    ensures InOrder(Run(st, ops).delivered)
    ensures forall t | t in Run(st, ops).delivered && t.stamp.Some? :: t.due <= Run(st, ops).clock
  {
    hide Owned, Contents, TaskletsOk, Run, Tags;
    var t := Run(st, ops);
    var l := Line(t);
    assert forall i | 0 <= i < |t.delivered| :: l[i] == t.delivered[i];
    forall i, j | 0 <= i < j < |t.delivered| ensures Tidy(t.delivered[i], t.delivered[j]) {
      assert Tidy(l[i], l[j]);
    }
    forall x | x in t.delivered && x.stamp.Some? ensures x.due <= t.clock {
      assert x in l && Precedes(t, x);
    }
  }

  // ---------------------------------------------------------------- dispatch always finds a handler

  /** Every queued or running event, and every pending timer, has exactly one registered receiver. */
  lemma ReceiverFound(st: State, n: Storage)
    requires Inv(st) && (n in st.queue || n in st.pending || st.running == Some(n))
    ensures exists k | 0 <= k < |st.tasklets| :: st.tasklets[k].id == st.recs[n].data.receiver
    ensures forall j, k | 0 <= j < |st.tasklets| && 0 <= k < |st.tasklets|
      && st.tasklets[j].id == st.recs[n].data.receiver == st.tasklets[k].id :: j == k
  {
    hide Owned, Ordered, TaskletIds;
    assert n in st.pending ==> Waiting(st, n, st.clock);
    assert n in st.queue ==> Fired(st, n);
    var ids := TaskletIds(st.tasklets);
    var k :| 0 <= k < |ids| && ids[k] == st.recs[n].data.receiver;
    forall i, j | 0 <= i < |st.tasklets| && 0 <= j < |st.tasklets| && st.tasklets[i].id == st.tasklets[j].id ensures i == j {
      assert ids[i] == ids[j];
    }
  }

  /** A new handler's id is the lowest that no other handler has. */
  lemma CreatedIdIsLowestFree(st: State, handler: nat, initType: U8, spare: Option<Storage>)
    requires Inv(st) && Allowed(st, Create(handler, initType, true, spare)) && !HandlerKnown(st, handler) && NextEvent(st, spare).Some?
    ensures var t := Created(st, handler, initType, true, spare); var id := t.tasklets[|st.tasklets|].id;
      && |t.tasklets| == |st.tasklets| + 1 && st.tasklets <= t.tasklets
      && !Registered(st, id) && (forall i | 0 <= i < id :: Registered(st, i))
      && NextEvent(st, spare).value in t.queue && t.recs[NextEvent(st, spare).value].data.receiver == id
  {
    hide Slot, TaskletIds, FreeId;
  }
}
