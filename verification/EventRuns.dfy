/** Every run of the event loop: what each operation keeps. */
module EventRuns {
  import opened Basics
  import opened EventTypes
  import opened EventSpec
  import opened EventInvariants
  import opened EventOrder

  /** What clients, handlers, the tick interrupt and the dispatch loop do, one critical section at a time. */
  datatype Op =
    | Create(handler: nat, initType: U8, memory: bool, spare: Option<Storage>)
    | Send(data: Event, spare: Option<Storage>)
    | SendUser(n: Storage, data: Event)
    | Request(data: Event, delay: int, period: U32, spare: Option<Storage>)
    | TickUpdate(ticks: nat)
    | Cancel(n: Storage)
    | CancelTimer(eventId: U8, tasklet: I8)
    | Begin
    | End

  /** What the program asks of its callers. */
  ghost predicate Allowed(st: State, op: Op) {
    match op
    case Create(_, _, _, spare) => New(st, spare) && FreeId(TaskletIds(st.tasklets), 0) < 128
    case Send(_, spare) => New(st, spare)
    case SendUser(n, data) => (n in st.recs ==> st.recs[n].allocator == User && n !in st.queue) && Registered(st, data.receiver)
    case Request(_, delay, period, spare) => New(st, spare) && delay <= HORIZON && (period > 0 ==> delay == period)
    case TickUpdate(_) => true
    case Cancel(n) => Live(st, n)
    case CancelTimer(_, _) => true
    case Begin => st.running.None?
    case End => st.running.Some?
  }

  /** Ownership, contents and order, with storage `hand` between places and pending timers due after `since`. */
  ghost predicate Core(st: State, hand: Option<Storage>, since: nat) {
    Owned(st, hand) && Contents(st, since) && Ordered(st)
  }

  ghost predicate Inv(st: State) {
    Core(st, None, st.clock) && TaskletsOk(st.tasklets)
  }

  ghost function Step(st: State, op: Op): (t: State)
    requires Owned(st, None)
  {
    if !Allowed(st, op) then st
    else match op
      case Create(handler, initType, memory, spare) => Created(st, handler, initType, memory, spare)
      case Send(data, spare) => Sent(st, data, spare)
      case SendUser(n, data) => SentUser(st, n, data)
      case Request(data, delay, period, spare) => Requested(st, data, delay, period, spare)
      case TickUpdate(ticks) => Ticked(st, ticks)
      case Cancel(n) => Cancelled(st, n)
      case CancelTimer(eventId, tasklet) => TimerCancelled(st, eventId, tasklet)
      case Begin => Begun(st)
      case End => Ended(st)
  }

  // ---------------------------------------------------------------- storages put somewhere

  /** A storage in hand that never waited in the pending list may be queued. */
  lemma WriteCore(st: State, n: Storage, since: nat)
    requires Core(st, Some(n), since) && Fired(st, n) && st.recs[n].stamp.None?
    ensures Core(Write(st, n), None, since) && Write(st, n).clock == st.clock
  {
    hide Line, Fired;
    WriteOwned(st, n);
    WriteContents(st, n, since);
    WriteOrdered(st, n);
  }

  lemma ReviseCore(st: State, n: Storage, r: Rec, since: nat)
    requires Core(st, Some(n), since) && r.allocator == st.recs[n].allocator
    requires st.running == Some(n) ==> Fired(Revised(st, n, r), n)
    ensures Core(Revised(st, n, r), Some(n), since)
  {
    hide Line, Fired, Waiting;
    ReviseOwned(st, n, r);
    ReviseContents(st, n, r, since);
    ReviseOrdered(st, n, r);
  }

  lemma SendTimerCore(st: State, n: Storage, since: nat)
    requires Core(st, Some(n), since) && st.recs[n].allocator == Timer && Fired(st, n) && st.recs[n].stamp.None?
    ensures Core(SendTimer(st, n), None, since) && SendTimer(st, n).clock == st.clock
  {
    hide Write, Core;
    assert Revised(st, n, st.recs[n].(allocator := Timer)) == st;
    WriteCore(st, n, since);
  }

  lemma AddPendingCore(st: State, n: Storage)
    requires Core(st, Some(n), st.clock) && n in st.timers && st.recs[n].state == Unqueued && Upcoming(st, n)
    ensures Core(AddPending(st, n), None, st.clock) && AddPending(st, n).clock == st.clock
  {
    hide Line, Fired, Waiting, Upcoming;
    AddPendingOwned(st, n);
    AddPendingContents(st, n);
    AddPendingOrdered(st, n);
  }

  /** Changing lists that have no order, and the tick count not at all. */
  lemma FreeListsCore(st: State, t: State, since: nat)
    requires Contents(st, since) && Ordered(st)
    requires t.pending == st.pending && t.queue == st.queue && t.running == st.running && t.clock == st.clock
    requires t.delivered == st.delivered && t.stamps == st.stamps
    requires forall i | i in TaskletIds(st.tasklets) :: i in TaskletIds(t.tasklets)
    requires SameRecs(st.pending, st.recs, t.recs) && SameRecs(st.queue, st.recs, t.recs)
    requires st.running.Some? ==> st.running.value in t.recs && t.recs[st.running.value] == st.recs[st.running.value]
    requires forall n | n in t.eventFree :: n in t.recs && t.recs[n].stamp.None?
    ensures Contents(t, since) && Ordered(t)
  {
    hide Tags, TaskletIds;
    assert Tags(t.queue, t.recs) == Tags(st.queue, st.recs);
    forall x | x in Line(t) ensures Precedes(t, x) {
      assert Precedes(st, x);
    }
    forall n | n in t.pending ensures Waiting(t, n, since) {
      assert Waiting(st, n, since);
    }
    forall n | n in t.queue ensures Fired(t, n) {
      assert Fired(st, n);
    }
  }

  // ---------------------------------------------------------------- sending

  lemma TakenEventCore(st: State, spare: Option<Storage>)
    requires Inv(st) && New(st, spare) && NextEvent(st, spare).Some?
    ensures var t := TakenEvent(st, spare);
      Core(t, NextEvent(st, spare), t.clock) && t.recs[NextEvent(st, spare).value].stamp.None?
      && t.recs[NextEvent(st, spare).value].allocator != Timer && t.running != NextEvent(st, spare)
      && t.tasklets == st.tasklets && t.clock == st.clock
  {
    hide Fired, Waiting, Line, Ordered, TaskletIds;
    TakenEventOwned(st, spare);
    var t := TakenEvent(st, spare);
    assert forall n | n in t.eventFree :: n in st.eventFree;
    FreeListsCore(st, t, st.clock);
  }

  lemma PostedCore(st: State, n: Storage, data: Event)
    requires Core(st, Some(n), st.clock) && Registered(st, data.receiver)
    requires st.recs[n].stamp.None? && st.recs[n].allocator != Timer && st.running != Some(n)
    ensures Core(Posted(st, n, data), None, st.clock) && Posted(st, n, data).clock == st.clock
    ensures Posted(st, n, data).tasklets == st.tasklets
  {
    hide Line, Waiting, Contents, Ordered, Lists, Placed, Insert;
    var r := st.recs[n].(data := data);
    ReviseCore(st, n, r, st.clock);
    WriteCore(Revised(st, n, r), n, st.clock);
  }

  lemma SentInv(st: State, data: Event, spare: Option<Storage>)
    requires Inv(st) && New(st, spare)
    ensures Inv(Sent(st, data, spare))
  {
    hide Contents, Ordered, Placed, InHand, Posted, TakenEvent, TaskletIds;
    if Registered(st, data.receiver) && NextEvent(st, spare).Some? {
      TakenEventCore(st, spare);
      PostedCore(TakenEvent(st, spare), NextEvent(st, spare).value, data);
    }
  }

  lemma CreatedInv(st: State, handler: nat, initType: U8, memory: bool, spare: Option<Storage>)
    requires Inv(st) && New(st, spare) && FreeId(TaskletIds(st.tasklets), 0) < 128
    ensures Inv(Created(st, handler, initType, memory, spare))
  {
    hide Posted, TakenEvent, FreeId, TaskletIds, Contents, Ordered, Placed, InHand, TaskletsOk;
    if !HandlerKnown(st, handler) && memory && NextEvent(st, spare).Some? {
      var id, n := FreeId(TaskletIds(st.tasklets), 0), NextEvent(st, spare).value;
      TakenEventCore(st, spare);
      var s := TakenEvent(st, spare);
      var t := s.(tasklets := st.tasklets + [Tasklet(id, handler)]);
      NewTasklet(st.tasklets, id, handler);
      TaskletCore(s, t, n);
      assert t.running != Some(n);
      PostedCore(t, n, Event(id, 0, initType, 0, 0, Low, 0));
    }
  }

  lemma TaskletCore(s: State, t: State, n: Storage)
    requires Core(s, Some(n), s.clock) && t == s.(tasklets := t.tasklets)
    requires forall i | i in TaskletIds(s.tasklets) :: i in TaskletIds(t.tasklets)
    ensures Core(t, Some(n), t.clock)
  {
    hide Waiting, Fired, Ordered, TaskletIds;
    FreeListsCore(s, t, s.clock);
  }

  /** A new handler gets an id of its own, and those there keep theirs. */
  lemma NewTasklet(tasklets: seq<Tasklet>, id: int, handler: nat)
    requires TaskletsOk(tasklets) && 0 <= id < 128 && id !in TaskletIds(tasklets)
    requires forall k | 0 <= k < |tasklets| :: tasklets[k].handler != handler
    ensures var t := tasklets + [Tasklet(id, handler)];
      TaskletsOk(t) && id in TaskletIds(t) && forall i | i in TaskletIds(tasklets) :: i in TaskletIds(t)
  {
    hide TaskletIds, Distinct;
    assert TaskletIds(tasklets + [Tasklet(id, handler)]) == TaskletIds(tasklets) + [id];
    AppendDistinct(TaskletIds(tasklets), id);
  }

  lemma SentUserInv(st: State, n: Storage, data: Event)
    requires Inv(st) && Allowed(st, SendUser(n, data))
    ensures Inv(SentUser(st, n, data))
  {
    hide Line, Waiting, Ordered, Write, TaskletIds;
    var r := Rec(data, User, Unqueued, 0, 0, 0, 0, None);
    var s := Revised(st, n, r);
    assert Owned(s, Some(n));
    ReviseContents(st, n, r, st.clock);
    ReviseOrdered(st, n, r);
    WriteCore(s, n, st.clock);
    assert Write(s, n).tasklets == st.tasklets && Write(s, n).clock == st.clock by { KeepsTasklets(s, n); }
  }

  lemma KeepsTasklets(st: State, n: Storage)
    requires n in st.recs
    ensures Write(st, n).tasklets == st.tasklets && Write(st, n).clock == st.clock
  {
  }

  // ---------------------------------------------------------------- timers

  lemma TakenTimerCore(st: State, data: Event, due: int, period: U32, spare: Option<Storage>)
    requires Inv(st) && New(st, spare) && NextTimer(st, spare).Some?
    ensures var n, t := NextTimer(st, spare).value, TakenTimer(st, data, due, period, spare);
      && Core(t, Some(n), t.clock) && n in t.timers && t.running != Some(n) && t.tasklets == st.tasklets && t.clock == st.clock
      && t.recs[n] == Rec(data, Timer, Unqueued, due, period, st.clock, 0, None)
  {
    hide Fired, Waiting, Line, Ordered, TaskletIds;
    TakenTimerOwned(st, data, due, period, spare);
    FreeListsCore(st, TakenTimer(st, data, due, period, spare), st.clock);
  }

  lemma RequestedInv(st: State, data: Event, delay: int, period: U32, spare: Option<Storage>)
    requires Inv(st) && Allowed(st, Request(data, delay, period, spare))
    ensures Inv(Requested(st, data, delay, period, spare))
  {
    hide Contents, Ordered, Owned, TakenTimer, TaskletIds, Insert, TaskletsOk;
    if Registered(st, data.receiver) && NextTimer(st, spare).Some? {
      var n := NextTimer(st, spare).value;
      TakenTimerCore(st, data, st.clock + delay, period, spare);
      var s := TakenTimer(st, data, st.clock + delay, period, spare);
      InHandUnlisted(s, n);
      if delay <= 0 {
        SendTimerCore(s, n, s.clock);
      } else {
        FirstBeat(st.clock, period);
        AddPendingCore(s, n);
      }
    }
  }

  lemma InHandUnlisted(st: State, n: Storage)
    requires Owned(st, Some(n))
    ensures n in st.recs && Unlisted(st, n)
  {
  }

  lemma FirstBeat(base: nat, period: nat)
    ensures Beat(base, period, 1) == base + period
  {
    assert Beat(base, period, 0) == base;
  }

  // ---------------------------------------------------------------- ticks

  /** The first pending timer, when its time has come, is newer than everything in line and older than what stays pending. */
  lemma FirstPending(st: State)
    requires Ordered(st) && Known(st, st.pending) && Distinct(st.pending) && st.pending != [] && st.recs[st.pending[0]].due <= st.clock
    ensures var s := st.(pending := st.pending[1..]);
      Newest(s, st.pending[0]) && Precedes(s, TagOf(st.recs, st.pending[0]))
  {
    hide Tags;
    var n, s := st.pending[0], st.(pending := st.pending[1..]);
    forall x | x in Line(s) ensures Tidy(x, TagOf(st.recs, n)) {
      assert x in Line(st) && Precedes(st, x);
    }
    forall m | m in s.pending ensures Less(TagOf(st.recs, n), TagOf(st.recs, m)) {
      var j :| 0 <= j < |s.pending| && s.pending[j] == m;
      assert st.pending[j + 1] == m;
    }
  }

  lemma ExpireOne(st: State, since: nat)
    requires Core(st, None, since) && st.pending != [] && st.recs[st.pending[0]].due <= st.clock
    ensures var t := SendTimer(st.(pending := st.pending[1..]), st.pending[0]);
      Core(t, None, since) && t.clock == st.clock && t.tasklets == st.tasklets && t.pending == st.pending[1..]
  {
    hide Tags, TaskletIds, Line, Slot, Insert;
    var n, s := st.pending[0], st.(pending := st.pending[1..]);
    assert Waiting(st, n, since);
    PopPendingOwned(st);
    PopPendingOrdered(st);
    FewerContents(st, s.pending, s.queue, since);
    FirstPending(st);
    SendTimerOwned(s, n);
    assert Revised(s, n, s.recs[n].(allocator := Timer)) == s;
    WriteContents(s, n, since);
    WriteOrdered(s, n);
  }

  lemma {:induction false} ExpireCore(st: State, since: nat)
    requires Core(st, None, since)
    ensures Core(Expire(st), None, Expire(st).clock) && Expire(st).clock == st.clock && Expire(st).tasklets == st.tasklets
    ensures forall n | n in Expire(st).pending :: n in Expire(st).recs && st.clock < Expire(st).recs[n].due
    decreases |st.pending|
  {
    hide Ordered, Contents, SendTimer, Placed;
    if st.pending != [] && st.recs[st.pending[0]].due <= st.clock {
      ExpireOne(st, since);
      ExpireCore(SendTimer(st.(pending := st.pending[1..]), st.pending[0]), since);
    } else {
      NoneExpired(st, since);
    }
  }

  /** When the first pending timer is not due, none is. */
  lemma NoneExpired(st: State, since: nat)
    requires Core(st, None, since) && (st.pending == [] || st.clock < st.recs[st.pending[0]].due)
    ensures Core(st, None, st.clock)
    ensures forall n | n in st.pending :: st.clock < st.recs[n].due
  {
    hide Owned, Line, Registered;
    forall n | n in st.pending ensures n in st.recs && st.clock < st.recs[n].due && Waiting(st, n, st.clock) {
      var j :| 0 <= j < |st.pending| && st.pending[j] == n;
      assert Waiting(st, n, since) && Waiting(st, st.pending[0], since);
      assert j > 0 ==> Less(TagOf(st.recs, st.pending[0]), TagOf(st.recs, n));
    }
  }

  lemma TickedInv(st: State, ticks: nat)
    requires Inv(st)
    ensures Inv(Ticked(st, ticks)) && Ticked(st, ticks).clock == st.clock + ticks
  {
    hide TaskletIds, TaskletsOk, Contents, Ordered, Placed, InHand, Expire;
    var t := st.(clock := st.clock + ticks);
    LaterOwned(st, t);
    LaterCore(st, t);
    ExpireCore(t, st.clock);
  }

  lemma LaterOwned(st: State, t: State)
    requires Owned(st, None) && t == st.(clock := t.clock)
    ensures Owned(t, None)
  {
  }

  lemma LaterCore(st: State, t: State)
    requires Contents(st, st.clock) && Ordered(st) && t == st.(clock := t.clock) && st.clock <= t.clock
    ensures Contents(t, st.clock) && Ordered(t)
  {
    hide TaskletIds, Tags;
    assert Line(t) == Line(st);
    forall x | x in Line(t) ensures Precedes(t, x) {
      assert Precedes(st, x);
    }
    forall n | n in t.pending ensures Waiting(t, n, st.clock) {
      assert Waiting(st, n, st.clock);
    }
    forall n | n in t.queue ensures Fired(t, n) {
      assert Fired(st, n);
    }
  }

  // ---------------------------------------------------------------- events that are over

  /** An event that is over: if it is a periodic timer's, its time had come. */
  ghost predicate Over(st: State, n: Storage) {
    && n in st.recs
    && (st.recs[n].allocator == Timer && st.recs[n].period > 0 ==> Fired(st, n))
    && (st.recs[n].allocator == StartupPool ==> st.recs[n].stamp.None?)
  }

  lemma TimerFreedCore(st: State, n: Storage)
    requires Core(st, Some(n), st.clock) && n in st.timers && st.recs[n].state == Unqueued && Over(st, n)
    ensures var t := TimerEventFreed(st, n); Core(t, None, t.clock) && t.clock == st.clock && t.tasklets == st.tasklets
  {
    hide TaskletIds, Contents, Ordered, Placed, Insert, Distinct, Known;
    var r := st.recs[n];
    if r.period == 0 {
      TimerFreedOwned(st, n);
      FreedCore(st, TimerEventFreed(st, n), n);
    } else {
      var q := r.(due := r.due + r.period, runs := r.runs + 1, stamp := None);
      var s := Revised(st, n, q);
      assert Beat(r.base, r.period, q.runs + 1) == Beat(r.base, r.period, r.runs + 1) + r.period;
      ReviseCore(st, n, q, st.clock);
      if q.due <= st.clock {
        SendTimerCore(s, n, st.clock);
      } else {
        AddPendingCore(s, n);
      }
    }
  }

  /** A storage in hand goes to a free list, or back to the heap. */
  lemma FreedCore(st: State, t: State, n: Storage)
    requires Core(st, Some(n), st.clock) && Over(st, n)
    requires t == st.(recs := t.recs, eventFree := t.eventFree, timerFree := t.timerFree)
    requires t.eventFree == st.eventFree || (t.eventFree == [n] + st.eventFree && n in t.recs && t.recs[n].stamp.None?)
    requires forall m | m in st.recs && m != n :: m in t.recs && t.recs[m] == st.recs[m]
    requires st.recs[n].allocator != User
    ensures Contents(t, t.clock) && Ordered(t)
  {
    hide Ordered, Placed, Waiting, Fired, TaskletIds;
    FreeListsCore(st, t, st.clock);
  }

  lemma FreePushedCore(st: State, n: Storage)
    requires Core(st, Some(n), st.clock) && Over(st, n)
    ensures var t := FreePushed(st, n); Core(t, None, t.clock) && t.clock == st.clock && t.tasklets == st.tasklets
  {
    hide TaskletIds, Contents, Ordered, Placed, Lists, Fired, TimerEventFreed;
    FreePushedOwned(st, n);
    var r := st.recs[n];
    if r.allocator == Timer {
      UnqueuedFires(st, n);
      ReviseCore(st, n, r.(state := Unqueued), st.clock);
      TimerFreedCore(Revised(st, n, r.(state := Unqueued)), n);
    } else if r.allocator != User {
      FreedCore(st, FreePushed(st, n), n);
    }
  }

  lemma UnqueuedFires(st: State, n: Storage)
    requires n in st.recs
    ensures Fired(Revised(st, n, st.recs[n].(state := Unqueued)), n) == Fired(st, n)
  {
    hide TaskletIds;
  }

  lemma BegunInv(st: State)
    requires Inv(st) && st.running.None?
    ensures Inv(Begun(st))
  {
    hide TaskletIds, TaskletsOk;
    if st.queue != [] {
      BegunOwned(st);
      BegunContents(st);
      BegunOrdered(st);
    }
  }

  lemma BegunContents(st: State)
    requires Owned(st, None) && Contents(st, st.clock) && st.queue != []
    ensures Contents(Begun(st), st.clock)
  {
    hide TaskletIds, Placed;
    var t, n := Begun(st), st.queue[0];
    TailDistinct(st.queue);
    assert Fired(st, n) && Placed(st, n);
    QueuedIsNotPending(st, n);
    forall m | m in t.pending ensures Waiting(t, m, st.clock) {
      assert Waiting(st, m, st.clock);
    }
    forall m | m in t.queue ensures Fired(t, m) {
      assert Fired(st, m);
    }
  }

  lemma QueuedIsNotPending(st: State, n: Storage)
    requires Owned(st, None) && n in st.queue
    ensures n !in st.pending && n !in st.eventFree && n !in st.timerFree && n in st.recs && st.recs[n].state == Queued
  {
    assert Placed(st, n);
  }

  lemma BegunOrdered(st: State)
    requires Owned(st, None) && Ordered(st) && st.queue != []
    ensures Ordered(Begun(st)) && Line(Begun(st)) == Line(st)
  {
    hide Tags, Placed, Key, Line, Begun, InOrder, Less;
    var t := Begun(st);
    BegunLine(st);
    BegunSorted(st);
    forall x | x in Line(t) ensures Precedes(t, x) {
      assert Precedes(st, x);
    }
    assert PendingOrdered(t.pending, t.recs);
  }

  /** Delivering the first queued event leaves the line as it is. */
  lemma BegunLine(st: State)
    requires Owned(st, None) && st.queue != []
    ensures var t := Begun(st);
      Line(t) == Line(st) && t.clock == st.clock && t.pending == st.pending
      && forall m | m in st.pending :: TagOf(t.recs, m) == TagOf(st.recs, m)
  {
    hide Tags, Placed, Distinct, TagOf;
    OthersKept(st);
    HeadTags(st.queue, st.recs, Begun(st).recs);
    DeliveredTag(st);
  }

  lemma DeliveredTag(st: State)
    requires st.queue != [] && st.queue[0] in st.recs
    ensures Begun(st).delivered == st.delivered + [TagOf(st.recs, st.queue[0])] && Begun(st).queue == st.queue[1..]
  {
  }

  lemma OthersKept(st: State)
    requires Owned(st, None) && st.queue != []
    ensures forall m | m in st.pending || m in st.queue[1..] :: TagOf(Begun(st).recs, m) == TagOf(st.recs, m)
  {
    hide Placed;
    TailDistinct(st.queue);
    QueuedIsNotPending(st, st.queue[0]);
  }

  lemma HeadTags(q: seq<Storage>, r1: map<Storage, Rec>, r2: map<Storage, Rec>)
    requires q != [] && forall m | m in q[1..] :: TagOf(r2, m) == TagOf(r1, m)
    ensures Tags(q, r1) == [TagOf(r1, q[0])] + Tags(q[1..], r2)
  {
    hide Tags, TagOf;
    forall j | 0 <= j < |q| - 1 ensures Tags(q[1..], r2)[j] == Tags(q, r1)[j + 1] {
      assert q[1..][j] == q[j + 1] && q[1..][j] in q[1..];
    }
  }

  lemma BegunSorted(st: State)
    requires Owned(st, None) && Sorted(st.queue, st.recs, ByPriority) && st.queue != []
    ensures Sorted(Begun(st).queue, Begun(st).recs, ByPriority)
  {
    hide Placed, Key;
    var t := Begun(st);
    TailDistinct(st.queue);
    forall i, j | 0 <= i < j < |t.queue| ensures Key(t.recs, ByPriority, t.queue[i]) <= Key(t.recs, ByPriority, t.queue[j]) {
      assert Key(st.recs, ByPriority, st.queue[i + 1]) <= Key(st.recs, ByPriority, st.queue[j + 1]);
      SameKey(st.recs, t.recs, t.queue[i]);
      SameKey(st.recs, t.recs, t.queue[j]);
    }
  }

  lemma SameKey(r1: map<Storage, Rec>, r2: map<Storage, Rec>, n: Storage)
    requires n in r1 && n in r2 && r1[n] == r2[n]
    ensures forall o :: Key(r1, o, n) == Key(r2, o, n)
  {
  }

  lemma EndedInv(st: State)
    requires Inv(st) && st.running.Some?
    ensures Inv(Ended(st))
  {
    hide TaskletIds, TaskletsOk, Ordered, Placed, FreePushed, Fired, Waiting;
    var n := st.running.value;
    var s := st.(running := None);
    EndedOwned(st);
    NotRunningCore(st);
    if st.recs[n].allocator == User {
      assert Ended(st) == s by { UserFree(s, n); }
    } else {
      RunningInHand(st);
      RunningOver(st);
      FreePushedCore(s, n);
    }
  }

  lemma UserFree(st: State, n: Storage)
    requires n in st.recs && st.recs[n].allocator == User
    ensures FreePushed(st, n) == st
  {
  }

  lemma NotRunningCore(st: State)
    requires Contents(st, st.clock) && Ordered(st)
    ensures Contents(st.(running := None), st.clock) && Ordered(st.(running := None))
  {
    hide TaskletIds, Tags;
    var t := st.(running := None);
    assert Line(t) == Line(st);
    forall x | x in Line(t) ensures Precedes(t, x) {
      assert Precedes(st, x);
    }
    forall n | n in t.pending ensures Waiting(t, n, st.clock) {
      assert Waiting(st, n, st.clock);
    }
    forall n | n in t.queue ensures Fired(t, n) {
      assert Fired(st, n);
    }
  }

  lemma RunningInHand(st: State)
    requires Owned(st, None) && st.running.Some? && st.recs[st.running.value].allocator != User
    ensures Owned(st.(running := None), st.running)
  {
  }

  lemma RunningOver(st: State)
    requires Inv(st) && st.running.Some?
    ensures Over(st.(running := None), st.running.value)
  {
    hide TaskletIds;
    assert Fired(st, st.running.value);
  }

  // ---------------------------------------------------------------- cancelling

  /** A timer loses its period, wherever it is. */
  lemma PeriodCore(st: State, n: Storage)
    requires Core(st, None, st.clock) && n in st.recs
    ensures Core(Revised(st, n, st.recs[n].(period := 0)), None, st.clock)
  {
    hide TaskletIds, Tags, Placed;
    var t := Revised(st, n, st.recs[n].(period := 0));
    PeriodOwned(st, n);
    assert Tags(t.queue, t.recs) == Tags(st.queue, st.recs);
    forall x | x in Line(t) ensures Precedes(t, x) {
      assert Precedes(st, x);
    }
    forall m | m in t.pending ensures Waiting(t, m, st.clock) {
      assert Waiting(st, m, st.clock);
    }
    forall m | m in t.queue ensures Fired(t, m) {
      assert Fired(st, m);
    }
  }

  lemma CancelledInv(st: State, n: Storage)
    requires Inv(st) && Live(st, n)
    ensures Inv(Cancelled(st, n))
  {
    hide TaskletIds, TaskletsOk, Owned, Ordered, Contents, FreePushed, Minus;
    CancelledCases(st, n);
    var r := st.recs[n];
    var s := if r.allocator == Timer then Revised(st, n, r.(period := 0)) else st;
    PeriodCore(st, n);
    if r.state != Running {
      var t := s.(pending := if r.allocator == Timer && r.state == Unqueued then Minus(s.pending, n) else s.pending,
                  queue := if r.state == Queued then Minus(s.queue, n) else s.queue);
      UnlinkedCore(s, t, n);
      UnlinkedOver(st, n);
      FreePushedCore(t, n);
    }
  }

  lemma UnlinkedCore(s: State, t: State, n: Storage)
    requires Core(s, None, s.clock) && n in s.recs && (n in s.pending || n in s.queue)
    requires t.pending == (if n in s.pending then Minus(s.pending, n) else s.pending)
    requires t.queue == (if n in s.queue then Minus(s.queue, n) else s.queue)
    requires t == s.(pending := t.pending, queue := t.queue)
    ensures Core(t, Some(n), t.clock)
  {
    hide Owned, Ordered, Waiting, Fired;
    UnlinkedOwned(s, n, t.pending, t.queue);
    UnlinkedOrdered(s, n, t.pending, t.queue);
    FewerContents(s, t.pending, t.queue, s.clock);
  }

  /** A queued event's stamp tells it is a timer's, and a cancelled timer has no period. */
  lemma UnlinkedOver(st: State, n: Storage)
    requires Inv(st) && n in st.recs && (n in st.pending || n in st.queue)
    ensures st.recs[n].allocator == StartupPool ==> st.recs[n].stamp.None?
  {
    hide TaskletIds;
    assert Placed(st, n);
    assert n in st.queue ==> Fired(st, n);
  }

  lemma TimerCancelledInv(st: State, eventId: U8, tasklet: I8)
    requires Inv(st)
    ensures Inv(TimerCancelled(st, eventId, tasklet))
  {
    hide Inv, Cancelled, CancelTarget;
    var m := CancelTarget(st, eventId, tasklet);
    if m.Some? {
      CancelledInv(st, m.value);
    }
  }

  // ---------------------------------------------------------------- runs

  lemma StepInv(st: State, op: Op)
    requires Inv(st)
    ensures Inv(Step(st, op))
  {
    hide Created, Sent, SentUser, Requested, Ticked, Cancelled, TimerCancelled, Begun, Ended;
    hide Contents, Ordered, Placed, InHand, TaskletsOk, TaskletIds;
    if Allowed(st, op) {
      match op
      case Create(handler, initType, memory, spare) => CreatedInv(st, handler, initType, memory, spare);
      case Send(data, spare) => SentInv(st, data, spare);
      case SendUser(n, data) => SentUserInv(st, n, data);
      case Request(data, delay, period, spare) => RequestedInv(st, data, delay, period, spare);
      case TickUpdate(ticks) => TickedInv(st, ticks);
      case Cancel(n) => CancelledInv(st, n);
      case CancelTimer(eventId, tasklet) => TimerCancelledInv(st, eventId, tasklet);
      case Begin => BegunInv(st);
      case End => EndedInv(st);
    }
  }

  ghost function Run(st: State, ops: seq<Op>): (t: State)
    requires Inv(st)
    ensures Inv(t)
    decreases |ops|
  {
    if ops == [] then st else StepInv(st, ops[0]); Run(Step(st, ops[0]), ops[1..])
  }
}
