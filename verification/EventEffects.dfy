/** What each operation of the event loop does: which event goes where, behind which others, and what stays as it was. */
module EventEffects {
  import opened Basics
  import opened EventTypes
  import opened EventSpec
  import opened EventInvariants
  import opened EventOrder
  import opened EventRuns
  import opened EventTheorems
  import opened CancelTheorems

  /** No other record than that of `n` has changed, come or gone. */
  ghost predicate OnlyTouches(st: State, t: State, n: Storage) {
    && (forall m | m in st.recs && m != n :: m in t.recs && t.recs[m] == st.recs[m])
    && (forall m | m in t.recs && m != n :: m in st.recs)
  }

  /** The three FIFOs are as before, except that `n` is the last of those of its priority. */
  ghost predicate Appended(st: State, t: State, n: Storage) {
    && n in t.recs && t.recs[n].state == Queued && n in t.queue
    && Of(t.queue, t.recs, High) == Of(st.queue, st.recs, High) + (if t.recs[n].data.priority == High then [n] else [])
    && Of(t.queue, t.recs, Medium) == Of(st.queue, st.recs, Medium) + (if t.recs[n].data.priority == Medium then [n] else [])
    && Of(t.queue, t.recs, Low) == Of(st.queue, st.recs, Low) + (if t.recs[n].data.priority == Low then [n] else [])
    && t.queue == Of(t.queue, t.recs, High) + Of(t.queue, t.recs, Medium) + Of(t.queue, t.recs, Low)
  }

  /** The pending list is as before, except that `n` is in it, behind all that are due no later and before all others. */
  ghost predicate Inserted(st: State, t: State, n: Storage) {
    && n in t.recs && t.recs[n].state == Unqueued
    && exists k | 0 <= k <= |st.pending| ::
         && t.pending == st.pending[..k] + [n] + st.pending[k..]
         && (forall j | 0 <= j < k :: st.pending[j] in st.recs && st.recs[st.pending[j]].due <= t.recs[n].due)
         && (forall j | k <= j < |st.pending| :: st.pending[j] in st.recs && t.recs[n].due < st.recs[st.pending[j]].due)
  }

  /** `n` has the same priority in both, or is in the queue of neither. */
  lemma SameSorted(s: seq<Storage>, r1: map<Storage, Rec>, r2: map<Storage, Rec>)
    requires Sorted(s, r1, ByPriority) && SameRecs(s, r1, r2)
    ensures Sorted(s, r2, ByPriority)
  {
    hide Key;
    forall i, j | 0 <= i < j < |s| ensures Key(r2, ByPriority, s[i]) <= Key(r2, ByPriority, s[j]) {
      SameKey(r1, r2, s[i]);
      SameKey(r1, r2, s[j]);
    }
  }

  lemma QueueingAppends(st: State, s: State, n: Storage)
    requires Sorted(st.queue, st.recs, ByPriority) && SameRecs(st.queue, st.recs, s.recs) && s.queue == st.queue
    requires n in s.recs && n !in st.queue
    ensures var t := Write(s, n);
      && Appended(st, t, n) && n in t.recs && t == s.(queue := t.queue, recs := t.recs)
      && t.recs[n] == s.recs[n].(state := Queued) && OnlyTouches(s, t, n)
  {
    hide Of, Key, Slot;
    SameSorted(st.queue, st.recs, s.recs);
    var t := Write(s, n);
    AppendsTo(st, s, n, High);
    AppendsTo(st, s, n, Medium);
    AppendsTo(st, s, n, Low);
    WrittenSorted(s, n);
    QueueIsThreeFifos(t.queue, t.recs);
  }

  lemma AppendsTo(st: State, s: State, n: Storage, p: Priority)
    requires Sorted(s.queue, s.recs, ByPriority) && SameRecs(st.queue, st.recs, s.recs) && s.queue == st.queue && n in s.recs
    ensures var t := Write(s, n);
      n in t.recs && Of(t.queue, t.recs, p) == Of(st.queue, st.recs, p) + (if t.recs[n].data.priority == p then [n] else [])
  {
    hide Of, Insert, Sorted;
    OfSame(st.queue, st.recs, s.recs, p);
    WriteAppendsToFifo(s, n, p);
  }

  lemma WrittenSorted(s: State, n: Storage)
    requires Sorted(s.queue, s.recs, ByPriority) && Known(s, s.queue) && n in s.recs
    ensures var t := Write(s, n); Sorted(t.queue, t.recs, ByPriority) && forall m | m in t.queue :: m in t.recs
  {
    hide Slot, Key, Sorted;
    var t := Write(s, n);
    InsertSorted(s.queue, s.recs, ByPriority, n);
    KeysKept(t.queue, s.recs, t.recs, n);
  }

  /** Sorting does not depend on the state of a storage. */
  lemma KeysKept(q: seq<Storage>, r1: map<Storage, Rec>, r2: map<Storage, Rec>, n: Storage)
    requires Sorted(q, r1, ByPriority) && n in r1 && r2 == r1[n := r1[n].(state := Queued)]
    ensures Sorted(q, r2, ByPriority)
  {
    assert forall m :: Key(r1, ByPriority, m) == Key(r2, ByPriority, m);
  }

  /** What the invariant says of the lists, for use below. */
  lemma ListFacts(st: State)
    requires Inv(st)
    ensures Owned(st, None) && Sorted(st.queue, st.recs, ByPriority)
    ensures forall n | n in st.queue || n in st.eventFree || n in st.timerFree || n in st.pending :: n in st.recs
    ensures forall n | n in st.eventFree || n in st.timerFree || n in st.pending || n !in st.recs :: n !in st.queue
    ensures forall n | n in st.eventFree :: st.recs[n].allocator == StartupPool
    ensures forall n | n in st.timerFree || n in st.pending :: n !in st.eventFree
    ensures st.running.Some? ==> st.running.value in st.recs
    ensures forall n | n in st.eventFree || n in st.timerFree :: st.running != Some(n)
  {
    hide Contents, TaskletsOk, Line, Sorted;
    forall n | n in st.eventFree || n in st.timerFree || n in st.pending ensures n !in st.queue && st.running != Some(n) {
      assert Placed(st, n);
    }
    forall n | n in st.eventFree ensures st.recs[n].allocator == StartupPool {
      assert Placed(st, n);
    }
    forall n | n in st.timerFree || n in st.pending ensures n !in st.eventFree {
      assert Placed(st, n);
    }
  }

  // ---------------------------------------------------------------- sending

  /** Is there a handler with this id? */
  ghost predicate HasReceiver(st: State, id: int) {
    exists k | 0 <= k < |st.tasklets| :: st.tasklets[k].id == id
  }

  lemma ReceiverIsRegistered(st: State, id: int)
    ensures HasReceiver(st, id) <==> Registered(st, id)
  {
    hide TaskletIds;
    if Registered(st, id) {
      var k :| 0 <= k < |TaskletIds(st.tasklets)| && TaskletIds(st.tasklets)[k] == id;
      assert st.tasklets[k].id == id;
    }
    if k :| 0 <= k < |st.tasklets| && st.tasklets[k].id == id {
      assert TaskletIds(st.tasklets)[k] == id;
    }
  }

  /**
   Sending to a handler there is: the first free startup event, or else a new one from the heap, holds exactly the
   event sent, is the last of its priority, and nothing else has changed. Without handler or storage nothing happens.
   */
  lemma SendQueues(st: State, data: Event, spare: Option<Storage>)
    requires Inv(st) && New(st, spare)
    ensures Owned(st, None)
    ensures var t := Step(st, Send(data, spare));
      if !HasReceiver(st, data.receiver) || (st.eventFree == [] && spare.None?) then t == st
      else
        var n := if st.eventFree != [] then st.eventFree[0] else spare.value;
        && Appended(st, t, n) && OnlyTouches(st, t, n) && t.recs[n].data == data
        && t.recs[n].allocator == (if st.eventFree != [] then StartupPool else Dynamic)
        && t.eventFree == (if st.eventFree != [] then st.eventFree[1..] else [])
        && t == st.(queue := t.queue, eventFree := t.eventFree, recs := t.recs)
  {
    hide Inv, Of, TaskletIds, Write, Appended, Sorted, Owned;
    ListFacts(st);
    ReceiverIsRegistered(st, data.receiver);
    if HasReceiver(st, data.receiver) && NextEvent(st, spare).Some? {
      var n, s := NextEvent(st, spare).value, TakenEvent(st, spare);
      QueueingAppends(st, Revised(s, n, s.recs[n].(data := data)), n);
    }
  }

  /** Sending in a storage of one's own: it holds exactly that event, is the last of its priority, and nothing else has changed. */
  lemma SendUserQueues(st: State, n: Storage, data: Event)
    requires Inv(st) && Allowed(st, SendUser(n, data))
    ensures Owned(st, None)
    ensures var t := Step(st, SendUser(n, data));
      && Appended(st, t, n) && OnlyTouches(st, t, n) && t.recs[n].data == data && t.recs[n].allocator == User
      && t == st.(queue := t.queue, recs := t.recs)
  {
    hide Inv, Of, TaskletIds, Write, Appended, Sorted, Owned;
    ListFacts(st);
    QueueingAppends(st, Revised(st, n, Rec(data, User, Unqueued, 0, 0, 0, 0, None)), n);
  }

  /**
   Creating a handler that is not known yet, with memory for it and an event: it gets the lowest free id and is the last
   of the handlers, its first event is the last of low priority, and nothing else has changed. Else nothing happens.
   */
  lemma CreateQueues(st: State, handler: nat, initType: U8, memory: bool, spare: Option<Storage>)
    requires Inv(st) && Allowed(st, Create(handler, initType, memory, spare))
    ensures Owned(st, None)
    ensures var t := Step(st, Create(handler, initType, memory, spare));
      if (exists k | 0 <= k < |st.tasklets| :: st.tasklets[k].handler == handler) || !memory || (st.eventFree == [] && spare.None?)
      then t == st
      else
        && |t.tasklets| == |st.tasklets| + 1 && t.tasklets[..|st.tasklets|] == st.tasklets
        && var id := t.tasklets[|st.tasklets|].id; var n := if st.eventFree != [] then st.eventFree[0] else spare.value;
        && t.tasklets[|st.tasklets|].handler == handler
        && !HasReceiver(st, id) && (forall i | 0 <= i < id :: HasReceiver(st, i)) && 0 <= id < 128
        && Appended(st, t, n) && OnlyTouches(st, t, n) && t.recs[n].data == Event(id, 0, initType, 0, 0, Low, 0)
        && t.eventFree == (if st.eventFree != [] then st.eventFree[1..] else [])
        && t == st.(queue := t.queue, eventFree := t.eventFree, recs := t.recs, tasklets := t.tasklets)
  {
    hide Inv, Of, TaskletIds, Write, Appended, Sorted, Owned, FreeId;
    ListFacts(st);
    forall i ensures HasReceiver(st, i) <==> i in TaskletIds(st.tasklets) {
      ReceiverIsRegistered(st, i);
    }
    if !HandlerKnown(st, handler) && memory && NextEvent(st, spare).Some? {
      var id, n := FreeId(TaskletIds(st.tasklets), 0), NextEvent(st, spare).value;
      var s := TakenEvent(st, spare).(tasklets := st.tasklets + [Tasklet(id, handler)]);
      QueueingAppends(st, Revised(s, n, s.recs[n].(data := Event(id, 0, initType, 0, 0, Low, 0))), n);
    }
  }

  // ---------------------------------------------------------------- timers

  lemma PendingInserts(st: State, s: State, n: Storage)
    requires PendingOrdered(st.pending, st.recs) && SameRecs(st.pending, st.recs, s.recs) && s.pending == st.pending
    requires n in s.recs && s.recs[n].state == Unqueued && n !in st.pending
    ensures var t := AddPending(s, n);
      && Inserted(st, t, n) && n in t.recs && t == s.(pending := t.pending, recs := t.recs, stamps := s.stamps + 1)
      && t.recs[n] == s.recs[n].(stamp := Some(s.stamps)) && OnlyTouches(s, t, n)
  {
    hide Slot;
    var r := Revised(s, n, s.recs[n].(stamp := Some(s.stamps)));
    var k := Slot(r.pending, r.recs, ByDue, Key(r.recs, ByDue, n), 0);
    forall j | 0 <= j < |st.pending| ensures st.pending[j] in st.recs && Key(r.recs, ByDue, st.pending[j]) == st.recs[st.pending[j]].due {
      assert st.pending[j] in st.pending;
    }
    forall j | k <= j < |st.pending| ensures s.recs[n].due < st.recs[st.pending[j]].due {
      assert j > k ==> Less(TagOf(st.recs, st.pending[k]), TagOf(st.recs, st.pending[j]));
    }
  }

  lemma OrderFacts(st: State)
    requires Inv(st)
    ensures PendingOrdered(st.pending, st.recs)
  {
    hide Line;
  }

  /**
   Requesting a timer: the first free struct, or else a new one, holds exactly the event, to be due `delay` ticks from
   now, with the period asked for. It is the last of its priority in the queue if the delay is not positive, and else
   pending. Nothing else has changed. Without handler or struct nothing happens.
   */
  lemma RequestSchedules(st: State, data: Event, delay: int, period: U32, spare: Option<Storage>)
    requires Inv(st) && Allowed(st, Request(data, delay, period, spare))
    ensures Owned(st, None)
    ensures var t := Step(st, Request(data, delay, period, spare));
      if !HasReceiver(st, data.receiver) || (st.timerFree == [] && spare.None?) then t == st
      else
        var n := if st.timerFree != [] then st.timerFree[0] else spare.value;
        && n in t.recs && t.recs[n].data == data && t.recs[n].allocator == Timer && t.recs[n].due == st.clock + delay
        && t.recs[n].period == period && t.recs[n].base == st.clock && t.recs[n].runs == 0
        && OnlyTouches(st, t, n) && t.timerFree == (if st.timerFree != [] then st.timerFree[1..] else [])
        && t.timers == st.timers + {n}
        && (if delay <= 0 then Appended(st, t, n) && t.pending == st.pending && t.stamps == st.stamps
            else Inserted(st, t, n) && t.queue == st.queue && t.stamps == st.stamps + 1)
        && t == st.(queue := t.queue, pending := t.pending, timerFree := t.timerFree, timers := t.timers, recs := t.recs, stamps := t.stamps)
  {
    hide Inv, Of, TaskletIds, Write, SendTimer, AddPending, Appended, Inserted, TakenTimer, OnlyTouches, Owned;
    ListFacts(st);
    ReceiverIsRegistered(st, data.receiver);
    if HasReceiver(st, data.receiver) && NextTimer(st, spare).Some? {
      if delay <= 0 {
        RequestedNow(st, data, delay, period, spare);
      } else {
        RequestedLater(st, data, delay, period, spare);
      }
    }
  }

  lemma RequestedNow(st: State, data: Event, delay: int, period: U32, spare: Option<Storage>)
    requires Inv(st) && New(st, spare) && NextTimer(st, spare).Some?
    ensures var n, s := NextTimer(st, spare).value, TakenTimer(st, data, st.clock + delay, period, spare);
      var t := SendTimer(s, n);
      && n in t.recs && t.recs[n] == Rec(data, Timer, Queued, st.clock + delay, period, st.clock, 0, None)
      && OnlyTouches(st, t, n) && Appended(st, t, n)
      && t == st.(queue := t.queue, timerFree := if st.timerFree != [] then st.timerFree[1..] else [], timers := st.timers + {n}, recs := t.recs)
  {
    hide Inv, Write, Appended, Sorted, Owned;
    ListFacts(st);
    StructUnlisted(st, spare);
    var n, s := NextTimer(st, spare).value, TakenTimer(st, data, st.clock + delay, period, spare);
    assert Revised(s, n, s.recs[n].(allocator := Timer)) == s;
    QueueingAppends(st, s, n);
  }

  lemma RequestedLater(st: State, data: Event, delay: int, period: U32, spare: Option<Storage>)
    requires Inv(st) && New(st, spare) && NextTimer(st, spare).Some?
    ensures var n, s := NextTimer(st, spare).value, TakenTimer(st, data, st.clock + delay, period, spare);
      var t := AddPending(s, n);
      && n in t.recs && t.recs[n] == Rec(data, Timer, Unqueued, st.clock + delay, period, st.clock, 0, Some(st.stamps))
      && OnlyTouches(st, t, n) && Inserted(st, t, n)
      && t == st.(pending := t.pending, timerFree := if st.timerFree != [] then st.timerFree[1..] else [], timers := st.timers + {n},
                  recs := t.recs, stamps := st.stamps + 1)
  {
    hide Inv, AddPending, Inserted, PendingOrdered, Owned;
    ListFacts(st);
    OrderFacts(st);
    StructUnlisted(st, spare);
    var n, s := NextTimer(st, spare).value, TakenTimer(st, data, st.clock + delay, period, spare);
    PendingInserts(st, s, n);
  }

  lemma StructUnlisted(st: State, spare: Option<Storage>)
    requires Owned(st, None) && New(st, spare) && NextTimer(st, spare).Some?
    ensures var n := NextTimer(st, spare).value; n !in st.queue && n !in st.pending
  {
    var n := NextTimer(st, spare).value;
    if n in st.recs {
      assert Placed(st, n);
    }
  }

  // ---------------------------------------------------------------- ticks

  /** `t` is `st` after the first `k` pending timers have been queued, in this order, each behind all others of its priority. */
  ghost predicate Moved(st: State, t: State, k: nat)
    requires k <= |st.pending|
  {
    && t.pending == st.pending[k..]
    && (forall m | m in st.recs :: m in t.recs && t.recs[m] == if m in st.pending[..k] then st.recs[m].(state := Queued) else st.recs[m])
    && (forall m | m in t.recs :: m in st.recs)
    && (forall p :: Of(t.queue, t.recs, p) == Of(st.queue, st.recs, p) + Of(st.pending[..k], st.recs, p))
    && t == st.(pending := t.pending, queue := t.queue, recs := t.recs)
  }

  lemma NoneMoved(st: State)
    ensures Moved(st, st, 0)
  {
    hide Of;
    assert st.pending[..0] == [] && st.pending[0..] == st.pending;
    forall p ensures Of(st.queue, st.recs, p) == Of(st.queue, st.recs, p) + Of([], st.recs, p) {
      OfCons([], st.recs, p);
    }
  }

  lemma OneMoved(st: State, s: State, t: State, k: nat)
    requires st.pending != [] && k <= |st.pending| - 1 && Distinct(st.pending) && forall m | m in st.pending :: m in st.recs
    requires s.pending == st.pending[1..] && Moved(s, t, k)
    requires var n := st.pending[0];
      && s.recs == st.recs[n := st.recs[n].(state := Queued)] && s == st.(pending := s.pending, queue := s.queue, recs := s.recs)
      && forall p :: Of(s.queue, s.recs, p) == Of(st.queue, st.recs, p) + (if st.recs[n].data.priority == p then [n] else [])
    ensures Moved(st, t, k + 1)
  {
    hide Of, Distinct;
    var n := st.pending[0];
    TailDistinct(st.pending);
    assert st.pending[..k + 1] == [n] + s.pending[..k];
    forall p ensures Of(t.queue, t.recs, p) == Of(st.queue, st.recs, p) + Of(st.pending[..k + 1], st.recs, p) {
      OfJoin([n], s.pending[..k], st.recs, p);
      OfOne(st.recs, n, p);
      OfSame(s.pending[..k], s.recs, st.recs, p);
    }
  }

  lemma {:induction false} ExpireMoves(st: State, since: nat) returns (k: nat)
    requires Core(st, None, since)
    ensures k <= |st.pending| && Moved(st, Expire(st), k)
    ensures forall j | 0 <= j < |st.pending| :: st.pending[j] in st.recs && (j < k <==> st.recs[st.pending[j]].due <= st.clock)
    decreases |st.pending|
  {
    hide Moved, Of, Contents, SendTimer;
    CoreFacts(st, since);
    if st.pending != [] && st.recs[st.pending[0]].due <= st.clock {
      var n, q := st.pending[0], st.(pending := st.pending[1..]);
      var s := SendTimer(q, n);
      ExpireOne(st, since);
      var i := ExpireMoves(s, since);
      FirstMoves(st);
      OneMoved(st, s, Expire(s), i);
      k := i + 1;
      forall j | 0 <= j < |st.pending| ensures st.pending[j] in st.recs && (j < k <==> st.recs[st.pending[j]].due <= st.clock) {
        assert j > 0 ==> s.pending[j - 1] == st.pending[j] && s.recs[s.pending[j - 1]].due == st.recs[st.pending[j]].due;
      }
    } else {
      k := 0;
      NoneMoved(st);
      NoneExpired(st, since);
      assert forall j | 0 <= j < |st.pending| :: st.pending[j] in st.pending;
    }
  }

  lemma CoreFacts(st: State, since: nat)
    requires Core(st, None, since)
    ensures Sorted(st.queue, st.recs, ByPriority) && Distinct(st.pending)
    ensures forall n | n in st.queue || n in st.pending :: n in st.recs
    ensures forall n | n in st.pending :: n !in st.queue && st.recs[n].allocator == Timer
  {
    hide Contents, Line, Sorted;
    forall n | n in st.pending ensures n !in st.queue && st.recs[n].allocator == Timer {
      assert Placed(st, n);
    }
  }

  lemma FirstMoves(st: State)
    requires st.pending != [] && Sorted(st.queue, st.recs, ByPriority) && Distinct(st.pending)
    requires (forall n | n in st.queue || n in st.pending :: n in st.recs)
    requires forall n | n in st.pending :: n !in st.queue && st.recs[n].allocator == Timer
    ensures var n := st.pending[0]; var s := SendTimer(st.(pending := st.pending[1..]), n);
      && s.recs == st.recs[n := st.recs[n].(state := Queued)] && s == st.(pending := s.pending, queue := s.queue, recs := s.recs)
      && s.pending == st.pending[1..]
      && forall p :: Of(s.queue, s.recs, p) == Of(st.queue, st.recs, p) + (if st.recs[n].data.priority == p then [n] else [])
  {
    hide Of, Sorted, Insert, Distinct;
    var n, q := st.pending[0], st.(pending := st.pending[1..]);
    assert Revised(q, n, q.recs[n].(allocator := Timer)) == q;
    forall p ensures var s := SendTimer(q, n);
      Of(s.queue, s.recs, p) == Of(st.queue, st.recs, p) + (if st.recs[n].data.priority == p then [n] else [])
    {
      AppendsTo(st, q, n, p);
    }
  }

  /**
   A tick update takes the pending timers whose time has come off the front of the pending list, all of them and no
   other, and queues them in this order, each behind all events of its priority. Their contents stay as they were.
   */
  lemma TickMoves(st: State, ticks: nat) returns (k: nat)
    requires Inv(st)
    ensures Owned(st, None) && k <= |st.pending|
    ensures Moved(st.(clock := st.clock + ticks), Step(st, TickUpdate(ticks)), k)
    ensures forall j | 0 <= j < |st.pending| :: st.pending[j] in st.recs && (j < k <==> st.recs[st.pending[j]].due <= st.clock + ticks)
  {
    hide Contents, Ordered, TaskletsOk, Moved, Expire;
    var t := st.(clock := st.clock + ticks);
    LaterOwned(st, t);
    LaterCore(st, t);
    k := ExpireMoves(t, st.clock);
  }

  // ---------------------------------------------------------------- dispatching

  /** The first queued event, if there is one, leaves the queue and runs, and nothing else changes. */
  lemma BeginRuns(st: State)
    requires Inv(st) && st.running.None?
    ensures Owned(st, None)
    ensures var t := Step(st, Begin);
      if st.queue == [] then t == st
      else
        var n := st.queue[0];
        && n in st.recs && n in t.recs && t.recs[n] == st.recs[n].(state := Running) && OnlyTouches(st, t, n)
        && t.running == Some(n) && t.queue == st.queue[1..]
        && t == st.(queue := t.queue, running := t.running, recs := t.recs, delivered := t.delivered)
        && |t.delivered| == |st.delivered| + 1 && t.delivered[..|st.delivered|] == st.delivered
        && t.delivered[|st.delivered|] == Tag(st.recs[n].data.priority, st.recs[n].due, st.recs[n].stamp)
  {
    hide Inv, Owned;
    ListFacts(st);
  }

  /** A periodic timer's next round: due one period later, with one more run completed. */
  ghost predicate Rearmed(st: State, t: State, n: Storage) {
    && n in st.recs && n in t.recs && t.recs[n].data == st.recs[n].data && t.recs[n].period == st.recs[n].period
    && t.recs[n].allocator == Timer && t.recs[n].due == st.recs[n].due + st.recs[n].period
    && t.recs[n].base == st.recs[n].base && t.recs[n].runs == st.recs[n].runs + 1
  }

  /** From `st`, in which nothing runs, to `t` storage `n` has been put where its allocator says, and nothing else has changed. */
  ghost predicate PutBack(st: State, t: State, n: Storage)
    requires n in st.recs
  {
    && OnlyTouches(st, t, n)
    && var r := st.recs[n];
       match r.allocator
       case StartupPool =>
         && n in t.recs && t.recs[n] == r.(state := Unqueued) && t.eventFree == [n] + st.eventFree
         && t == st.(recs := t.recs, eventFree := t.eventFree)
       case Dynamic => n !in t.recs && t == st.(recs := t.recs)
       case User => t == st
       case Timer =>
         if r.period == 0 then
           && n in t.recs && t.recs[n] == r.(state := Unqueued) && t.timerFree == [n] + st.timerFree
           && t == st.(recs := t.recs, timerFree := t.timerFree)
         else
           && Rearmed(st, t, n)
           && if r.due + r.period <= st.clock then Appended(st, t, n) && t == st.(recs := t.recs, queue := t.queue)
              else Inserted(st, t, n) && t == st.(recs := t.recs, pending := t.pending, stamps := st.stamps + 1)
  }

  lemma FreedIsPutBack(st: State, n: Storage)
    requires Sorted(st.queue, st.recs, ByPriority) && PendingOrdered(st.pending, st.recs) && n in st.recs
    requires st.recs[n].allocator == Timer ==> n !in st.queue && n !in st.pending
    requires forall m | m in st.queue || m in st.pending :: m in st.recs
    ensures PutBack(st, FreePushed(st, n), n)
  {
    hide Write, AddPending, Appended, Inserted, Sorted, PendingOrdered;
    var r := st.recs[n];
    if r.allocator == Timer && r.period > 0 {
      var q := r.(state := Unqueued, due := r.due + r.period, runs := r.runs + 1, stamp := None);
      var s := Revised(st, n, q);
      RearmedSteps(st, n);
      if q.due <= st.clock {
        QueueingAppends(st, s, n);
      } else {
        PendingInserts(st, s, n);
      }
    }
  }

  lemma RearmedSteps(st: State, n: Storage)
    requires n in st.recs && st.recs[n].allocator == Timer && st.recs[n].period > 0
    ensures var r := st.recs[n];
      var s := Revised(st, n, r.(state := Unqueued, due := r.due + r.period, runs := r.runs + 1, stamp := None));
      FreePushed(st, n) == if r.due + r.period <= st.clock then Write(s, n) else AddPending(s, n)
  {
    hide Write, AddPending;
    var r := st.recs[n];
    var q := r.(state := Unqueued, due := r.due + r.period, runs := r.runs + 1, stamp := None);
    var s := Revised(st, n, q);
    assert st.recs[n := r.(state := Unqueued)][n := q] == s.recs;
    assert Revised(s, n, q.(allocator := Timer)) == s;
  }

  /**
   When a handler returns, its event's storage goes back where it came from: a startup event or a one-shot timer's
   struct to the front of its free list, an event from the heap to the heap; a client's own stays with the client. A
   periodic timer is due one period later, and is queued or waits as that time has come or not.
   */
  lemma ReturnPutsBack(st: State)
    requires Inv(st) && st.running.Some?
    ensures Owned(st, None) && st.running.value in st.recs
    ensures Step(st, End).running == None && PutBack(st.(running := None), Step(st, End), st.running.value)
  {
    hide Inv, Owned, PutBack, FreePushed, Sorted, PendingOrdered;
    ListFacts(st);
    OrderFacts(st);
    RunningTimer(st);
    FreedIsPutBack(st.(running := None), st.running.value);
    FreedRuns(st.(running := None), st.running.value);
  }

  lemma FreedRuns(st: State, n: Storage)
    requires n in st.recs
    ensures FreePushed(st, n).running == st.running
  {
    hide Insert;
  }

  lemma RunningTimer(st: State)
    requires Inv(st) && st.running.Some?
    ensures var n := st.running.value; n in st.recs && (st.recs[n].allocator == Timer ==> n !in st.queue && n !in st.pending)
  {
    hide Contents, Ordered, TaskletsOk;
    assert Placed(st, st.running.value);
  }

  // ---------------------------------------------------------------- cancelling

  /**
   Cancelling a pending or queued event takes it, and only it, out of its list, and puts its storage back where it came
   from. Cancelling the running event only ends a timer's period.
   */
  lemma CancelPutsBack(st: State, n: Storage)
    requires Inv(st) && Live(st, n)
    ensures Owned(st, None)
    ensures var t, r := Step(st, Cancel(n)), st.recs[n];
      if r.state == Running then
        t == st.(recs := st.recs[n := if r.allocator == Timer then r.(period := 0) else r])
      else
        var s := st.(pending := Minus(st.pending, n), queue := Minus(st.queue, n),
                     recs := st.recs[n := if r.allocator == Timer then r.(period := 0) else r]);
        PutBack(s, t, n)
  {
    hide Inv, Owned, FreePushed, Minus, PutBack, Sorted, PendingOrdered;
    ListFacts(st);
    OrderFacts(st);
    CancelledCases(st, n);
    MinusAbsent(st.pending, n);
    MinusAbsent(st.queue, n);
    var r := st.recs[n];
    if r.state == Running {
      assert r.allocator != Timer ==> st.recs[n := r] == st.recs;
    } else {
      var s := st.(pending := Minus(st.pending, n), queue := Minus(st.queue, n),
                   recs := st.recs[n := if r.allocator == Timer then r.(period := 0) else r]);
      assert r.allocator != Timer ==> st.recs[n := r] == st.recs;
      LeftOrdered(st, s, n);
      FreedIsPutBack(s, n);
      CancelSteps(st, n);
    }
  }

  /** What stays in the lists stays in order. */
  lemma LeftOrdered(st: State, s: State, n: Storage)
    requires Inv(st) && s.pending == Minus(st.pending, n) && s.queue == Minus(st.queue, n) && n in st.recs
    requires forall m | m in st.recs && m != n :: m in s.recs && s.recs[m] == st.recs[m]
    ensures Sorted(s.queue, s.recs, ByPriority) && PendingOrdered(s.pending, s.recs)
  {
    hide Owned, Contents, TaskletsOk, Minus, Line, Tidy;
    var p := MinusThins(st.pending, n);
    var q := MinusThins(st.queue, n);
    ListFacts(st);
    forall i, j | 0 <= i < j < |s.queue| ensures Key(s.recs, ByPriority, s.queue[i]) <= Key(s.recs, ByPriority, s.queue[j]) {
      assert s.queue[i] in s.queue && s.queue[j] in s.queue;
      assert Key(st.recs, ByPriority, st.queue[q[i]]) <= Key(st.recs, ByPriority, st.queue[q[j]]);
    }
    forall i, j | 0 <= i < j < |s.pending| ensures Less(TagOf(s.recs, s.pending[i]), TagOf(s.recs, s.pending[j])) {
      assert s.pending[i] in s.pending && s.pending[j] in s.pending;
      assert Less(TagOf(st.recs, st.pending[p[i]]), TagOf(st.recs, st.pending[p[j]]));
    }
  }

  lemma CancelSteps(st: State, n: Storage)
    requires n in st.recs && st.recs[n].state != Running
    requires st.recs[n].state == Queued <==> n in st.queue
    requires st.recs[n].state == Unqueued && st.recs[n].allocator == Timer <==> n in st.pending
    ensures var r := st.recs[n];
      Cancelled(st, n) ==
        FreePushed(st.(pending := Minus(st.pending, n), queue := Minus(st.queue, n),
                       recs := st.recs[n := if r.allocator == Timer then r.(period := 0) else r]), n)
  {
    hide FreePushed, Minus;
    var r := st.recs[n];
    MinusAbsent(st.pending, n);
    MinusAbsent(st.queue, n);
    assert r.allocator != Timer ==> st.recs[n := r] == st.recs;
  }
}
