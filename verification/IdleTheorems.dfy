/** Running until idle terminates, and sleeping until the next timer wakes up for it. */
module IdleTheorems {
  import opened Basics
  import opened EventTypes
  import opened EventSpec
  import opened EventInvariants
  import opened EventOrder
  import opened EventRuns
  import opened CancelTheorems
  import opened EventTheorems
  import opened Ticks

  // ---------------------------------------------------------------- running until idle

  /** One dispatch of an event whose handler does nothing. */
  ghost function Dispatched(st: State): (t: State) {
    Ended(Begun(st))
  }

  /** The dispatches a queued event will need: one, or for a periodic timer one for every period it is behind. */
  ghost function Owed(clock: nat, recs: map<Storage, Rec>, n: Storage): (k: nat) {
    if n in recs && recs[n].allocator == Timer && recs[n].period > 0 && recs[n].due <= clock
    then (clock - recs[n].due) / recs[n].period + 1
    else 1
  }

  ghost function Load(s: seq<Storage>, clock: nat, recs: map<Storage, Rec>): (k: nat) {
    if s == [] then 0 else Owed(clock, recs, s[0]) + Load(s[1..], clock, recs)
  }

  lemma LoadCons(s: seq<Storage>, clock: nat, recs: map<Storage, Rec>)
    requires s != []
    ensures Load(s, clock, recs) == Owed(clock, recs, s[0]) + Load(s[1..], clock, recs)
  {
  }

  lemma {:induction false} LoadSame(s: seq<Storage>, clock: nat, r1: map<Storage, Rec>, r2: map<Storage, Rec>)
    requires forall n | n in s :: Owed(clock, r1, n) == Owed(clock, r2, n)
    ensures Load(s, clock, r1) == Load(s, clock, r2)
  {
    if s != [] {
      LoadSame(s[1..], clock, r1, r2);
    }
  }

  lemma {:induction false} LoadInsert(s: seq<Storage>, k: nat, n: Storage, clock: nat, recs: map<Storage, Rec>)
    requires k <= |s|
    ensures Load(InsertAt(s, k, n), clock, recs) == Load(s, clock, recs) + Owed(clock, recs, n)
  {
    hide Owed, Load;
    var r := InsertAt(s, k, n);
    LoadCons(r, clock, recs);
    if k == 0 {
      assert r[1..] == s;
    } else {
      LoadCons(s, clock, recs);
      LoadInsert(s[1..], k - 1, n, clock, recs);
      assert r[1..] == InsertAt(s[1..], k - 1, n);
    }
  }

  /** One period less behind, one dispatch less owed. */
  lemma OneLess(late: nat, period: nat)
    requires 0 < period <= late
    ensures (late - period) / period + 1 == late / period
  {
    var q := late / period;
    assert late == period * q + late % period;
    assert period * (q - 1) == period * q - period;
    Quotient(late - period, period, q - 1);
  }

  lemma QueueAfter(st: State)
    requires Inv(st) && st.running.None? && st.queue != []
    ensures Begun(st).queue == st.queue[1..] && Begun(st).running == Some(st.queue[0]) && Begun(st).clock == st.clock
    ensures st.queue[0] in st.recs && st.queue[0] !in st.queue[1..]
    ensures Begun(st).recs == st.recs[st.queue[0] := st.recs[st.queue[0]].(state := Running)]
    ensures Fired(st, st.queue[0])
  {
    hide Ordered, TaskletsOk, TaskletIds, Placed;
    TailDistinct(st.queue);
  }

  /** Every dispatch pays off exactly one of what is owed. */
  lemma DispatchPaysOne(st: State)
    requires Inv(st) && st.running.None? && st.queue != []
    ensures Inv(Dispatched(st)) && Dispatched(st).running.None? && Dispatched(st).clock == st.clock
    ensures var t := Dispatched(st); Load(t.queue, t.clock, t.recs) + 1 == Load(st.queue, st.clock, st.recs)
  {
    hide Owned, Contents, Ordered, TaskletsOk, Begun, Fired, Insert;
    var n, b := st.queue[0], Begun(st);
    BegunInv(st);
    QueueAfter(st);
    EndedInv(b);
    var r, s := b.recs[n], b.(running := None);
    LoadSame(st.queue[1..], st.clock, st.recs, b.recs);
    OwedRunning(st, n);
    FreedLoad(s, n, st);
  }

  lemma OwedRunning(st: State, n: Storage)
    requires n in st.recs
    ensures Owed(st.clock, st.recs[n := st.recs[n].(state := Running)], n) == Owed(st.clock, st.recs, n)
  {
  }

  /** What putting the storage of a finished event back does to the load of the queue. */
  lemma FreedLoad(s: State, n: Storage, st: State)
    requires n in s.recs && n !in s.queue && Fired(st, n) && n in st.recs
    requires s.clock == st.clock && s.recs[n] == st.recs[n].(state := Running)
    ensures var t := FreePushed(s, n);
      t.clock == s.clock && t.running == s.running
      && Load(t.queue, t.clock, t.recs) + 1 == Load(s.queue, s.clock, s.recs) + Owed(s.clock, s.recs, n)
  {
    hide FreePushed, TaskletIds, Load, Beat;
    var r, t := s.recs[n], FreePushed(s, n);
    FreedOthers(s, n);
    LoadSame(s.queue, s.clock, s.recs, t.recs);
    if r.allocator == Timer && r.period > 0 && r.due + r.period <= s.clock {
      Requeued(s, n, t);
      OneLess(s.clock - r.due, r.period);
    } else {
      NotRequeued(s, n);
      if r.allocator == Timer && r.period > 0 {
        Quotient(s.clock - r.due, r.period, 0);
      }
    }
  }

  lemma FreedOthers(s: State, n: Storage)
    requires n in s.recs && n !in s.queue
    ensures FreePushed(s, n).clock == s.clock && FreePushed(s, n).running == s.running
    ensures forall m | m in s.queue :: Owed(s.clock, s.recs, m) == Owed(s.clock, FreePushed(s, n).recs, m)
  {
    hide Insert;
  }

  lemma NotRequeued(s: State, n: Storage)
    requires n in s.recs && (s.recs[n].allocator == Timer && s.recs[n].period > 0 ==> s.clock < s.recs[n].due + s.recs[n].period)
    ensures FreePushed(s, n).queue == s.queue
  {
  }

  lemma Requeued(s: State, n: Storage, t: State)
    requires n in s.recs && n !in s.queue && t == FreePushed(s, n)
    requires var r := s.recs[n]; r.allocator == Timer && r.period > 0 && r.due + r.period <= s.clock
    ensures n in t.recs && t.recs[n].due == s.recs[n].due + s.recs[n].period && t.recs[n].period == s.recs[n].period && t.recs[n].allocator == Timer
    ensures Load(t.queue, s.clock, t.recs) == Load(s.queue, s.clock, t.recs) + Owed(s.clock, t.recs, n)
  {
    hide Slot, Owed, Load;
    var r := s.recs[n].(state := Unqueued, due := s.recs[n].due + s.recs[n].period, runs := s.recs[n].runs + 1, stamp := None);
    LoadInsert(s.queue, Slot(s.queue, s.recs[n := r], ByPriority, Key(s.recs[n := r], ByPriority, n), 0), n, s.clock, t.recs);
  }

  /** The state when the queue has run empty, and how many dispatches that took. */
  ghost function Drained(st: State): (r: (State, nat))
    requires Inv(st) && st.running.None?
    ensures Inv(r.0) && r.0.running.None? && r.0.queue == [] && r.0.clock == st.clock
    ensures r.1 == Load(st.queue, st.clock, st.recs)
    decreases Load(st.queue, st.clock, st.recs)
  {
    if st.queue == [] then (st, 0)
    else
      DispatchPaysOne(st);
      var r := Drained(Dispatched(st));
      (r.0, r.1 + 1)
  }

  // ---------------------------------------------------------------- handlers that send nothing

  /** An operation that queues nothing: a cancellation, or a request for later. */
  ghost predicate QueuesNothing(op: Op) {
    op.Cancel? || op.CancelTimer? || (op.Request? && op.delay > 0)
  }

  /** Between dispatches: the invariant holds and no handler runs. */
  ghost predicate Idle(st: State) {
    Inv(st) && st.running.None?
  }

  /** One dispatch of an event whose handler does `script`. */
  ghost function Handled(st: State, script: seq<Op>): (t: State)
    requires Idle(st)
    ensures Inv(t)
  {
    BegunInv(st);
    var s := Run(Begun(st), script);
    EndedOrNot(s);
    Ended(s)
  }

  lemma EndedOrNot(st: State)
    requires Inv(st)
    ensures Inv(Ended(st)) && Ended(st).running.None?
  {
    hide Inv, FreePushed;
    if st.running.Some? {
      EndedInv(st);
      RunningKnown(st);
      FreedRunsNothing(st.(running := None), st.running.value);
    }
  }

  lemma RunningKnown(st: State)
    requires Inv(st)
    ensures st.running.Some? ==> st.running.value in st.recs
  {
  }

  lemma FreedRunsNothing(st: State, n: Storage)
    requires n in st.recs
    ensures FreePushed(st, n).running == st.running
  {
    hide Insert;
  }

  lemma InertIsSilent(st: State)
    requires Idle(st)
    ensures Handled(st, []) == Dispatched(st)
  {
    hide Begun, Ended;
    InvBegun(st);
  }

  /** Dispatches still to be made: what the queue owes, and what the running event does. */
  ghost function Debt(st: State): (k: nat) {
    Load(st.queue, st.clock, st.recs) + if st.running.Some? then Owed(st.clock, st.recs, st.running.value) else 0
  }

  /** From `st` to `t` the queue lost nothing but cancelled events, and periods at most ended. */
  ghost predicate NoMore(st: State, t: State) {
    && t.clock == st.clock && t.running == st.running
    && (forall n | n in t.queue :: n in st.queue && n in st.recs && n in t.recs && Eased(st.recs[n], t.recs[n]))
    && (t.running.Some? ==>
          var n := t.running.value; n in st.recs && n in t.recs && Eased(st.recs[n], t.recs[n]))
    && Debt(t) <= Debt(st)
  }

  /** The record is the same, except that the period may have ended. */
  ghost predicate Eased(r: Rec, s: Rec) {
    s == r || s == r.(period := 0)
  }

  lemma {:induction false} LoadMinus(s: seq<Storage>, clock: nat, recs: map<Storage, Rec>, n: Storage)
    ensures Load(Minus(s, n), clock, recs) <= Load(s, clock, recs)
  {
    hide Owed;
    if s != [] {
      LoadMinus(s[1..], clock, recs, n);
      if s[0] != n {
        assert Minus(s, n)[1..] == Minus(s[1..], n);
      } else {
        assert Minus(s, n) == Minus(s[1..], n);
      }
    }
  }

  lemma EasedOwes(clock: nat, r1: map<Storage, Rec>, r2: map<Storage, Rec>, n: Storage)
    requires n in r1 && n in r2 && Eased(r1[n], r2[n])
    ensures Owed(clock, r2, n) <= Owed(clock, r1, n)
  {
  }

  /** Cancelling takes off what the event owed, and adds nothing. */
  lemma CancelOwesNoMore(st: State, n: Storage)
    requires Inv(st) && Live(st, n)
    ensures NoMore(st, Cancelled(st, n))
  {
    hide Contents, Ordered, TaskletsOk, Owned, Cancelled, Minus, Load, Owed;
    var t := Cancelled(st, n);
    CancelKeepsOthers(st, n);
    CancelRetires(st, n);
    CancelEases(st, n);
    LoadMinus(st.queue, st.clock, st.recs, n);
    assert forall m | m in t.queue :: m in st.queue && m != n;
    QueueKnown(st);
    LoadSame(t.queue, st.clock, st.recs, t.recs) by { SameOwed(t.queue, st.clock, st.recs, t.recs); }
    if st.running.Some? {
      EasedOwes(st.clock, st.recs, t.recs, st.running.value);
    }
  }

  lemma QueueKnown(st: State)
    requires Owned(st, None)
    ensures forall m | m in st.queue :: m in st.recs
    ensures st.running.Some? ==> st.running.value in st.recs
  {
  }

  lemma SameOwed(s: seq<Storage>, clock: nat, r1: map<Storage, Rec>, r2: map<Storage, Rec>)
    requires SameRecs(s, r1, r2)
    ensures forall n | n in s :: Owed(clock, r1, n) == Owed(clock, r2, n)
  {
  }

  /** Cancelling the running event only ends its period; the clock stands still. */
  lemma CancelEases(st: State, n: Storage)
    requires Owned(st, None) && Live(st, n)
    ensures Cancelled(st, n).clock == st.clock
    ensures st.running == Some(n) ==> n in Cancelled(st, n).recs && Eased(st.recs[n], Cancelled(st, n).recs[n])
  {
    hide Minus, Insert;
    CancelledCases(st, n);
    assert Placed(st, n);
  }

  /** A request for later goes into a struct that is in no queue. */
  lemma RequestOwesNoMore(st: State, data: Event, delay: int, period: U32, spare: Option<Storage>)
    requires Inv(st) && New(st, spare) && delay > 0
    ensures NoMore(st, Requested(st, data, delay, period, spare))
  {
    hide Contents, Ordered, TaskletsOk, Owned, Load, Owed, TaskletIds, TakenTimer;
    QueueKnown(st);
    if Registered(st, data.receiver) && NextTimer(st, spare).Some? {
      var n, t := NextTimer(st, spare).value, Requested(st, data, delay, period, spare);
      StructIsIdle(st, spare);
      LaterTimer(st, data, delay, period, spare);
      LoadSame(st.queue, st.clock, st.recs, t.recs) by { SameOwed(st.queue, st.clock, st.recs, t.recs); }
      if st.running.Some? {
        EasedOwes(st.clock, st.recs, t.recs, st.running.value);
      }
    }
  }

  lemma StructIsIdle(st: State, spare: Option<Storage>)
    requires Owned(st, None) && New(st, spare) && NextTimer(st, spare).Some?
    ensures var n := NextTimer(st, spare).value; n !in st.queue && st.running != Some(n)
  {
    var n := NextTimer(st, spare).value;
    if n in st.recs {
      assert Placed(st, n);
    }
  }

  lemma LaterTimer(st: State, data: Event, delay: int, period: U32, spare: Option<Storage>)
    requires Registered(st, data.receiver) && NextTimer(st, spare).Some? && delay > 0
    ensures var n, t := NextTimer(st, spare).value, Requested(st, data, delay, period, spare);
      && t.queue == st.queue && t.running == st.running && t.clock == st.clock
      && forall m | m in st.recs && m != n :: m in t.recs && t.recs[m] == st.recs[m]
  {
    hide Insert, TaskletIds;
  }

  lemma StepOwesNoMore(st: State, op: Op)
    requires Inv(st) && QueuesNothing(op)
    ensures NoMore(st, Step(st, op))
  {
    hide Contents, Ordered, TaskletsOk, Owned, Cancelled, Requested, NoMore, TaskletIds, CancelTarget;
    SameOwesNoMore(st);
    if Allowed(st, op) {
      match op
      case Cancel(n) => CancelOwesNoMore(st, n);
      case CancelTimer(eventId, tasklet) =>
        var m := CancelTarget(st, eventId, tasklet);
        if m.Some? { CancelOwesNoMore(st, m.value); }
      case Request(data, delay, period, spare) => RequestOwesNoMore(st, data, delay, period, spare);
    }
  }

  lemma SameOwesNoMore(st: State)
    requires Inv(st)
    ensures NoMore(st, st)
  {
    hide Contents, Ordered, TaskletsOk, Load, Owed;
    QueueKnown(st);
  }

  lemma NoMoreChain(a: State, b: State, c: State)
    requires NoMore(a, b) && NoMore(b, c)
    ensures NoMore(a, c)
  {
    hide Debt;
  }

  lemma {:induction false} ScriptOwesNoMore(st: State, script: seq<Op>)
    requires Inv(st) && forall op | op in script :: QueuesNothing(op)
    ensures NoMore(st, Run(st, script))
    decreases |script|
  {
    hide Inv, Step, NoMore, QueuesNothing;
    SameOwesNoMore(st);
    if script != [] {
      InvOwned(st);
      assert script[0] in script;
      StepInv(st, script[0]);
      StepOwesNoMore(st, script[0]);
      ScriptOwesNoMore(Step(st, script[0]), script[1..]);
      NoMoreChain(st, Step(st, script[0]), Run(st, script));
    }
  }

  lemma InvOwned(st: State)
    requires Inv(st)
    ensures Owned(st, None)
  {
  }

  /** A dispatch whose handler sends nothing, whatever it cancels or requests for later, pays at least one. */
  lemma HandlingPays(st: State, script: seq<Op>)
    requires Idle(st) && st.queue != [] && forall op | op in script :: QueuesNothing(op)
    ensures var t := Handled(st, script);
      t.running.None? && t.clock == st.clock && Debt(t) + 1 <= Debt(st)
  {
    hide Inv, Run, Begun, Ended, Load, Owed, QueuesNothing;
    var b := Begun(st);
    BegunInv(st);
    QueueAfter(st);
    BegunDebt(st);
    ScriptOwesNoMore(b, script);
    EndPays(Run(b, script), st.queue[0]);
  }

  lemma BegunDebt(st: State)
    requires Inv(st) && st.running.None? && st.queue != []
    ensures Debt(Begun(st)) == Debt(st)
  {
    hide Inv, Begun, Load, Owed;
    QueueAfter(st);
    var n, b := st.queue[0], Begun(st);
    LoadCons(st.queue, st.clock, st.recs);
    OwedRunning(st, n);
    QueueRest(st);
    LoadSame(st.queue[1..], st.clock, st.recs, b.recs) by { SameOwed(st.queue[1..], st.clock, st.recs, b.recs); }
  }

  lemma QueueRest(st: State)
    requires Inv(st) && st.running.None? && st.queue != []
    ensures SameRecs(st.queue[1..], st.recs, Begun(st).recs)
  {
    hide Contents, Ordered, TaskletsOk, Begun, Placed;
    QueueAfter(st);
    assert forall n | n in st.queue[1..] :: n in st.queue;
  }

  /** The return of a handler whose event is in no list pays one. */
  lemma EndPays(st: State, n: Storage)
    requires Inv(st) && st.running == Some(n) && n in st.recs && n !in st.queue && st.recs[n].state == Running
    ensures var t := Ended(st); t.running.None? && t.clock == st.clock && Debt(t) + 1 == Debt(st)
  {
    hide Owned, Ordered, TaskletsOk, TaskletIds, FreePushed, Load, Owed;
    assert Fired(st, n);
    FreedLoad(st.(running := None), n, st);
  }

  ghost predicate Silent(script: seq<Op>) {
    forall op | op in script :: QueuesNothing(op)
  }

  /** The state after these dispatches, one script for each, as long as they find an event. */
  ghost function HandledAll(st: State, scripts: seq<seq<Op>>): (t: State)
    requires Idle(st)
    decreases |scripts|
  {
    if scripts == [] || st.queue == [] then st
    else
      HandledIdles(st, scripts[0]);
      HandledAll(Handled(st, scripts[0]), scripts[1..])
  }

  lemma HandledIdles(st: State, script: seq<Op>)
    requires Idle(st)
    ensures Idle(Handled(st, script))
  {
    hide Inv, Run, Ended, Begun;
    InvBegun(st);
    EndedOrNot(Run(Begun(st), script));
  }

  lemma InvBegun(st: State)
    requires Idle(st)
    ensures Inv(Begun(st))
  {
    hide Inv;
    BegunInv(st);
  }

  /** Every one of these dispatches finds an event. */
  ghost predicate Busy(st: State, scripts: seq<seq<Op>>)
    requires Idle(st)
    decreases |scripts|
  {
    scripts == [] || (
      st.queue != [] && (
      HandledIdles(st, scripts[0]);
      Busy(Handled(st, scripts[0]), scripts[1..])))
  }

  /**
   Running until idle ends when handlers send nothing, even if they cancel events, themselves included, and
   request timers for later, and even with overdue periodic timers that queue themselves again: there are at
   most as many dispatches as the queue owes, less what it owes after them.
   */
  lemma {:induction false} AtMostTheDebt(st: State, scripts: seq<seq<Op>>)
    requires Idle(st) && Busy(st, scripts) && forall k | 0 <= k < |scripts| :: Silent(scripts[k])
    ensures |scripts| + Debt(HandledAll(st, scripts)) <= Debt(st) && Idle(HandledAll(st, scripts))
    decreases |scripts|
  {
    hide Inv, Handled, Debt, Silent;
    if scripts != [] {
      HandledIdles(st, scripts[0]);
      HandlingPays(st, scripts[0]) by { IsSilent(scripts[0]); }
      AtMostTheDebt(Handled(st, scripts[0]), scripts[1..]);
    }
  }

  lemma IsSilent(script: seq<Op>)
    requires Silent(script)
    ensures forall op | op in script :: QueuesNothing(op)
  {
  }

  /** As long as something is queued something is owed, so an idle loop is one that owes nothing. */
  lemma IdleOwesNothing(st: State)
    requires st.running.None?
    ensures Debt(st) == 0 <==> st.queue == []
  {
    hide Owed;
    if st.queue != [] {
      OwesOne(st.clock, st.recs, st.queue[0]);
    }
  }

  lemma OwesOne(clock: nat, recs: map<Storage, Rec>, n: Storage)
    ensures Owed(clock, recs, n) >= 1
  {
  }

  // ---------------------------------------------------------------- sleeping until the next timer

  /** The time to the first pending timer in milliseconds, 0 if there is none. */
  ghost function Shortest(st: State): (ms: U32)
    requires Inv(st)
  {
    if st.pending == [] then 0 else FirstAhead(st); TicksToMs(st.recs[st.pending[0]].due - st.clock)
  }

  lemma FirstAhead(st: State)
    requires Inv(st) && st.pending != []
    ensures st.pending[0] in st.recs && 0 < st.recs[st.pending[0]].due - st.clock <= HORIZON
    ensures forall n | n in st.pending :: n in st.recs && st.recs[st.pending[0]].due <= st.recs[n].due
  {
    hide Owned, TaskletsOk, Registered, Line;
    assert Waiting(st, st.pending[0], st.clock);
    forall n | n in st.pending ensures n in st.recs && st.recs[st.pending[0]].due <= st.recs[n].due {
      assert Waiting(st, n, st.clock);
      var j :| 0 <= j < |st.pending| && st.pending[j] == n;
      assert j > 0 ==> Less(TagOf(st.recs, st.pending[0]), TagOf(st.recs, n));
    }
  }

  /** The answer is 0 exactly when no timer is pending; without a wrap it is the least remaining time. */
  lemma ShortestIsExact(st: State)
    requires Inv(st)
    ensures Shortest(st) == 0 <==> st.pending == []
    ensures st.pending != [] ==> st.pending[0] in st.recs && Low32(Shortest(st)) == Low32(10 * (st.recs[st.pending[0]].due - st.clock))
    ensures forall n | n in st.pending ::
      n in st.recs && (st.recs[n].due - st.clock < TWO_32 / 10 ==> Shortest(st) <= 10 * (st.recs[n].due - st.clock))
    ensures st.pending != [] && (st.recs[st.pending[0]].due - st.clock) * 10 < TWO_32 ==>
      Shortest(st) == 10 * (st.recs[st.pending[0]].due - st.clock)
  {
    hide Inv, TicksToMs, Low32;
    if st.pending != [] {
      FirstAhead(st);
      MsWraps(st.recs[st.pending[0]].due - st.clock);
      MsIsZero(st.recs[st.pending[0]].due - st.clock);
    }
  }

  /** Ticks added after sleeping `ms` milliseconds. */
  function SleptTicks(ms: U32): (ticks: U32) {
    ms / 10 + 1
  }

  /**
   After a sleep of any number of milliseconds the clock is put forward by the least number of ticks that make more than
   that. Of the pending timers exactly those due within that number, the whole tens of milliseconds plus one, are queued.
   */
  lemma SleepMakesUp(st: State, ms: U32)
    requires Inv(st)
    ensures forall n | n in st.pending :: n in st.recs
    ensures var t := Ticked(st, SleptTicks(ms));
      && 10 * (t.clock - st.clock - 1) <= ms < 10 * (t.clock - st.clock)
      && (forall n | n in st.pending :: if 10 * (st.recs[n].due - st.clock - 1) <= ms then n in t.queue && n !in t.pending
                                        else n in t.pending && n !in t.queue)
      && (forall n | n in t.queue :: n in st.queue || n in st.pending)
  {
    hide Inv, Ticked, SleptTicks;
    InvFacts(st);
    TickedInv(st, SleptTicks(ms));
    TickQueuesExactlyTheDue(st, SleptTicks(ms));
    SleptTicksCover(ms);
    PendingKnown(Ticked(st, SleptTicks(ms)));
  }

  lemma SleptTicksCover(ms: U32)
    ensures 10 * (SleptTicks(ms) - 1) <= ms < 10 * SleptTicks(ms)
  {
  }

  /**
   Sleeping for the shortest time wakes up in time for the first pending timer,
   exactly when ten times its remaining ticks do not wrap around 32 bits.
   */
  lemma SleepReachesFirst(st: State)
    requires Inv(st) && st.pending != []
    ensures var n := st.pending[0]; var t := Ticked(st, SleptTicks(Shortest(st)));
      n in t.queue <==> (st.recs[n].due - st.clock) * 10 < TWO_32
  {
    hide Inv, Ticked, Shortest, SleptTicks;
    FirstAhead(st);
    PendingKnown(st);
    if (st.recs[st.pending[0]].due - st.clock) * 10 < TWO_32 {
      SleepWakesInTime(st);
    } else {
      SleepWakesEarly(st);
    }
  }

  lemma PendingKnown(st: State)
    requires Inv(st)
    ensures forall n | n in st.pending :: n in st.recs && n !in st.queue
  {
    hide Ordered, Contents, TaskletsOk;
    forall n | n in st.pending ensures n in st.recs && n !in st.queue {
      QueuedElsewhere(st, n);
    }
  }

  lemma SleepWakesInTime(st: State)
    requires Inv(st) && st.pending != [] && st.pending[0] in st.recs && (forall n | n in st.pending :: n in st.recs)
    requires 0 < (st.recs[st.pending[0]].due - st.clock) * 10 < TWO_32
    ensures st.pending[0] in Ticked(st, SleptTicks(Shortest(st))).queue
  {
    hide Inv, Slot;
    var n := st.pending[0];
    FirstAhead(st);
    MsIsZero(st.recs[n].due - st.clock);
    var s := st.(clock := st.clock + SleptTicks(Shortest(st)));
    ExpireQueues(SendTimer(s.(pending := s.pending[1..]), n), n);
  }

  /** When ten times the remaining ticks wrap around, the sleep is too short for any timer. */
  lemma SleepWakesEarly(st: State)
    requires Inv(st) && st.pending != [] && st.pending[0] in st.recs && (forall n | n in st.pending :: n in st.recs && n !in st.queue)
    requires (st.recs[st.pending[0]].due - st.clock) * 10 >= TWO_32
    ensures Ticked(st, SleptTicks(Shortest(st))) == st.(clock := st.clock + SleptTicks(Shortest(st)))
  {
    hide Inv, SendTimer;
    FirstAhead(st);
    WrapsShort(st.recs[st.pending[0]].due - st.clock);
  }

  lemma WrapsShort(d: U32)
    requires d < HALF_32 && d * 10 >= TWO_32
    ensures SleptTicks(TicksToMs(d)) < d
  {
  }

  lemma QueuedElsewhere(st: State, n: Storage)
    requires Owned(st, None) && n in st.pending
    ensures n !in st.queue
  {
    assert Placed(st, n);
  }

  lemma {:induction false} ExpireQueues(st: State, n: Storage)
    requires (forall m | m in st.pending :: m in st.recs) && n in st.queue
    ensures n in Expire(st).queue
    decreases |st.pending|
  {
    hide Slot;
    if st.pending != [] && st.recs[st.pending[0]].due <= st.clock {
      ExpireQueues(SendTimer(st.(pending := st.pending[1..]), st.pending[0]), n);
    }
  }
}
