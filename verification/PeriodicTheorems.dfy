/** Periodic timers over whole runs: no drift and no lost firing. */
module PeriodicTheorems {
  import opened Basics
  import opened EventTypes
  import opened EventSpec
  import opened EventInvariants
  import opened EventOrder
  import opened EventRuns

  /** Storage `n` holds a live periodic timer requested at `base`. */
  ghost predicate Periodic(st: State, n: Storage, base: nat, period: U32) {
    && n in st.timers && n in st.recs && n !in st.timerFree
    && st.recs[n].allocator == Timer && st.recs[n].base == base && st.recs[n].period == period > 0
  }

  /** Between `st` and `t` storage `n` may have changed place, but holds the same request, with `more` runs completed. */
  ghost predicate Kept(st: State, t: State, n: Storage, more: nat)
    requires n in st.recs
  {
    && n in t.recs && st.timers <= t.timers
    && (n !in st.timerFree ==> n !in t.timerFree)
    && var r, s := st.recs[n], t.recs[n];
       s.allocator == r.allocator && s.base == r.base && s.period == r.period && s.data == r.data && s.runs == r.runs + more
  }

  ghost predicate Cancels(st: State, op: Op, n: Storage) {
    op == Cancel(n) || (op.CancelTimer? && CancelTarget(st, op.eventId, op.tasklet) == Some(n))
  }

  lemma FreePushedKeeps(st: State, m: Storage, n: Storage)
    requires m in st.recs && n in st.recs && n != m
    ensures Kept(st, FreePushed(st, m), n, 0)
  {
    hide Insert;
  }

  lemma CancelledKeeps(st: State, m: Storage, n: Storage)
    requires m in st.recs && n in st.recs && n != m
    ensures Kept(st, Cancelled(st, m), n, 0)
  {
    hide FreePushed, Minus;
    var r := st.recs[m];
    var s := if r.allocator == Timer then Revised(st, m, r.(period := 0)) else st;
    FreePushedKeeps(s.(pending := if r.allocator == Timer && r.state == Unqueued then Minus(s.pending, m) else s.pending,
                       queue := if r.state == Queued then Minus(s.queue, m) else s.queue), m, n);
  }

  lemma {:induction false} ExpireKeeps(st: State, n: Storage)
    requires (forall m | m in st.pending :: m in st.recs && st.recs[m].allocator == Timer) && n in st.recs
    ensures Kept(st, Expire(st), n, 0)
    decreases |st.pending|
  {
    hide Insert;
    if st.pending != [] && st.recs[st.pending[0]].due <= st.clock {
      ExpireKeeps(SendTimer(st.(pending := st.pending[1..]), st.pending[0]), n);
    }
  }

  lemma EndedKeeps(st: State, n: Storage, base: nat, period: U32)
    requires Owned(st, None) && Periodic(st, n, base, period) && st.running.Some?
    ensures Kept(st, Ended(st), n, if st.running == Some(n) then 1 else 0)
  {
    hide Insert, Placed;
    if st.running == Some(n) {
    } else {
      FreePushedKeeps(st.(running := None), st.running.value, n);
    }
  }

  /** No operation but its own cancellation loses a periodic timer, and its runs count its handler's returns. */
  lemma StepKeepsPeriodic(st: State, op: Op, n: Storage, base: nat, period: U32)
    requires Owned(st, None) && Periodic(st, n, base, period) && !Cancels(st, op, n)
    ensures Kept(st, Step(st, op), n, if op == End && st.running == Some(n) then 1 else 0)
    ensures Periodic(Step(st, op), n, base, period)
  {
    hide Insert, Minus, FreePushed, Cancelled, Ended, Expire, TaskletIds, FreeId, CancelTarget, Sent, Created, Requested;
    assert Placed(st, n);
    match op
    case Send(data, spare) => NotReused(st, spare, n); SentKeeps(st, data, spare, n);
    case Create(handler, initType, memory, spare) =>
      NotReused(st, spare, n);
      if Allowed(st, op) { CreatedKeeps(st, handler, initType, memory, spare, n); }
    case Request(data, delay, period, spare) => if New(st, spare) { RequestedKeeps(st, data, delay, period, spare, n); }
    case SendUser(m, _) =>
    case TickUpdate(ticks) => PendingTimers(st); ExpireKeeps(st.(clock := st.clock + ticks), n);
    case Cancel(m) => if Live(st, m) { CancelledKeeps(st, m, n); }
    case CancelTimer(eventId, tasklet) =>
      var m := CancelTarget(st, eventId, tasklet);
      if m.Some? { CancelledKeeps(st, m.value, n); }
    case Begin =>
    case End => if st.running.Some? { EndedKeeps(st, n, base, period); }
  }

  lemma SentKeeps(st: State, data: Event, spare: Option<Storage>, n: Storage)
    requires (forall m | m in st.eventFree :: m in st.recs) && n in st.recs
    ensures NextEvent(st, spare) != Some(n) ==> Kept(st, Sent(st, data, spare), n, 0)
  {
    hide Insert, TaskletIds;
  }

  lemma CreatedKeeps(st: State, handler: nat, initType: U8, memory: bool, spare: Option<Storage>, n: Storage)
    requires (forall m | m in st.eventFree :: m in st.recs) && n in st.recs && FreeId(TaskletIds(st.tasklets), 0) < 128
    ensures NextEvent(st, spare) != Some(n) ==> Kept(st, Created(st, handler, initType, memory, spare), n, 0)
  {
    hide Insert, TaskletIds, FreeId;
  }

  lemma RequestedKeeps(st: State, data: Event, delay: int, period: U32, spare: Option<Storage>, n: Storage)
    requires New(st, spare) && n in st.recs && n !in st.timerFree
    ensures Kept(st, Requested(st, data, delay, period, spare), n, 0)
  {
    hide Insert, TaskletIds;
  }

  lemma NotReused(st: State, spare: Option<Storage>, n: Storage)
    requires Owned(st, None) && n in st.timers && n in st.recs
    ensures New(st, spare) ==> NextEvent(st, spare) != Some(n)
  {
    assert Placed(st, n);
  }

  /** How often the handler of `n` returns during the run. */
  ghost function Returns(st: State, ops: seq<Op>, n: Storage): (k: nat)
    requires Inv(st)
    decreases |ops|
  {
    if ops == [] then 0
    else
      StepInv(st, ops[0]);
      (if ops[0] == End && st.running == Some(n) then 1 else 0) + Returns(Step(st, ops[0]), ops[1..], n)
  }

  ghost predicate Uncancelled(st: State, ops: seq<Op>, n: Storage)
    requires Inv(st)
    decreases |ops|
  {
    ops == [] || (
      StepInv(st, ops[0]);
      !Cancels(st, ops[0], n) && Uncancelled(Step(st, ops[0]), ops[1..], n))
  }

  lemma {:induction false} RunKeepsPeriodic(st: State, ops: seq<Op>, n: Storage, base: nat, period: U32)
    requires Inv(st) && Periodic(st, n, base, period) && Uncancelled(st, ops, n)
    ensures Periodic(Run(st, ops), n, base, period)
    ensures Run(st, ops).recs[n].runs == st.recs[n].runs + Returns(st, ops, n)
    decreases |ops|
  {
    hide Step, Owned, Contents, Ordered, TaskletsOk, Cancels;
    if ops != [] {
      StepInv(st, ops[0]);
      StepKeepsPeriodic(st, ops[0], n, base, period);
      RunKeepsPeriodic(Step(st, ops[0]), ops[1..], n, base, period);
    }
  }

  /** A periodic timer that is neither queued nor running has run exactly once for every period gone by. */
  lemma AllRunsDone(st: State, n: Storage, base: nat, period: U32)
    requires Inv(st) && Periodic(st, n, base, period) && n !in st.queue && st.running != Some(n)
    ensures base <= st.clock && st.recs[n].runs == (st.clock - base) / period
    ensures n in st.pending && st.recs[n].due == base + (st.recs[n].runs + 1) * period
  {
    hide Ordered, TaskletsOk, TaskletIds;
    assert Placed(st, n);
    assert Waiting(st, n, st.clock);
    var r := st.recs[n];
    assert Beat(base, period, r.runs + 1) == Beat(base, period, r.runs) + period;
    BeatsSoFar(base, period, r.runs, st.clock);
    BeatIsProduct(base, period, r.runs);
    BeatIsProduct(base, period, r.runs + 1);
  }

  /**
   A periodic timer neither drifts nor loses a firing: requested at tick t0, then
   through any run of sends, requests, cancellations of others, tick jumps and delayed
   handlers, whenever it is neither queued nor running its handler has returned exactly
   floor((now - t0) / period) times, and it is next due at t0 + (that + 1) * period.
   */
  lemma PeriodicNeverDrifts(st: State, data: Event, period: U32, spare: Option<Storage>, ops: seq<Op>)
    requires Inv(st) && Allowed(st, Request(data, period, period, spare)) && period > 0
    requires Registered(st, data.receiver) && NextTimer(st, spare).Some?
    requires Uncancelled(st, [Request(data, period, period, spare)] + ops, NextTimer(st, spare).value)
    ensures var n, run := NextTimer(st, spare).value, [Request(data, period, period, spare)] + ops;
      var t, k := Run(st, run), Returns(st, run, n);
      n !in t.queue && t.running != Some(n) ==>
        && n in t.pending && st.clock <= t.clock && k == (t.clock - st.clock) / period
        && t.recs[n].due == st.clock + (k + 1) * period
  {
    hide Contents, Ordered, TaskletsOk, TaskletIds, Insert, Owned, Step;
    var n, req := NextTimer(st, spare).value, Request(data, period, period, spare);
    var run := [req] + ops;
    assert run[0] == req && run[1..] == ops;
    StepInv(st, req);
    var s := Step(st, req);
    JustRequested(st, data, period, spare);
    RunKeepsPeriodic(s, ops, n, st.clock, period);
    var t := Run(s, ops);
    if n !in t.queue && t.running != Some(n) {
      AllRunsDone(t, n, st.clock, period);
    }
  }

  lemma JustRequested(st: State, data: Event, period: U32, spare: Option<Storage>)
    requires Inv(st) && Allowed(st, Request(data, period, period, spare)) && period > 0
    requires Registered(st, data.receiver) && NextTimer(st, spare).Some?
    ensures var n, s := NextTimer(st, spare).value, Step(st, Request(data, period, period, spare));
      Periodic(s, n, st.clock, period) && s.recs[n].runs == 0
  {
    hide Contents, Ordered, TaskletsOk, TaskletIds, Insert;
    if st.timerFree != [] {
      TailDistinct(st.timerFree);
    }
  }
}
