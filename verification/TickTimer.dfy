/**
 The tick timer: a callback timer that renews itself every 200 slots and tells
 the event loop, each time, that one tick has passed.
 */
module TickTimer {
  import opened Basics
  import opened Ticks
  import opened TimerPlan
  import opened TimerTheorems
  import opened DeltaTimers
  import opened DeltaTheorems
  import opened CallbackTimer
  import opened EventTypes
  import S = EventSpec
  import R = EventRuns
  import opened Commands
  import opened IdleTheorems
  import opened EventLoop
  import EventTheorems

  const SLOTS_PER_MS: U16 := 20
  const TICK_SLOTS: U16 := 200   // one tick is 10 ms

  /** Callback timers and event loop, and the callback timer that ticks for the latter. */
  datatype Stack = Stack(timers: Deltas, loop: S.State, tickId: int)

  datatype StackOp = Timers(timerOp: Op) | Events(eventOp: R.Op)

  /** How often the timer `id` has been called. */
  function TicksIn(called: seq<Invocation>, id: int): (n: nat) {
    if called == [] then 0
    else TicksIn(called[..|called| - 1], id) + if called[|called| - 1].id == id then 1 else 0
  }

  /** Every callback of the tick timer starts it again. */
  function WithTick(scripts: Scripts, tickId: int): Scripts {
    scripts[tickId := [Start(tickId, TICK_SLOTS)]]
  }

  function WithTickOp(op: Op, tickId: int): Op {
    if op.Elapse? then Elapse(op.acts, WithTick(op.scripts, tickId)) else op
  }

  // ---------------------------------------------------------------- callbacks called so far only grow

  lemma {:induction false} ActAllOnCalled(d: Deltas, acts: seq<Action>)
    ensures ActAllOn(d, acts).called == d.called
    decreases |acts|
  {
    hide ChangedAll, LeastHeld;
    if acts != [] {
      assert ActOn(d, acts[0]).called == d.called;
      ActAllOnCalled(ActOn(d, acts[0]), acts[1..]);
    }
  }

  lemma {:induction false} DispatchOnCalled(d: Deltas, k: nat, scripts: Scripts)
    ensures d.called <= DispatchOn(d, k, scripts).called
    decreases |d.cells| - k
  {
    hide ActAllOn;
    if k < |d.cells| {
      if d.cells[k].state == RunInterrupt {
        var c := d.cells[k];
        var f := d.(cells := d.cells[k := c.(state := Inactive)], called := d.called + [Invocation(c.id, c.slots)]);
        ActAllOnCalled(f, Script(scripts, c.id));
        ActAllOnSize(f, Script(scripts, c.id));
        DispatchOnCalled(CallOn(d, k, scripts), k + 1, scripts);
      } else {
        DispatchOnCalled(d, k + 1, scripts);
      }
    }
  }

  lemma StepOnCalled(d: Deltas, op: Op)
    ensures d.called <= StepOn(d, op).called
  {
    hide ActAllOn, DispatchOn, ChangedAll, LeastHeld, Drop;
    if op.Elapse? {
      var e := d.(hal := if d.running && d.hal > 0 then d.hal - 1 else d.hal);
      ActAllOnCalled(e, op.acts);
      DispatchOnCalled(ExpireOn(ActAllOn(e, op.acts)), 0, op.scripts);
    }
  }

  // ---------------------------------------------------------------- the whole stack

  /** `n` ticks, one by one. */
  ghost function TickedBy(st: S.State, n: nat): (t: S.State)
    requires R.Inv(st)
    ensures R.Inv(t) && t.clock == st.clock + n
  {
    if n == 0 then st
    else
      var s := TickedBy(st, n - 1);
      R.TickedInv(s, 1);
      S.Ticked(s, 1)
  }

  /** A step of the callback timers, with the ticks it causes, or one of the event loop. */
  ghost function StackStep(s: Stack, op: StackOp): (t: Stack)
    requires R.Inv(s.loop)
    ensures R.Inv(t.loop) && t.tickId == s.tickId
  {
    match op
    case Timers(o) =>
      StepOnCalled(s.timers, WithTickOp(o, s.tickId));
      var d := StepOn(s.timers, WithTickOp(o, s.tickId));
      Stack(d, TickedBy(s.loop, TicksIn(d.called[|s.timers.called|..], s.tickId)), s.tickId)
    case Events(o) =>
      R.StepInv(s.loop, o);
      s.(loop := R.Step(s.loop, o))
  }

  ghost function StackRun(s: Stack, ops: seq<StackOp>): (t: Stack)
    requires R.Inv(s.loop)
    ensures R.Inv(t.loop)
    decreases |ops|
  {
    if ops == [] then s else StackRun(StackStep(s, ops[0]), ops[1..])
  }

  /** Clients use one slot at least and leave the tick timer alone; ticks come from it only. */
  ghost predicate Undisturbed(op: StackOp, tickId: int) {
    match op
    case Timers(Register) => true
    case Timers(Unregister(id)) => id != tickId
    case Timers(Do(a)) => a.id != tickId && Positive([a])
    case Timers(Elapse(acts, scripts)) =>
      && Positive(acts) && !Touches(acts, tickId) && PositiveScripts(scripts)
      && forall i | i in scripts && i != tickId :: !Touches(scripts[i], tickId)
    case Events(o) => !o.TickUpdate?
  }

  /** Slots that elapse during the run. */
  function Slots(ops: seq<StackOp>): (n: nat) {
    if ops == [] then 0 else (if ops[0].Timers? && ops[0].timerOp.Elapse? then 1 else 0) + Slots(ops[1..])
  }

  /** What the callback timers see of the run. */
  function TimerOps(ops: seq<StackOp>, tickId: int): (r: seq<Op>) {
    if ops == [] then []
    else (if ops[0].Timers? then [WithTickOp(ops[0].timerOp, tickId)] else []) + TimerOps(ops[1..], tickId)
  }

  lemma UndisturbedKeeps(op: StackOp, tickId: int)
    requires Undisturbed(op, tickId) && op.Timers?
    ensures KeepsOp(WithTickOp(op.timerOp, tickId), tickId, Some(TICK_SLOTS)) && PositiveOp(WithTickOp(op.timerOp, tickId))
  {
    var o := WithTickOp(op.timerOp, tickId);
    if o.Elapse? {
      assert Script(o.scripts, tickId) == [Start(tickId, TICK_SLOTS)];
    }
  }

  lemma {:induction false} TimerOpsKeep(ops: seq<StackOp>, tickId: int)
    requires forall op | op in ops :: Undisturbed(op, tickId)
    ensures forall o | o in TimerOps(ops, tickId) :: KeepsOp(o, tickId, Some(TICK_SLOTS)) && PositiveOp(o)
  {
    hide Undisturbed, KeepsOp, PositiveOp, WithTickOp;
    if ops != [] {
      assert ops[0] in ops;
      if ops[0].Timers? {
        UndisturbedKeeps(ops[0], tickId);
      }
      TimerOpsKeep(ops[1..], tickId);
    }
  }

  lemma {:induction false} TicksAdd(a: seq<Invocation>, b: seq<Invocation>, id: int)
    ensures TicksIn(a + b, id) == TicksIn(a, id) + TicksIn(b, id)
    decreases |b|
  {
    if b == [] {
      assert a + b == a;
    } else {
      assert (a + b)[..|a + b| - 1] == a + b[..|b| - 1];
      TicksAdd(a, b[..|b| - 1], id);
    }
  }

  lemma EventsTakeNoTime(st: S.State, op: R.Op)
    requires R.Inv(st) && !op.TickUpdate?
    ensures R.Step(st, op).clock == st.clock
  {
    hide R.Inv, S.FreePushed, S.Insert, S.Minus, S.TaskletIds, S.CancelTarget, FreeId;
    hide S.Created, S.Requested, S.Cancelled, S.TimerCancelled, S.Ended;
    match op
    case Create(handler, initType, memory, spare) =>
      if R.Allowed(st, op) { EventsKnown(st); CreatedClock(st, handler, initType, memory, spare); }
    case Request(data, delay, period, spare) => RequestedClock(st, data, delay, period, spare);
    case Cancel(n) => if n in st.recs { CancelledClock(st, n); }
    case CancelTimer(eventId, tasklet) => TimerCancelledClock(st, eventId, tasklet);
    case End => EndedClock(st);
    case _ =>
  }

  lemma EventsKnown(st: S.State)
    requires R.Inv(st)
    ensures forall n | n in st.eventFree :: n in st.recs
  {
  }

  lemma CreatedClock(st: S.State, handler: nat, initType: U8, memory: bool, spare: Option<Storage>)
    requires (forall n | n in st.eventFree :: n in st.recs) && FreeId(S.TaskletIds(st.tasklets), 0) < 128
    ensures S.Created(st, handler, initType, memory, spare).clock == st.clock
  {
    hide S.Insert, S.TaskletIds, FreeId;
  }

  lemma RequestedClock(st: S.State, data: Event, delay: int, period: U32, spare: Option<Storage>)
    ensures S.Requested(st, data, delay, period, spare).clock == st.clock
  {
    hide S.Insert, S.TaskletIds;
  }

  lemma FreePushedClock(st: S.State, n: Storage)
    requires n in st.recs
    ensures S.FreePushed(st, n).clock == st.clock
  {
    hide S.Insert;
  }

  lemma CancelledClock(st: S.State, n: Storage)
    requires n in st.recs
    ensures S.Cancelled(st, n).clock == st.clock
  {
    hide S.FreePushed, S.Minus;
    var r := st.recs[n];
    var s := if r.allocator == Timer then S.Revised(st, n, r.(period := 0)) else st;
    FreePushedClock(s.(pending := if r.allocator == Timer && r.state == Unqueued then S.Minus(s.pending, n) else s.pending,
                       queue := if r.state == Queued then S.Minus(s.queue, n) else s.queue), n);
  }

  lemma TimerCancelledClock(st: S.State, eventId: U8, tasklet: I8)
    ensures S.TimerCancelled(st, eventId, tasklet).clock == st.clock
  {
    hide S.Cancelled, S.FirstMatch, S.CancelTarget;
    var m := S.CancelTarget(st, eventId, tasklet);
    if m.Some? {
      CancelledClock(st, m.value);
    }
  }

  lemma EndedClock(st: S.State)
    ensures S.Ended(st).clock == st.clock
  {
    hide S.FreePushed;
    if st.running.Some? && st.running.value in st.recs {
      FreePushedClock(st.(running := None), st.running.value);
    }
  }

  /** The clock counts the tick timer's callbacks, and events do not touch callback timers. */
  lemma {:induction false} StackRunParts(s: Stack, ops: seq<StackOp>)
    requires R.Inv(s.loop) && forall op | op in ops :: Undisturbed(op, s.tickId)
    ensures var t := StackRun(s, ops);
      && t.timers == RunOn(s.timers, TimerOps(ops, s.tickId))
      && t.loop.clock + TicksIn(s.timers.called, s.tickId) == s.loop.clock + TicksIn(t.timers.called, s.tickId)
    decreases |ops|
  {
    hide R.Inv, R.Step, StepOn, WithTickOp, TickedBy, TicksIn;
    if ops != [] {
      var op, t := ops[0], StackStep(s, ops[0]);
      assert op in ops;
      StackRunParts(t, ops[1..]);
      match op {
        case Timers(o) =>
          StepOnCalled(s.timers, WithTickOp(o, s.tickId));
          TicksAdd(s.timers.called, t.timers.called[|s.timers.called|..], s.tickId);
          assert s.timers.called + t.timers.called[|s.timers.called|..] == t.timers.called;
          RunOnFirst(s.timers, WithTickOp(o, s.tickId), TimerOps(ops[1..], s.tickId));
        case Events(o) =>
          EventsTakeNoTime(s.loop, o);
          assert TimerOps(ops, s.tickId) == TimerOps(ops[1..], s.tickId);
      }
    }
  }

  lemma RunOnFirst(d: Deltas, op: Op, ops: seq<Op>)
    ensures RunOn(d, [op] + ops) == RunOn(StepOn(d, op), ops)
  {
    assert ([op] + ops)[1..] == ops;
  }

  lemma {:induction false} SlotsAreTime(p: Plan, ops: seq<StackOp>, tickId: int)
    ensures Run(p, TimerOps(ops, tickId)).now == p.now + Slots(ops)
    decreases |ops|
  {
    hide Step;
    if ops != [] {
      if ops[0].Timers? {
        var o := WithTickOp(ops[0].timerOp, tickId);
        assert TimerOps(ops, tickId)[1..] == TimerOps(ops[1..], tickId);
        StepTime(p, o);
        SlotsAreTime(Step(p, o), ops[1..], tickId);
      } else {
        assert TimerOps(ops, tickId) == TimerOps(ops[1..], tickId);
        SlotsAreTime(p, ops[1..], tickId);
      }
    }
  }

  lemma StepTime(p: Plan, op: Op)
    ensures Step(p, op).now == p.now + if op.Elapse? then 1 else 0
  {
  }

  lemma {:induction false} CallsAreTicks(log: seq<Firing>, called: seq<Invocation>, id: int)
    requires Seen(log, called)
    ensures |Calls(log, id)| == TicksIn(called, id)
    decreases |log|
  {
    if log != [] {
      CallsAreTicks(log[..|log| - 1], called[..|called| - 1], id);
    }
  }

  /** Starting the tick timer and running on refines the plan, so calls are ticks. */
  lemma StartedRun(d: Deltas, p: Plan, tickId: int, run: seq<Op>)
    requires Quiet(p) && Represents(d, p) && p.exact && p.pushed == 0
    requires forall op | op in run :: PositiveOp(op)
    ensures Started(p, tickId, TICK_SLOTS).now == p.now && StartOn(d, tickId, TICK_SLOTS).called == d.called
    ensures |Calls(p.log, tickId)| == TicksIn(d.called, tickId)
    ensures |Calls(Run(Started(p, tickId, TICK_SLOTS), run).log, tickId)| == TicksIn(RunOn(StartOn(d, tickId, TICK_SLOTS), run).called, tickId)
  {
    hide Quiet, Run, RunOn, PositiveOp, Calls, TicksIn, Represents, ActAll, ActAllOn, StepOn, Step, RoomInRun;
    var start := Do(Start(tickId, TICK_SLOTS));
    StartIsPositive(tickId);
    RunPushesNothing(p, [start] + run);
    NoDelaysRoomInRun(p, [start] + run);
    RunExact(p, [start] + run);
    RunRefines(d, p, [start] + run);
    FirstStep(d, p, tickId, run);
    RepresentedCalls(d, p, tickId);
    RepresentedCalls(RunOn(d, [start] + run), Run(p, [start] + run), tickId);
  }

  lemma StartIsPositive(tickId: int)
    ensures PositiveOp(Do(Start(tickId, TICK_SLOTS)))
  {
  }

  lemma FirstStep(d: Deltas, p: Plan, tickId: int, run: seq<Op>)
    ensures var start := Do(Start(tickId, TICK_SLOTS));
      && RunOn(d, [start] + run) == RunOn(StartOn(d, tickId, TICK_SLOTS), run)
      && Run(p, [start] + run) == Run(Started(p, tickId, TICK_SLOTS), run)
    ensures Started(p, tickId, TICK_SLOTS).now == p.now && StartOn(d, tickId, TICK_SLOTS).called == d.called
  {
    hide ChangedAll, LeastHeld;
    assert ([Do(Start(tickId, TICK_SLOTS))] + run)[1..] == run;
  }

  lemma RepresentedCalls(d: Deltas, p: Plan, id: int)
    requires Represents(d, p)
    ensures |Calls(p.log, id)| == TicksIn(d.called, id)
  {
    CallsAreTicks(p.log, d.called, id);
  }

  /** With the tick timer started in any state that stands for a plan. */
  lemma TicksFromPlan(d: Deltas, p: Plan, loop: S.State, tickId: int, ops: seq<StackOp>)
    requires Quiet(p) && Represents(d, p) && p.exact && p.pushed == 0 && tickId in p.ids && R.Inv(loop)
    requires forall op | op in ops :: Undisturbed(op, tickId)
    ensures StackRun(Stack(StartOn(d, tickId, TICK_SLOTS), loop, tickId), ops).loop.clock
      == loop.clock + Slots(ops) / 200
  {
    hide Quiet, R.Inv, Run, RunOn, Undisturbed, Started, StartOn, Seen, KeepsOp, PositiveOp, Step, StepOn;
    var start := Do(Start(tickId, TICK_SLOTS));
    var run := TimerOps(ops, tickId);
    TimerOpsKeep(ops, tickId);
    StartedRun(d, p, tickId, run);
    RenewalsNeverDrift(p, run, tickId, TICK_SLOTS);
    SlotsAreTime(Started(p, tickId, TICK_SLOTS), ops, tickId);
    StackRunParts(Stack(StartOn(d, tickId, TICK_SLOTS), loop, tickId), ops);
  }

  /**
   Tick accuracy. Whatever callback timers were used before, once the tick timer is registered
   and started, the event loop's clock has advanced by exactly floor(elapsed slots / 200) after
   every run in which due interrupts are served at once and clients leave the tick timer alone:
   whatever other timers they register, start, restart or stop, and whatever the event loop does.
   */
  lemma WholeStackTicks(before: seq<Op>, loop: S.State, ops: seq<StackOp>)
    requires R.Inv(loop) && forall op | op in before :: PositiveOp(op)
    requires FreeId(Ids(RunOn(NO_TIMERS, before).cells), 0) < 128
    requires forall op | op in ops :: Undisturbed(op, FreeId(Ids(RunOn(NO_TIMERS, before).cells), 0))
    ensures var d := RunOn(NO_TIMERS, before); var id := FreeId(Ids(d.cells), 0);
      StackRun(Stack(StartOn(RegisterOn(d), id, TICK_SLOTS), loop, id), ops).loop.clock == loop.clock + Slots(ops) / 200
  {
    hide R.Inv, Run, RunOn, Undisturbed, StartOn, PositiveOp, Represents, Quiet, Ids;
    EveryRunRefines(before);
    RunsExactly(before);
    var d, p := RunOn(NO_TIMERS, before), Run(NO_PLAN, before);
    TickRegistered(d, p);
    TicksFromPlan(RegisterOn(d), Registered(p), loop, FreeId(Ids(d.cells), 0), ops);
  }

  lemma RunsExactly(ops: seq<Op>)
    requires forall op | op in ops :: PositiveOp(op)
    ensures Run(NO_PLAN, ops).exact
  {
    hide Run, PositiveOp, RoomInRun;
    NothingRepresentsNothing();
    RunPushesNothing(NO_PLAN, ops);
    NoDelaysRoomInRun(NO_PLAN, ops);
    RunExact(NO_PLAN, ops);
  }

  lemma TickRegistered(d: Deltas, p: Plan)
    requires Quiet(p) && Represents(d, p) && FreeId(Ids(d.cells), 0) < 128
    ensures Quiet(Registered(p)) && Represents(RegisterOn(d), Registered(p))
    ensures FreeId(Ids(d.cells), 0) in Registered(p).ids && Registered(p).exact == p.exact && Registered(p).pushed == p.pushed
  {
    hide Ids;
    RegisterRefines(d, p);
    StepQuiet(p, Register);
  }

  // ---------------------------------------------------------------- what the event loop sees of a run

  function SomeTicks(n: nat): (r: seq<R.Op>)
    ensures |r| == n && forall k | 0 <= k < n :: r[k] == R.TickUpdate(1)
  {
    seq(n, _ => R.TickUpdate(1))
  }

  /** The operations of the event loop in the run: its own, and the ticks it is told of. */
  ghost function LoopOps(s: Stack, ops: seq<StackOp>): (r: seq<R.Op>)
    requires R.Inv(s.loop)
    decreases |ops|
  {
    if ops == [] then []
    else
      StepOnCalled(s.timers, if ops[0].Timers? then WithTickOp(ops[0].timerOp, s.tickId) else Register);
      var t := StackStep(s, ops[0]);
      (if ops[0].Timers? then SomeTicks(TicksIn(StackCalls(s, t), s.tickId)) else [ops[0].eventOp]) + LoopOps(t, ops[1..])
  }

  /** The callbacks called between two states. */
  function StackCalls(s: Stack, t: Stack): seq<Invocation> {
    if |s.timers.called| <= |t.timers.called| then t.timers.called[|s.timers.called|..] else []
  }

  lemma {:induction false} TicksAreRun(st: S.State, n: nat)
    requires R.Inv(st)
    ensures R.Run(st, SomeTicks(n)) == TickedBy(st, n)
  {
    hide R.Inv, S.Ticked;
    if n == 0 {
      assert SomeTicks(0) == [];
    } else {
      TicksAreRun(st, n - 1);
      assert SomeTicks(n) == SomeTicks(n - 1) + [R.TickUpdate(1)];
      RunJoins(st, SomeTicks(n - 1), [R.TickUpdate(1)]);
      RunOne(TickedBy(st, n - 1), R.TickUpdate(1));
    }
  }

  /** For the event loop, a run of the whole stack is a run of its own. */
  lemma {:induction false} LoopRuns(s: Stack, ops: seq<StackOp>)
    requires R.Inv(s.loop)
    ensures StackRun(s, ops).loop == R.Run(s.loop, LoopOps(s, ops))
    decreases |ops|
  {
    hide R.Inv, R.Step, StepOn, TickedBy, TicksIn;
    if ops != [] {
      var t := StackStep(s, ops[0]);
      LoopRuns(t, ops[1..]);
      match ops[0] {
        case Timers(o) =>
          StepOnCalled(s.timers, WithTickOp(o, s.tickId));
          var n := TicksIn(StackCalls(s, t), s.tickId);
          TicksAreRun(s.loop, n);
          RunJoins(s.loop, SomeTicks(n), LoopOps(t, ops[1..]));
        case Events(o) =>
          RunOne(s.loop, o);
          RunJoins(s.loop, [o], LoopOps(t, ops[1..]));
      }
    }
  }

  lemma {:induction false} StackRunSnoc(s: Stack, ops: seq<StackOp>, op: StackOp)
    requires R.Inv(s.loop)
    ensures StackRun(s, ops + [op]) == StackStep(StackRun(s, ops), op)
    decreases |ops|
  {
    hide R.Inv, StackStep;
    if ops == [] {
      assert ([] + [op])[1..] == [];
      assert StackRun(StackStep(s, op), []) == StackStep(s, op);
    } else {
      assert (ops + [op])[0] == ops[0] && (ops + [op])[1..] == ops[1..] + [op];
      StackRunSnoc(StackStep(s, ops[0]), ops[1..], op);
    }
  }

  function EventOps(ops: seq<R.Op>): (r: seq<StackOp>)
    ensures |r| == |ops| && forall k | 0 <= k < |ops| :: r[k] == Events(ops[k])
  {
    if ops == [] then [] else [Events(ops[0])] + EventOps(ops[1..])
  }

  lemma {:induction false} EventsRun(s: Stack, history: seq<StackOp>, st: Stack, ops: seq<R.Op>)
    requires R.Inv(s.loop) && st == StackRun(s, history)
    ensures StackRun(s, history + EventOps(ops)) == st.(loop := R.Run(st.loop, ops))
    decreases |ops|
  {
    hide R.Inv, R.Step, StackRun, EventOps;
    if ops == [] {
      assert EventOps([]) == [];
      assert history + EventOps([]) == history;
    } else {
      var op, next := Events(ops[0]), StackStep(st, Events(ops[0]));
      StackRunSnoc(s, history, op);
      EventsRun(s, history + [op], next, ops[1..]);
      FirstEvent(history, ops);
    }
  }

  lemma FirstEvent(history: seq<StackOp>, ops: seq<R.Op>)
    requires ops != []
    ensures history + [Events(ops[0])] + EventOps(ops[1..]) == history + EventOps(ops)
  {
  }

  // ---------------------------------------------------------------- in place

  /** The callback timers and the event loop of one device; since `start` it has done what `history` says. */
  class Device {
    const timers: CallbackTimers
    const loop: Scheduler
    const tickId: int

    ghost var start: Stack
    ghost var history: seq<StackOp>

    ghost predicate Valid()
      reads this, timers, timers.timers, loop, loop.life.Keys
    {
      && timers.Valid() && !Any(timers.Cells(), RunInterrupt) && loop.Valid()
      && R.Inv(start.loop) && View() == StackRun(start, history)
    }

    ghost function View(): Stack
      reads this, timers, timers.timers, loop, loop.life.Keys
    {
      Stack(timers.View(), loop.Model(), tickId)
    }

    /** Initialisation registers the tick timer and starts it. */
    constructor (memoryLeft: bool)
      ensures Valid() && history == [] && View() == start && start.loop.clock == 0
      ensures start.tickId == if memoryLeft then 0 else -1
      ensures start.timers == if memoryLeft then StartOn(RegisterOn(NO_TIMERS), 0, TICK_SLOTS) else NO_TIMERS
      ensures start.loop == EventTheorems.Boot(loop.eventFree, loop.timerFree)
    {
      hide StartOn, R.Inv, EventTheorems.Boot, Any, Views, Scheduler.Valid, CallbackTimers.Valid, Scheduler.Model, StackStep;
      var t, id := TickTimerRegister(memoryLeft);
      var l := new Scheduler();
      timers, loop, tickId, history := t, l, id, [];
      start := Stack(t.View(), l.Model(), id);
      new;
      loop.ValidInv();
      FirstMarks(memoryLeft);
      Outset();
    }

    /** The first callback timer, if there is memory for it, is the tick timer. */
    static method TickTimerRegister(memoryLeft: bool) returns (t: CallbackTimers, id: int)
      ensures fresh(t) && t.Valid() && id == if memoryLeft then 0 else -1
      ensures t.View() == if memoryLeft then StartOn(RegisterOn(NO_TIMERS), 0, TICK_SLOTS) else NO_TIMERS
      ensures forall k | 0 <= k < |t.timers| :: fresh(t.timers[k])
    {
      hide StartOn, Views, RegisterOn, CallbackTimers.Valid, FreeId;
      NoneToStart();
      t := new CallbackTimers();
      id := t.Register(true, memoryLeft);
      assert forall k | 0 <= k < |t.timers| :: t.timers[k] in t.timers;
      var r := t.Start(id, TICK_SLOTS);
    }

    static lemma NoneToStart()
      ensures FreeId(Ids(NO_TIMERS.cells), 0) == 0 && StartOn(NO_TIMERS, -1, TICK_SLOTS) == NO_TIMERS
    {
    }

    lemma Outset()
      requires loop.Model() == EventTheorems.Boot(loop.eventFree, loop.timerFree)
      ensures loop.Model().clock == 0
    {
    }

    lemma FirstMarks(memoryLeft: bool)
      requires timers.View() == if memoryLeft then StartOn(RegisterOn(NO_TIMERS), 0, TICK_SLOTS) else NO_TIMERS
      ensures !Any(timers.Cells(), RunInterrupt)
    {
      hide StartOn;
      NoMarksAfterOp(RegisterOn(NO_TIMERS), Do(Start(0, TICK_SLOTS)));
    }

    // ---------------------------------------------------------------- callback timers

    /**
     Callback timers are registered, unregistered, started or stopped, or one slot passes; each callback of the
     tick timer starts it again and tells the event loop of one tick.
     */
    method TimerStep(op: Op)
      requires Valid()
      modifies this`history, timers, timers.timers
      modifies loop`ticks, loop`clock, loop`pending, loop`queue, loop.life.Keys
      ensures Valid() && history == old(history) + [Timers(op)]
      ensures View() == StackStep(old(View()), Timers(op))
    {
      hide R.Inv, Any, Views, Scheduler.Valid, CallbackTimers.Valid, Scheduler.Model, StackRun, StackStep;
      loop.ValidInv();
      StackRunSnoc(start, history, Timers(op));
      StepAndTell(op);
      history := history + [Timers(op)];
    }

    /** The step itself, and the ticks it causes. */
    method StepAndTell(op: Op)
      requires timers.Valid() && !Any(timers.Cells(), RunInterrupt) && loop.Valid()
      modifies timers, timers.timers
      modifies loop`ticks, loop`clock, loop`pending, loop`queue, loop.life.Keys
      ensures timers.Valid() && !Any(timers.Cells(), RunInterrupt) && loop.Valid() && R.Inv(old(loop.Model()))
      ensures View() == StackStep(old(View()), Timers(op))
    {
      hide R.Inv, StepOn, TicksIn, Any, Views, Scheduler.Valid, CallbackTimers.Valid, Scheduler.Model, WithTickOp;
      var before := |timers.called|;
      StepOnCalled(timers.View(), WithTickOp(op, tickId));
      loop.ValidInv();
      timers.PerformOp(WithTickOp(op, tickId));
      TellTicks(before);
    }

    /** One slot passes, clients act at that instant, and a due interrupt is served. */
    method ElapseSlot(acts: seq<Action>, scripts: Scripts)
      requires Valid()
      modifies this`history, timers, timers.timers
      modifies loop`ticks, loop`clock, loop`pending, loop`queue, loop.life.Keys
      ensures Valid() && history == old(history) + [Timers(Elapse(acts, scripts))]
      ensures View() == StackStep(old(View()), Timers(Elapse(acts, scripts)))
    {
      hide Valid, StackStep;
      TimerStep(Elapse(acts, scripts));
    }

    /** The ticks among the callbacks from position `from` on. */
    method TellTicks(from: nat)
      requires loop.Valid() && from <= |timers.called|
      modifies loop`ticks, loop`clock, loop`pending, loop`queue, loop.life.Keys
      ensures loop.Valid() && R.Inv(old(loop.Model()))
      ensures loop.Model() == TickedBy(old(loop.Model()), TicksIn(timers.called[from..], tickId))
    {
      hide R.Inv, TicksIn, TickedBy, Scheduler.Valid, Scheduler.Model;
      loop.ValidInv();
      ghost var st := loop.Model();
      NoTicksYet(st, timers.called[from..from], tickId);
      for i := from to |timers.called|
        invariant loop.Valid() && loop.Model() == TickedBy(st, TicksIn(timers.called[from..i], tickId))
      {
        NextTick(st, timers.called[from..i], timers.called[i], tickId);
        assert timers.called[from..i] + [timers.called[i]] == timers.called[from..i + 1];
        if timers.called[i].id == tickId {
          loop.AlwaysTold();
          loop.TickUpdate(1);
        }
      }
      assert timers.called[from..|timers.called|] == timers.called[from..];
    }

    method TickTimerStart(periodMs: U32) returns (r: int)
      requires Valid()
      modifies this`history, timers, timers.timers
      ensures Valid() && history == old(history) + [Timers(Do(Start(tickId, 20 * periodMs % TWO_16)))]
      ensures timers.View() == StartOn(old(timers.View()), tickId, 20 * periodMs % TWO_16)
      ensures r == if old(HasId(timers.Cells(), tickId)) then 0 else -1
    {
      hide R.Inv, StartOn, Any, HasId, Views, Scheduler.Valid, CallbackTimers.Valid, Scheduler.Model, StackRun;
      loop.ValidInv();
      StackRunSnoc(start, history, Timers(Do(Start(tickId, SLOTS_PER_MS * periodMs % TWO_16))));
      ActTicksNothing(View(), Start(tickId, SLOTS_PER_MS * periodMs % TWO_16));
      r := StartTick(periodMs);
      history := history + [Timers(Do(Start(tickId, SLOTS_PER_MS * periodMs % TWO_16)))];
    }

    /** Start the tick timer, whatever the event loop does. */
    method StartTick(periodMs: U32) returns (r: int)
      requires timers.Valid() && !Any(timers.Cells(), RunInterrupt)
      modifies timers, timers.timers
      ensures timers.Valid() && !Any(timers.Cells(), RunInterrupt)
      ensures timers.View() == StartOn(old(timers.View()), tickId, SLOTS_PER_MS * periodMs % TWO_16)
      ensures r == if old(HasId(timers.Cells(), tickId)) then 0 else -1
    {
      hide StartOn, Any, HasId, Views, CallbackTimers.Valid;
      NoMarksAfterOp(timers.View(), Do(Start(tickId, SLOTS_PER_MS * periodMs % TWO_16)));
      r := timers.Start(tickId, SLOTS_PER_MS * periodMs % TWO_16);
    }

    method TickTimerStop() returns (r: int)
      requires Valid()
      modifies this`history, timers, timers.timers
      ensures Valid() && history == old(history) + [Timers(Do(Stop(tickId)))]
      ensures timers.View() == StopOn(old(timers.View()), tickId)
      ensures r == if old(HasId(timers.Cells(), tickId)) then 0 else -1
    {
      hide R.Inv, StopOn, Any, HasId, Views, Scheduler.Valid, CallbackTimers.Valid, Scheduler.Model, StackRun;
      loop.ValidInv();
      StackRunSnoc(start, history, Timers(Do(Stop(tickId))));
      ActTicksNothing(View(), Stop(tickId));
      NoMarksAfterOp(timers.View(), Do(Stop(tickId)));
      r := timers.Stop(tickId);
      history := history + [Timers(Do(Stop(tickId)))];
    }

    // ---------------------------------------------------------------- the event loop

    /** Any call of the event loop, by a client, a handler or the dispatching loop. */
    method EventStep(c: Command) returns (ghost ops: seq<R.Op>)
      requires Valid() && loop.Timely(c)
      modifies this`history, loop, loop.life.Keys, Own(c)
      ensures Valid() && history == old(history) + EventOps(ops)
      ensures ComesTo(old(loop.Model()), c, ops) && timers.View() == old(timers.View())
    {
      hide R.Inv, Any, Views, Scheduler.Valid, CallbackTimers.Valid, Scheduler.Model, StackRun, ComesTo, EventOps;
      loop.ValidInv();
      ghost var st := View();
      ops := loop.Perform(c);
      EventsRun(start, history, st, ops);
      history := history + EventOps(ops);
    }

    /**
     After a sleep, make up for the ticks that were missed and start the tick timer again: 0, or -1 if it is not
     registered. A sleep so long that the first pending timer is taken for one to come queues nothing.
     */
    method TimerSynchAfterSleep(sleepTicks: U32) returns (r: int)
      requires Valid()
      modifies this`history, timers, timers.timers
      modifies loop`ticks, loop`clock, loop`pending, loop`queue, loop.life.Keys
      ensures r == if old(HasId(timers.Cells(), tickId)) then 0 else -1
      ensures timers.View() == StartOn(old(timers.View()), tickId, TICK_SLOTS)
      ensures loop.clock == old(loop.clock) + SleptTicks(sleepTicks)
      ensures 10 * (loop.clock - old(loop.clock) - 1) <= sleepTicks < 10 * (loop.clock - old(loop.clock))
      ensures history == old(history) + EventOps([R.TickUpdate(SleptTicks(sleepTicks))]) + [Timers(Do(Start(tickId, TICK_SLOTS)))]
      ensures Told(old(loop.Model()), SleptTicks(sleepTicks)) ==> Valid()
      ensures !Told(old(loop.Model()), SleptTicks(sleepTicks)) ==> loop.Model() == old(loop.Model()).(clock := loop.clock)
    {
      hide R.Inv, StartOn, Any, HasId, Views, Scheduler.Valid, CallbackTimers.Valid, Scheduler.Model, StackRun, Told, SleptTicks, EventOps;
      loop.ValidInv();
      ghost var st, ticks := View(), SleptTicks(sleepTicks);
      SleptAndStarted(start, history, st, ticks);
      loop.TimerSynchAfterSleep(sleepTicks);
      r := StartTick(10);
      history := history + EventOps([R.TickUpdate(ticks)]) + [Timers(Do(Start(tickId, TICK_SLOTS)))];
    }

    // ---------------------------------------------------------------- theorems about the program

    /** After any run from initialisation, the 32-bit tick count is floor(elapsed slots / 200) modulo 2^32. */
    lemma TickCountIsExact()
      requires Valid() && start.loop.clock == 0 && start.tickId == 0
      requires start.timers == StartOn(RegisterOn(NO_TIMERS), 0, TICK_SLOTS)
      requires forall op | op in history :: Undisturbed(op, 0)
      ensures loop.ticks == Low32(Slots(history) / 200)
    {
      hide R.Inv, Low32, StartOn, RegisterOn, StackRun, Undisturbed, Slots;
      NoneToStart();
      NothingRun();
      WholeStackTicks([], start.loop, history);
    }

    static lemma NothingRun()
      ensures RunOn(NO_TIMERS, []) == NO_TIMERS
    {
    }

    /** What is proved of every run of the event loop holds of the program, whatever it has done. */
    lemma LoopHasRun()
      requires Valid()
      ensures loop.Model() == R.Run(start.loop, LoopOps(start, history))
    {
      hide R.Inv, StackRun, LoopOps;
      LoopRuns(start, history);
    }
  }

  /** Starting or stopping a callback timer calls nothing, so the event loop hears of no tick. */
  lemma ActTicksNothing(s: Stack, a: Action)
    requires R.Inv(s.loop)
    ensures StackStep(s, Timers(Do(a))) == s.(timers := ActOn(s.timers, a))
  {
    hide R.Inv, ChangedAll, LeastHeld;
    assert ActOn(s.timers, a).called == s.timers.called;
    assert s.timers.called[|s.timers.called|..] == [];
  }

  /** A tick update, and then the tick timer's start. */
  lemma SleptAndStarted(s: Stack, history: seq<StackOp>, st: Stack, ticks: U32)
    requires R.Inv(s.loop) && st == StackRun(s, history)
    ensures var ops := history + EventOps([R.TickUpdate(ticks)]) + [Timers(Do(Start(st.tickId, TICK_SLOTS)))];
      (forall n | n in st.loop.pending :: n in st.loop.recs)
      && StackRun(s, ops) == Stack(StartOn(st.timers, st.tickId, TICK_SLOTS), S.Ticked(st.loop, ticks), st.tickId)
  {
    hide R.Inv, StackRun, StartOn, S.Ticked, EventOps;
    EventTheorems.InvFacts(st.loop);
    EventsRun(s, history, st, [R.TickUpdate(ticks)]);
    RunOne(st.loop, R.TickUpdate(ticks));
    R.TickedInv(st.loop, ticks);
    var slept := st.(loop := S.Ticked(st.loop, ticks));
    StackRunSnoc(s, history + EventOps([R.TickUpdate(ticks)]), Timers(Do(Start(st.tickId, TICK_SLOTS))));
    ActTicksNothing(slept, Start(st.tickId, TICK_SLOTS));
  }

  lemma NoTicksYet(st: S.State, called: seq<Invocation>, id: int)
    requires R.Inv(st) && called == []
    ensures TickedBy(st, TicksIn(called, id)) == st
  {
  }

  lemma NextTick(st: S.State, called: seq<Invocation>, c: Invocation, id: int)
    requires R.Inv(st)
    ensures var s := TickedBy(st, TicksIn(called, id));
      TickedBy(st, TicksIn(called + [c], id)) == if c.id == id then S.Ticked(s, 1) else s
  {
    assert (called + [c])[..|called + [c]| - 1] == called;
  }
}
