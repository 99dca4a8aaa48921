/** Runs from startup on which the event loop does not do what its documentation, or unbounded time, would have it do. */
module EventExamples {
  import opened Basics
  import opened Ticks
  import opened EventTypes
  import opened EventSpec
  import opened EventInvariants
  import opened EventOrder
  import opened EventRuns
  import opened EventTheorems
  import opened CancelTheorems
  import opened IdleTheorems
  import opened CatchUp
  import EventLoop

  /** The startup storages: two events and one timer struct at least. */
  ghost predicate Startup(events: seq<Storage>, structs: seq<Storage>) {
    Distinct(events + structs) && |events| >= 2 && |structs| >= 1
  }

  /** A handler is created; it gets id 0. */
  const NEW_HANDLER: Op := Create(7, 0, true, None)

  /** What the events of these runs hold: receiver 0, event id 5, medium priority. */
  const CLIENT_DATA: Event := Event(0, 0, 0, 5, 0, Medium, 0)

  /** After the handler has been created: its first event is queued. */
  ghost function WithHandler(events: seq<Storage>, structs: seq<Storage>): (st: State)
    requires events != []
  {
    var b := Boot(events, structs);
    b.(eventFree := events[1..], queue := [events[0]], tasklets := [Tasklet(0, 7)],
       recs := b.recs[events[0] := FRESH_REC.(data := Event(0, 0, 0, 0, 0, Low, 0), state := Queued)])
  }

  lemma HandlerCreated(events: seq<Storage>, structs: seq<Storage>)
    requires Startup(events, structs)
    ensures Inv(Boot(events, structs)) && Inv(WithHandler(events, structs))
    ensures Owned(Boot(events, structs), None) && Step(Boot(events, structs), NEW_HANDLER) == WithHandler(events, structs)
  {
    hide Inv, Owned, Created, FreeId, TaskletIds;
    var b := Boot(events, structs);
    BootInv(events, structs);
    InvOwned(b);
    StepInv(b, NEW_HANDLER);
    FirstCreated(events, structs);
  }

  lemma FirstCreated(events: seq<Storage>, structs: seq<Storage>)
    requires events != []
    ensures var b := Boot(events, structs);
      FreeId(TaskletIds(b.tasklets), 0) == 0 && Created(b, 7, 0, true, None) == WithHandler(events, structs)
  {
    hide Posted, TakenEvent;
    FirstPosted(events, structs);
    assert [] + [Tasklet(0, 7)] == [Tasklet(0, 7)];
  }

  lemma FirstPosted(events: seq<Storage>, structs: seq<Storage>)
    requires events != []
    ensures var b := Boot(events, structs);
      Posted(TakenEvent(b, None).(tasklets := [Tasklet(0, 7)]), events[0], Event(0, 0, 0, 0, 0, Low, 0)) == WithHandler(events, structs)
  {
    var b := Boot(events, structs);
    var t := Posted(TakenEvent(b, None).(tasklets := [Tasklet(0, 7)]), events[0], Event(0, 0, 0, 0, 0, Low, 0));
    assert t.recs == WithHandler(events, structs).recs;
  }

  /** A run is one step after the other. */
  lemma RunTwo(st: State, a: Op, b: Op)
    requires Inv(st)
    ensures Owned(st, None) && Inv(Step(st, a)) && Owned(Step(st, a), None) && Run(st, [a, b]) == Step(Step(st, a), b)
  {
    hide Inv, Step;
    InvOwned(st);
    StepInv(st, a);
    InvOwned(Step(st, a));
    StepInv(Step(st, a), b);
    assert [a, b][1..] == [b] && [b][1..] == [];
    assert Run(Step(st, a), [b]) == Run(Step(Step(st, a), b), []);
  }

  // ---------------------------------------------------------------- cancelling by id misses a queued timer

  /** A client's event and a timer's, with the same receiver and id, in the queue one after the other. */
  ghost function BothQueued(events: seq<Storage>, structs: seq<Storage>): (st: State)
    requires Startup(events, structs)
  {
    var h := WithHandler(events, structs);
    h.(eventFree := events[2..], timerFree := structs[1..], timers := h.timers + {structs[0]},
       queue := [events[1], structs[0], events[0]],
       recs := h.recs[events[1] := FRESH_REC.(data := CLIENT_DATA, state := Queued)]
                     [structs[0] := Rec(CLIENT_DATA, Timer, Queued, 0, 0, 0, 0, None)])
  }

  /**
   Creating a handler, sending an event with some id, and requesting a timer with the same id for at once:
   then cancelling by that id fails, and the timer's event stays queued.
   */
  lemma CancelMissesQueuedTimer(events: seq<Storage>, structs: seq<Storage>)
    requires Startup(events, structs)
    ensures Inv(Boot(events, structs))
    ensures var st := Run(Boot(events, structs), [NEW_HANDLER, Send(CLIENT_DATA, None), Request(CLIENT_DATA, 0, 0, None)]);
      && structs[0] in st.queue && structs[0] in st.recs && st.recs[structs[0]].allocator == Timer
      && Matches(st.recs, structs[0], 5, 0) && st.pending == []
      && CancelResult(st, 5, 0) == -1 && TimerCancelled(st, 5, 0) == st
  {
    hide Inv, Step, BothQueued, CancelTarget;
    HandlerCreated(events, structs);
    var b, h := Boot(events, structs), WithHandler(events, structs);
    var rest := [Send(CLIENT_DATA, None), Request(CLIENT_DATA, 0, 0, None)];
    assert ([NEW_HANDLER] + rest)[1..] == rest && [NEW_HANDLER] + rest == [NEW_HANDLER, rest[0], rest[1]];
    RunTwo(h, rest[0], rest[1]);
    ClientSent(events, structs);
    NothingFound(events, structs);
  }

  lemma ClientSent(events: seq<Storage>, structs: seq<Storage>)
    requires Startup(events, structs) && Owned(WithHandler(events, structs), None)
    requires Owned(Step(WithHandler(events, structs), Send(CLIENT_DATA, None)), None)
    ensures Step(Step(WithHandler(events, structs), Send(CLIENT_DATA, None)), Request(CLIENT_DATA, 0, 0, None)) == BothQueued(events, structs)
  {
    hide Owned, TaskletIds, Distinct;
    FewStorages(events, structs);
    var h := WithHandler(events, structs);
    OneHandler();
    var s := h.(eventFree := events[2..], queue := [events[1], events[0]],
                recs := h.recs[events[1] := FRESH_REC.(data := CLIENT_DATA, state := Queued)]);
    assert Step(h, Send(CLIENT_DATA, None)) == s by { SentStep(events, structs, s); }
    RequestStep(events, structs, s);
  }

  lemma OneHandler()
    ensures TaskletIds([Tasklet(0, 7)]) == [0]
  {
  }

  lemma FewStorages(events: seq<Storage>, structs: seq<Storage>)
    requires Startup(events, structs)
    ensures events[0] != events[1] && events[0] != structs[0] && events[1] != structs[0]
    ensures events[0] in events && events[1] in events && structs[0] in structs
  {
    var s := events + structs;
    assert s[0] == events[0] && s[1] == events[1] && s[|events|] == structs[0];
  }

  lemma HandlerIs(events: seq<Storage>, structs: seq<Storage>)
    requires |events| >= 2 && events[0] != events[1]
    ensures var h := WithHandler(events, structs);
      && h.eventFree == events[1..] && h.queue == [events[0]] && h.tasklets == [Tasklet(0, 7)]
      && events[0] in h.recs && h.recs[events[0]].data.priority == Low
      && events[1] in h.recs && h.recs[events[1]] == FRESH_REC
      && forall n | n in h.eventFree :: n in h.recs
  {
  }

  lemma SentStep(events: seq<Storage>, structs: seq<Storage>, s: State)
    requires Startup(events, structs) && events[0] != events[1] && TaskletIds([Tasklet(0, 7)]) == [0]
    requires Owned(WithHandler(events, structs), None)
    requires var h := WithHandler(events, structs);
      s == h.(eventFree := events[2..], queue := [events[1], events[0]],
              recs := h.recs[events[1] := FRESH_REC.(data := CLIENT_DATA, state := Queued)])
    ensures Step(WithHandler(events, structs), Send(CLIENT_DATA, None)) == s
  {
    hide Owned, TaskletIds, Distinct, WithHandler;
    HandlerIs(events, structs);
    var h, n := WithHandler(events, structs), events[1];
    var t := Revised(TakenEvent(h, None), n, TakenEvent(h, None).recs[n].(data := CLIENT_DATA));
    assert t.queue == [events[0]] && t.recs[n].data.priority == Medium;
    assert Slot(t.queue, t.recs, ByPriority, 1, 0) == 0;
    assert Write(t, n).recs == s.recs;
  }

  lemma RequestStep(events: seq<Storage>, structs: seq<Storage>, s: State)
    requires Startup(events, structs) && TaskletIds([Tasklet(0, 7)]) == [0] && Owned(s, None)
    requires events[0] != events[1] && events[0] != structs[0] && events[1] != structs[0] && events[0] in events
    requires var h := WithHandler(events, structs);
      s == h.(eventFree := events[2..], queue := [events[1], events[0]],
              recs := h.recs[events[1] := FRESH_REC.(data := CLIENT_DATA, state := Queued)])
    ensures Step(s, Request(CLIENT_DATA, 0, 0, None)) == BothQueued(events, structs)
  {
    hide Owned, TaskletIds, Distinct;
    var n := structs[0];
    var t := TakenTimer(s, CLIENT_DATA, 0, 0, None);
    assert t.queue == [events[1], events[0]];
    assert Slot(t.queue, t.recs, ByPriority, 1, 1) == 1;
    assert Slot(t.queue, t.recs, ByPriority, 1, 0) == 1;
    assert SendTimer(t, n).recs == BothQueued(events, structs).recs;
  }

  lemma NothingFound(events: seq<Storage>, structs: seq<Storage>)
    requires Startup(events, structs)
    ensures var st := BothQueued(events, structs);
      && structs[0] in st.queue && structs[0] in st.recs && st.recs[structs[0]].allocator == Timer
      && Matches(st.recs, structs[0], 5, 0) && st.pending == [] && CancelTarget(st, 5, 0).None?
  {
    hide Distinct;
    FewStorages(events, structs);
    var st := BothQueued(events, structs);
    assert st.queue[0] == events[1] && st.queue[1] == structs[0];
    assert Matches(st.recs, events[1], 5, 0);
  }

  // ---------------------------------------------------------------- a timer far ahead, or far behind

  /** One timer is pending, `delay` ticks ahead. */
  ghost function OnePending(events: seq<Storage>, structs: seq<Storage>, delay: nat, period: U32): (st: State)
    requires Startup(events, structs)
  {
    var h := WithHandler(events, structs);
    h.(timerFree := structs[1..], timers := h.timers + {structs[0]}, pending := [structs[0]], stamps := 1,
       recs := h.recs[structs[0] := Rec(CLIENT_DATA, Timer, Unqueued, delay, period, 0, 0, Some(0))])
  }

  lemma OneRequested(events: seq<Storage>, structs: seq<Storage>, delay: nat, period: U32)
    requires Startup(events, structs) && 0 < delay <= HORIZON && (period > 0 ==> delay == period)
    ensures Inv(Boot(events, structs)) && Inv(OnePending(events, structs, delay, period))
    ensures Run(Boot(events, structs), [NEW_HANDLER, Request(CLIENT_DATA, delay, period, None)]) == OnePending(events, structs, delay, period)
  {
    hide Inv, Step, OnePending;
    HandlerCreated(events, structs);
    RunTwo(Boot(events, structs), NEW_HANDLER, Request(CLIENT_DATA, delay, period, None));
    PendingStep(events, structs, delay, period);
  }

  lemma PendingStep(events: seq<Storage>, structs: seq<Storage>, delay: nat, period: U32)
    requires Startup(events, structs) && 0 < delay <= HORIZON && (period > 0 ==> delay == period)
    requires Owned(WithHandler(events, structs), None)
    ensures Step(WithHandler(events, structs), Request(CLIENT_DATA, delay, period, None)) == OnePending(events, structs, delay, period)
  {
    hide Owned, TaskletIds, Distinct;
    OneHandler();
    var t := TakenTimer(WithHandler(events, structs), CLIENT_DATA, delay, period, None);
    assert AddPending(t, structs[0]).recs == OnePending(events, structs, delay, period).recs;
  }

  /**
   With a timer 429496730 ticks ahead, the milliseconds to it wrap around to 4. Sleeping that long
   wakes up one tick on, and the timer is not queued.
   */
  lemma SleepsTooShort(events: seq<Storage>, structs: seq<Storage>)
    requires Startup(events, structs)
    ensures Inv(Boot(events, structs))
    ensures var st := Run(Boot(events, structs), [NEW_HANDLER, Request(CLIENT_DATA, 429496730, 0, None)]);
      && st.pending == [structs[0]] && Shortest(st) == 4 && SleptTicks(Shortest(st)) == 1
      && (forall n | n in st.pending :: n in st.recs)
      && structs[0] !in Ticked(st, SleptTicks(Shortest(st))).queue
  {
    hide Inv, Ticked, OnePending, Run, SleptTicks, TicksToMs;
    OneRequested(events, structs, 429496730, 0);
    var st := OnePending(events, structs, 429496730, 0);
    OneIs(events, structs, 429496730, 0);
    WrapsToFour();
    PendingKnown(st);
    SleepReachesFirst(st);
  }

  lemma OneIs(events: seq<Storage>, structs: seq<Storage>, delay: nat, period: U32)
    requires Startup(events, structs)
    ensures var st, n := OnePending(events, structs, delay, period), structs[0];
      st.clock == 0 && st.pending == [n] && n in st.recs && st.recs[n].due == delay
  {
  }

  lemma WrapsToFour()
    ensures TicksToMs(429496730) == 4 && SleptTicks(4) == 1
  {
  }

  lemma KnownPending(st: State)
    requires Inv(st)
    ensures forall n | n in st.pending :: n in st.recs
  {
    PendingKnown(st);
  }

  lemma LooksAhead()
    ensures !TicksBeforeOrAt(Low32(1), Low32(0x8000_0002))
  {
  }

  /**
   With a timer one tick ahead, a tick update by 2^31 + 2 takes it for one still to come: the first pending
   timer is not told from the future, and TickUpdate queues nothing, although the timer's time has come.
   */
  lemma JumpQueuesNothing(events: seq<Storage>, structs: seq<Storage>)
    requires Startup(events, structs)
    ensures Inv(Boot(events, structs))
    ensures var st := Run(Boot(events, structs), [NEW_HANDLER, Request(CLIENT_DATA, 1, 0, None)]); var n := structs[0];
      && st.clock == 0 && st.pending == [n] && n in st.recs && st.recs[n].due == 1
      && !EventLoop.Told(st, 0x8000_0002) && !TicksBeforeOrAt(Low32(1), Low32(0x8000_0002))
      && n in Ticked(st, 0x8000_0002).queue
  {
    hide Inv, Ticked, OnePending, Run, Low32, TicksBeforeOrAt;
    OneRequested(events, structs, 1, 0);
    var st := OnePending(events, structs, 1, 0);
    OneIs(events, structs, 1, 0);
    LooksAhead();
    KnownPending(st);
    TickQueuesExactlyTheDue(st, 0x8000_0002);
  }

  /**
   A timer of period 1 whose handler takes 2^31 + 2 ticks: when it returns, the timer waits for a time
   2^31 + 1 ticks past, where unbounded time would have it queued at once.
   */
  lemma LongHandlerDelaysTimer(events: seq<Storage>, structs: seq<Storage>)
    requires Startup(events, structs)
    ensures Inv(Boot(events, structs))
    ensures var st := Run(Run(Boot(events, structs), [NEW_HANDLER, Request(CLIENT_DATA, 1, 1, None)]),
                          [TickUpdate(1), Begin, TickUpdate(0x8000_0002)]); var n := structs[0];
      && st.running == Some(n) && n in st.recs && !InTime(st, n)
      && n in Ended(Nearest(st, n)).pending && n in Ended(st).queue
  {
    hide Inv, Ended, Nearest, Step;
    OneRequested(events, structs, 1, 1);
    var st := OnePending(events, structs, 1, 1);
    var x := RunningLong(events, structs);
    ReturnsInTimeIff(x, structs[0]);
    TrueReturn(x, structs[0]);
  }

  /** The state in which the handler of the periodic timer has run for a long time. */
  lemma RunningLong(events: seq<Storage>, structs: seq<Storage>) returns (x: State)
    requires Startup(events, structs) && Inv(OnePending(events, structs, 1, 1))
    ensures x == Run(OnePending(events, structs, 1, 1), [TickUpdate(1), Begin, TickUpdate(0x8000_0002)])
    ensures Inv(x) && x.running == Some(structs[0]) && structs[0] in x.recs && x.clock == 0x8000_0003
    ensures x.recs[structs[0]] == Rec(CLIENT_DATA, Timer, Running, 1, 1, 0, 0, Some(0))
  {
    hide Inv, Step;
    var st, n := OnePending(events, structs, 1, 1), structs[0];
    InvOwned(st);
    StepInv(st, TickUpdate(1));
    var s := Step(st, TickUpdate(1));
    Expires(events, structs);
    RunTwo(s, Begin, TickUpdate(0x8000_0002));
    var ops := [TickUpdate(1), Begin, TickUpdate(0x8000_0002)];
    assert ops[1..] == [Begin, TickUpdate(0x8000_0002)];
    x := Run(st, ops);
    Runs(s, n);
  }

  lemma Expires(events: seq<Storage>, structs: seq<Storage>)
    requires Startup(events, structs) && Owned(OnePending(events, structs, 1, 1), None)
    ensures var s := Step(OnePending(events, structs, 1, 1), TickUpdate(1)); var n := structs[0];
      && s.queue != [] && s.queue[0] == n && n in s.recs && s.pending == [] && s.running == None && s.clock == 1
      && s.recs[n] == Rec(CLIENT_DATA, Timer, Queued, 1, 1, 0, 0, Some(0))
  {
    hide Owned, Distinct;
    FewStorages(events, structs);
    var st, n := OnePending(events, structs, 1, 1).(clock := 1), structs[0];
    var q := st.(pending := []);
    assert st.pending[1..] == [];
    assert Slot(q.queue, q.recs, ByPriority, 1, 0) == 0;
    assert Expire(SendTimer(q, n)) == SendTimer(q, n);
  }

  lemma Runs(s: State, n: Storage)
    requires Inv(s) && s.queue != [] && s.queue[0] == n && n in s.recs && s.pending == [] && s.running == None
    requires Owned(s, None) && Owned(Step(s, Begin), None)
    ensures var x := Step(Step(s, Begin), TickUpdate(0x8000_0002));
      x.running == Some(n) && x.clock == s.clock + 0x8000_0002 && n in x.recs && x.recs[n] == s.recs[n].(state := Running)
  {
    hide Inv, Owned;
  }

  lemma TrueReturn(x: State, n: Storage)
    requires Inv(x) && x.running == Some(n) && n in x.recs && x.clock == 0x8000_0003
    requires x.recs[n] == Rec(CLIENT_DATA, Timer, Running, 1, 1, 0, 0, Some(0))
    ensures n in Ended(x).queue
  {
    hide Inv, Slot;
  }
}
