/** What clients and handlers call, with what the allocator answers, and the operations of the specification that this comes to. */
module Commands {
  import opened Basics
  import opened Ticks
  import opened EventTypes
  import opened EventSpec
  import opened EventInvariants
  import opened EventRuns
  import opened EventEffects
  import opened IdleTheorems

  /** Ticks for a delay in milliseconds: two at least, else one more than the whole ones. */
  function LegacyTicks(time: U32): (t: U32) {
    if time <= 20 then 2 else time / 10 + 1
  }

  /** Calls of the event loop. Events to be cancelled are named by the place they are in. */
  datatype Command =
    | CreateHandler(handler: nat, initType: U8, taskletMemory: bool, eventMemory: bool)
    | SendEvent(data: Event, memory: bool)
    | SendOwn(n: Storage, data: Event)
    | RequestAt(data: Event, at: U32, memory: bool)
    | RequestIn(data: Event, delay: I32, memory: bool)
    | RequestEvery(data: Event, period: I32, memory: bool)
    | RequestAfter(eventId: U8, eventType: U8, tasklet: I8, time: U32, memory: bool)
    | PassTicks(ticks: U32)
    | CancelPending(k: nat)
    | CancelQueued(k: nat)
    | CancelRunning
    | CancelById(eventId: U8, tasklet: I8)
    | BeginDispatch
    | EndDispatch

  /** The storages of clients' own that a command uses. */
  function Own(c: Command): (s: set<Storage>) {
    if c.SendOwn? then {c.n} else {}
  }

  /** A request that gets a struct whenever there is a handler and memory. */
  ghost predicate Requests(st: State, ops: seq<Op>, data: Event, delay: int, period: U32, memory: bool) {
    && |ops| == 1 && ops[0].Request? && ops[0].data == data && ops[0].delay == delay && ops[0].period == period
    && New(st, ops[0].spare) && (ops[0].spare.Some? ==> memory)
    && (memory && Registered(st, data.receiver) ==> NextTimer(st, ops[0].spare).Some?)
  }

  ghost predicate Cancels(ops: seq<Op>, n: Option<Storage>) {
    ops == if n.Some? then [Cancel(n.value)] else []
  }

  function At(s: seq<Storage>, k: nat): (n: Option<Storage>) {
    if k < |s| then Some(s[k]) else None
  }

  /** In state `st` the command is this operation, or none if it names no event or asks for no period. */
  ghost predicate ComesTo(st: State, c: Command, ops: seq<Op>) {
    match c
    case CreateHandler(handler, initType, taskletMemory, eventMemory) =>
      && |ops| == 1 && ops[0].Create? && ops[0].handler == handler && ops[0].initType == initType
      && ops[0].memory == taskletMemory && New(st, ops[0].spare) && (ops[0].spare.Some? ==> eventMemory)
      && (taskletMemory && eventMemory && !HandlerKnown(st, handler) && FreeId(TaskletIds(st.tasklets), 0) < 128 ==>
            NextEvent(st, ops[0].spare).Some?)
    case SendEvent(data, memory) =>
      && |ops| == 1 && ops[0].Send? && ops[0].data == data && New(st, ops[0].spare) && (ops[0].spare.Some? ==> memory)
      && (memory && Registered(st, data.receiver) ==> NextEvent(st, ops[0].spare).Some?)
    case SendOwn(n, data) => ops == [SendUser(n, data)]
    case RequestAt(data, at, memory) => Requests(st, ops, data, Difference(at, Low32(st.clock)), 0, memory)
    case RequestIn(data, delay, memory) => Requests(st, ops, data, delay, 0, memory)
    case RequestEvery(data, period, memory) => if period <= 0 then ops == [] else Requests(st, ops, data, period, period, memory)
    case RequestAfter(eventId, eventType, tasklet, time, memory) =>
      Requests(st, ops, Event(tasklet, 0, eventType, eventId, 0, Medium, 0), LegacyTicks(time), 0, memory)
    case PassTicks(ticks) => ops == [TickUpdate(ticks)]
    case CancelPending(k) => Cancels(ops, At(st.pending, k))
    case CancelQueued(k) => Cancels(ops, At(st.queue, k))
    case CancelRunning => Cancels(ops, st.running)
    case CancelById(eventId, tasklet) => ops == [CancelTimer(eventId, tasklet)]
    case BeginDispatch => ops == [Begin]
    case EndDispatch => ops == [End]
  }

  /** These operations are what the commands come to, one after the other. */
  ghost predicate Follows(st: State, cs: seq<Command>, ops: seq<Op>)
    requires Inv(st)
    decreases |cs|
  {
    if cs == [] then ops == []
    else
      exists k | 0 <= k <= |ops| ::
        ComesTo(st, cs[0], ops[..k]) && Follows(Run(st, ops[..k]), cs[1..], ops[k..])
  }

  /** The command queues nothing: it cancels, or requests a timer for later than `ticks`. */
  predicate SilentCommand(c: Command, ticks: U32) {
    match c
    case RequestAt(_, at, _) => Difference(at, ticks) > 0
    case RequestIn(_, delay, _) => delay > 0
    case RequestEvery(_, _, _) => true
    case RequestAfter(_, _, _, _, _) => true
    case CancelPending(_) => true
    case CancelQueued(_) => true
    case CancelRunning => true
    case CancelById(_, _) => true
    case _ => false
  }

  lemma SilentComesTo(st: State, c: Command, ops: seq<Op>)
    requires ComesTo(st, c, ops) && SilentCommand(c, Low32(st.clock))
    ensures Silent(ops)
  {
  }

  lemma {:induction false} RunJoins(st: State, a: seq<Op>, b: seq<Op>)
    requires Inv(st)
    ensures Run(st, a + b) == Run(Run(st, a), b)
    decreases |a|
  {
    hide Inv, Step;
    if a == [] {
      assert a + b == b;
    } else {
      assert (a + b)[0] == a[0] && (a + b)[1..] == a[1..] + b;
      InvOwned(st);
      StepInv(st, a[0]);
      RunJoins(Step(st, a[0]), a[1..], b);
    }
  }

  lemma RunOne(st: State, op: Op)
    requires Inv(st)
    ensures Owned(st, None) && Run(st, [op]) == Step(st, op)
  {
    hide Inv, Step;
    InvOwned(st);
    StepInv(st, op);
    assert [op][1..] == [];
  }

  lemma FollowsOn(st: State, cs: seq<Command>, first: seq<Op>, rest: seq<Op>)
    requires Inv(st) && cs != [] && ComesTo(st, cs[0], first) && Follows(Run(st, first), cs[1..], rest)
    ensures Follows(st, cs, first + rest)
  {
    hide Inv, Run, ComesTo;
    var ops := first + rest;
    assert ops[..|first|] == first && ops[|first|..] == rest;
  }

  lemma SilentJoins(a: seq<Op>, b: seq<Op>)
    requires Silent(a) && Silent(b)
    ensures Silent(a + b)
  {
  }

  // ---------------------------------------------------------------- requests

  /**
   A request with a handler, and a struct or memory for one, starts a timer that is due as asked: at the nearest time with
   the given low 32 bits; after the given delay; after the given period, and every such period from then on; or, for the
   older request, 2 ticks from now for up to 20 ms, and else after the least number of ticks that make more than the time
   in milliseconds.
   */
  lemma RequestedTimes(st: State, c: Command, ops: seq<Op>)
    requires Inv(st) && ComesTo(st, c, ops) && ops != [] && ops[0].Request?
    requires HasReceiver(st, ops[0].data.receiver) && (st.timerFree != [] || c.memory)
    ensures Owned(st, None)
    ensures var t, n := Step(st, ops[0]), if st.timerFree != [] then Some(st.timerFree[0]) else ops[0].spare;
      && n.Some? && n.value in t.recs && (n.value in t.pending || n.value in t.queue)
      && var r := t.recs[n.value]; var d := r.due - st.clock;
         match c
         case RequestAt(data, at, _) => r.data == data && Low32(r.due) == at && -HALF_32 <= d < HALF_32 && r.period == 0
         case RequestIn(data, delay, _) => r.data == data && d == delay && r.period == 0
         case RequestEvery(data, period, _) => r.data == data && d == period == r.period
         case RequestAfter(eventId, eventType, tasklet, time, _) =>
           && r.data == Event(tasklet, 0, eventType, eventId, 0, Medium, 0) && r.period == 0
           && if time <= 20 then d == 2 else 10 * (d - 1) <= time < 10 * d
         case _ => true
  {
    hide Inv, Step, Low32, TaskletIds, OnlyTouches;
    var op := ops[0];
    ReceiverIsRegistered(st, op.data.receiver);
    RequestSchedules(st, op.data, op.delay, op.period, op.spare);
    if c.RequestAt? {
      NearestCount(st.clock, c.at);
    } else if c.RequestAfter? {
      LegacyCovers(c.time);
    }
  }

  lemma LegacyCovers(time: U32)
    ensures var d := LegacyTicks(time); if time <= 20 then d == 2 else 10 * (d - 1) <= time < 10 * d
  {
  }

  // ---------------------------------------------------------------- dispatches one after the other

  /** The script of dispatch `i` is what these commands come to in its state. */
  ghost predicate Made(st: State, scripts: seq<seq<Op>>, i: nat, cs: seq<Command>)
    requires i < |scripts|
  {
    && Idle(st) && Idle(HandledAll(st, scripts[..i])) && Inv(Begun(HandledAll(st, scripts[..i])))
    && Follows(Begun(HandledAll(st, scripts[..i])), cs, scripts[i])
  }

  lemma NoneHandled(st: State, handlers: nat -> seq<Command>)
    requires Idle(st)
    ensures Busy(st, []) && HandledAll(st, []) == st && AllMade(st, [], handlers)
  {
    hide Inv;
  }

  lemma NothingToBegin(st: State)
    requires st.queue == []
    ensures Begun(st) == st
  {
  }

  lemma {:induction false} HandledSnoc(st: State, scripts: seq<seq<Op>>, script: seq<Op>)
    requires Idle(st) && Busy(st, scripts) && HandledAll(st, scripts).queue != []
    ensures Idle(HandledAll(st, scripts)) && Busy(st, scripts + [script])
    ensures HandledAll(st, scripts + [script]) == Handled(HandledAll(st, scripts), script)
    decreases |scripts|
  {
    hide Inv, Handled;
    if scripts == [] {
      HandledIdles(st, script);
      assert ([] + [script])[1..] == [];
    } else {
      HandledIdles(st, scripts[0]);
      HandledSnoc(Handled(st, scripts[0]), scripts[1..], script);
      assert (scripts + [script])[0] == scripts[0] && (scripts + [script])[1..] == scripts[1..] + [script];
    }
  }

  /** All these scripts are silent, and made by the handlers of their dispatches. */
  ghost predicate AllMade(st: State, scripts: seq<seq<Op>>, handlers: nat -> seq<Command>) {
    forall i | 0 <= i < |scripts| :: Silent(scripts[i]) && Made(st, scripts, i, handlers(i))
  }

  lemma AllSilent(st: State, scripts: seq<seq<Op>>, handlers: nat -> seq<Command>)
    requires AllMade(st, scripts, handlers)
    ensures forall k | 0 <= k < |scripts| :: Silent(scripts[k])
  {
  }

  lemma OneMoreHandled(st: State, scripts: seq<seq<Op>>, script: seq<Op>, handlers: nat -> seq<Command>)
    requires Idle(st) && Busy(st, scripts) && HandledAll(st, scripts).queue != [] && AllMade(st, scripts, handlers)
    requires Inv(Begun(HandledAll(st, scripts))) && Silent(script)
    requires Follows(Begun(HandledAll(st, scripts)), handlers(|scripts|), script)
    ensures Idle(HandledAll(st, scripts)) && Busy(st, scripts + [script])
    ensures HandledAll(st, scripts + [script]) == Handled(HandledAll(st, scripts), script)
    ensures AllMade(st, scripts + [script], handlers)
  {
    hide Inv, Handled, HandledAll, Busy, Begun, Follows, Silent;
    HandledSnoc(st, scripts, script);
    var next := scripts + [script];
    assert next[..|scripts|] == scripts;
    forall k | 0 <= k < |next| ensures Silent(next[k]) && Made(st, next, k, handlers(k)) {
      if k < |scripts| {
        assert Made(st, scripts, k, handlers(k));
        assert next[..k] == scripts[..k];
      }
    }
  }

  /** With handlers that do nothing the number of dispatches is exactly what was owed. */
  lemma {:induction false} InertIsDrained(st: State, scripts: seq<seq<Op>>)
    requires Idle(st) && Busy(st, scripts) && HandledAll(st, scripts).queue == []
    ensures (forall i | 0 <= i < |scripts| :: scripts[i] == []) ==> (HandledAll(st, scripts), |scripts|) == Drained(st)
    decreases |scripts|
  {
    hide Inv, Handled, Dispatched, Load;
    if scripts != [] && forall i | 0 <= i < |scripts| :: scripts[i] == [] {
      InertIsSilent(st);
      HandledIdles(st, scripts[0]);
      DispatchPaysOne(st);
      InertIsDrained(Handled(st, scripts[0]), scripts[1..]);
    }
  }
}
