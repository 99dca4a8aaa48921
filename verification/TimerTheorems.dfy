/** Properties of every run of timer plans. */
module TimerTheorems {
  import opened Basics
  import opened TimerPlan

  // ---------------------------------------------------------------- 16 bits are enough

  /** Every scheduled timer's slots, and the zero-slot delays since it was asked for, stay within 65535 together. */
  ghost predicate Room(p: Plan) {
    forall i | i in p.due :: p.due[i].asked.slots + (p.pushed - p.due[i].asked.pushed) < TWO_16
  }

  /** There is room after each of these actions. */
  ghost predicate RoomForAll(p: Plan, acts: seq<Action>)
    decreases |acts|
  {
    acts == [] || (Room(Act(p, acts[0])) && RoomForAll(Act(p, acts[0]), acts[1..]))
  }

  /** There is room throughout the callbacks of an interrupt, from list position `k` on. */
  ghost predicate RoomInCallbacks(p: Plan, k: nat, scripts: Scripts)
    decreases |p.ids| - k
  {
    if k >= |p.ids| then true
    else if p.ids[k] in p.firing then
      && RoomForAll(Entered(p, p.ids[k]), Script(scripts, p.ids[k]))
      && RoomInCallbacks(Called(p, p.ids[k], scripts), k + 1, scripts)
    else RoomInCallbacks(p, k + 1, scripts)
  }

  ghost predicate RoomInStep(p: Plan, op: Op) {
    match op
    case Do(a) => Room(Act(p, a))
    case Elapse(acts, scripts) =>
      var q := ActAll(p.(now := p.now + 1), acts);
      RoomForAll(p.(now := p.now + 1), acts) && (q.expiry == Some(q.now) ==> RoomInCallbacks(Expired(q), 0, scripts))
    case _ => true
  }

  /** There is room in every state the run passes through. */
  ghost predicate RoomInRun(p: Plan, ops: seq<Op>)
    decreases |ops|
  {
    ops == [] || (RoomInStep(p, ops[0]) && RoomInRun(Step(p, ops[0]), ops[1..]))
  }

  lemma ActExact(p: Plan, a: Action)
    requires Good(p) && p.exact && Room(Act(p, a))
    ensures Act(p, a).exact
  {
    ActGood(p, a);
    var q := Act(p, a);
    forall i | i in q.due ensures q.due[i].at - q.now < TWO_16 {
      assert OnTime(q.due[i], q.pushed);
    }
    if a.Stop? {
      assert forall i | i in p.due - {a.id} :: i in q.due && q.due[i] == p.due[i];
    }
  }

  lemma {:induction false} ActAllExact(p: Plan, acts: seq<Action>)
    requires Good(p) && p.exact && RoomForAll(p, acts)
    ensures ActAll(p, acts).exact
    decreases |acts|
  {
    hide Room, Act, Good;
    if acts != [] {
      ActGood(p, acts[0]);
      ActExact(p, acts[0]);
      ActAllExact(Act(p, acts[0]), acts[1..]);
    }
  }

  lemma {:induction false} DispatchedExact(p: Plan, k: nat, scripts: Scripts)
    requires Good(p) && Ahead(p) && p.exact && RoomInCallbacks(p, k, scripts)
    ensures Dispatched(p, k, scripts).exact
    decreases |p.ids| - k
  {
    hide Room, ActAll, Good, RoomForAll;
    if k < |p.ids| {
      if p.ids[k] in p.firing {
        CalledGood(p, p.ids[k], scripts);
        CalledEntry(p, p.ids[k]);
        ActAllExact(Entered(p, p.ids[k]), Script(scripts, p.ids[k]));
        DispatchedExact(Called(p, p.ids[k], scripts), k + 1, scripts);
      } else {
        DispatchedExact(p, k + 1, scripts);
      }
    }
  }

  lemma StepExact(p: Plan, op: Op)
    requires Quiet(p) && p.exact && RoomInStep(p, op)
    ensures Step(p, op).exact
  {
    hide Room, ActAll, Dispatched, RoomForAll, RoomInCallbacks, Act, Earliest;
    match op
    case Register =>
    case Unregister(id) =>
    case Do(a) => ActExact(p, a);
    case Elapse(acts, scripts) =>
      var q := p.(now := p.now + 1);
      assert Good(q);
      ActAllGood(q, acts);
      ActAllExact(q, acts);
      var r := ActAll(q, acts);
      if r.expiry == Some(r.now) {
        ExpiredGood(r);
        DispatchedExact(Expired(r), 0, scripts);
      }
  }

  /**
   No delta overflows on any run in which every scheduled timer has room at all times:
   the slots it was asked for, plus the zero-slot delays since, stay within 65535.
   */
  lemma {:induction false} RunExact(p: Plan, ops: seq<Op>)
    requires Quiet(p) && p.exact && RoomInRun(p, ops)
    ensures Run(p, ops).exact
    decreases |ops|
  {
    hide Quiet, Step, RoomInStep;
    if ops != [] {
      StepQuiet(p, ops[0]);
      StepExact(p, ops[0]);
      RunExact(Step(p, ops[0]), ops[1..]);
    }
  }

  // ---------------------------------------------------------------- deadlines are independent

  ghost predicate Positive(acts: seq<Action>) {
    forall a | a in acts :: a.Start? ==> a.slots > 0
  }

  ghost predicate PositiveScripts(scripts: Scripts) {
    forall i | i in scripts :: Positive(scripts[i])
  }

  ghost predicate PositiveOp(op: Op) {
    && (op.Do? ==> Positive([op.action]))
    && (op.Elapse? ==> Positive(op.acts) && PositiveScripts(op.scripts))
  }

  predicate Touches(acts: seq<Action>, id: int) {
    exists a | a in acts :: a.id == id
  }

  /** Timer `id` stands the same in both plans. */
  ghost predicate Same(p: Plan, q: Plan, id: int) {
    && (id in p.due <==> id in q.due) && (id in p.due ==> p.due[id] == q.due[id])
    && (id in p.firing <==> id in q.firing) && (id in p.firing ==> p.firing[id] == q.firing[id])
  }

  /** Starting and stopping with positive slots changes only the deadline of the timer named. */
  lemma ActExactly(p: Plan, a: Action)
    requires Good(p)
    ensures a.Start? && a.id in p.ids && a.slots > 0 ==>
      Act(p, a).due == p.due[a.id := Due(p.now + a.slots, Asked(a.slots, p.now, p.pushed))]
    ensures a.Stop? ==> Act(p, a).due == p.due - {a.id}
    ensures a.id !in p.ids ==> Act(p, a) == p
    ensures Act(p, a).firing == p.firing - {a.id}
    ensures Positive([a]) ==> Act(p, a).pushed == p.pushed
  {
    assert a in [a];
    if a.Start? && a.slots > 0 {
      assert (map i | i in p.due :: Due(p.due[i].at + 0, p.due[i].asked)) == p.due;
    }
    if a.id !in p.due {
      assert p.due - {a.id} == p.due;
    }
    if a.id !in p.firing {
      assert p.firing - {a.id} == p.firing;
    }
  }

  /** The slot a start makes its timer due: the one asked for, except that a hardware timer is given one slot at least. */
  function StartedFor(p: Plan, slots: U16): (at: nat) {
    if slots == 0 && (p.expiry.None? || p.expiry.value > p.now) then p.now + 1 else p.now + slots
  }

  /**
   Starting a registered timer, with any number of slots, schedules it for the request made. With zero slots, and the
   hardware timer idle or not yet run out, it and every other timer are one slot later; else the others stay as they
   were. The hardware timer runs out no later than for the timer started.
   */
  lemma StartSchedules(p: Plan, id: int, slots: U16)
    requires Good(p) && id in p.ids
    ensures var q, late := Started(p, id, slots), StartedFor(p, slots) - (p.now + slots);
      && id in q.due && q.due[id] == Due(StartedFor(p, slots), Asked(slots, p.now, p.pushed)) && id !in q.firing
      && (forall i | i in p.due && i != id :: i in q.due && q.due[i] == Due(p.due[i].at + late, p.due[i].asked))
      && (forall i | i in q.due && i != id :: i in p.due)
      && (forall i | i in p.firing && i != id :: i in q.firing && q.firing[i] == p.firing[i])
      && (forall i | i in q.firing :: i in p.firing)
      && q.pushed == p.pushed + late
      && q.now == p.now && q.ids == p.ids && q.log == p.log
      && q.expiry == (if p.expiry.Some? && p.expiry.value <= p.now + slots then p.expiry else Some(StartedFor(p, slots)))
  {
  }

  /**
   A timer started with any number of slots, zero included, and touched by nobody since, is called exactly once, at
   the slot it was started for, whatever other timers are registered, started, restarted, stopped or called meanwhile.
   */
  lemma StartedIsCalledOnce(p: Plan, id: int, slots: U16, ops: seq<Op>)
    requires Quiet(p) && id in p.ids && forall op | op in ops :: KeepsOp(op, id, None)
    ensures var at, q := StartedFor(p, slots), Run(Started(p, id, slots), ops);
      if at <= q.now
      then id !in q.due && |Calls(q.log, id)| == |Calls(p.log, id)| + 1 && Calls(p.log, id) < Calls(q.log, id)
           && Calls(q.log, id)[|Calls(p.log, id)|].time == at
           && Calls(q.log, id)[|Calls(p.log, id)|].asked == Asked(slots, p.now, p.pushed)
      else id in q.due && q.due[id].at == at && Calls(q.log, id) == Calls(p.log, id)
  {
    hide Quiet, Started, Run, KeepsOp, Calls, StartedFor;
    StepQuiet(p, Do(Start(id, slots)));
    QuietIsGood(p);
    StartSchedules(p, id, slots);
    FiresOnceOnTime(Started(p, id, slots), ops, id);
  }

  lemma QuietIsGood(p: Plan)
    requires Quiet(p)
    ensures Good(p)
  {
  }

  /** Actions are carried out one after the other, all of them. */
  lemma {:induction false} ActAllInOrder(p: Plan, acts: seq<Action>, a: Action)
    ensures ActAll(p, []) == p && ActAll(p, acts + [a]) == Act(ActAll(p, acts), a)
    decreases |acts|
  {
    hide Act;
    if acts == [] {
      assert ([] + [a])[1..] == [];
      assert ActAll(Act(p, a), []) == Act(p, a);
    } else {
      assert (acts + [a])[0] == acts[0] && (acts + [a])[1..] == acts[1..] + [a];
      ActAllInOrder(Act(p, acts[0]), acts[1..], a);
    }
  }

  lemma {:induction false} ActAllFrame(p: Plan, acts: seq<Action>, id: int)
    requires Good(p) && Positive(acts) && !Touches(acts, id)
    ensures Same(p, ActAll(p, acts), id)
    ensures ActAll(p, acts).pushed == p.pushed
    decreases |acts|
  {
    if acts != [] {
      assert acts[0] in acts;
      ActExactly(p, acts[0]);
      ActGood(p, acts[0]);
      ActAllFrame(Act(p, acts[0]), acts[1..], id);
    }
  }

  // ---------------------------------------------------------------- one interrupt calls each due timer once

  /** What remains firing after a callback: exactly the timers it did not start or stop. */
  lemma {:induction false} ActAllFiring(p: Plan, acts: seq<Action>)
    requires Good(p)
    ensures ActAll(p, acts).firing == map i | i in p.firing && !Touches(acts, i) :: p.firing[i]
    decreases |acts|
  {
    if acts == [] {
      assert (map i | i in p.firing && !Touches(acts, i) :: p.firing[i]) == p.firing;
    } else {
      var q := Act(p, acts[0]);
      ActExactly(p, acts[0]);
      ActGood(p, acts[0]);
      ActAllFiring(q, acts[1..]);
      forall i ensures Touches(acts, i) <==> acts[0].id == i || Touches(acts[1..], i) {
        assert acts == [acts[0]] + acts[1..];
        assert acts[0] in acts;
      }
    }
  }

  ghost predicate Before(ids: seq<int>, x: int, y: int) {
    exists m | 0 <= m < |ids| :: ids[m] == x && y in ids[m + 1..]
  }

  function Rest(ids: seq<int>, k: nat): seq<int> {
    if k <= |ids| then ids[k..] else []
  }

  /** Invocation `f` is that of a timer firing in `p`, from position `k` on. */
  ghost predicate Answers(p: Plan, k: nat, f: Firing) {
    f.id in p.firing && f.id in Rest(p.ids, k) && f == Firing(f.id, p.firing[f.id], p.now, f.pushed)
  }

  /** Invocation `f` may come before `g`: list order, and its callback leaves g's timer alone. */
  ghost predicate InTurn(ids: seq<int>, scripts: Scripts, f: Firing, g: Firing) {
    Before(ids, f.id, g.id) && !Touches(Script(scripts, f.id), g.id)
  }

  ghost predicate CalledOnce(p: Plan, k: nat, scripts: Scripts, fired: seq<Firing>) {
    && (forall f | f in fired :: Answers(p, k, f))
    && (forall a, b | 0 <= a < b < |fired| :: InTurn(p.ids, scripts, fired[a], fired[b]))
  }

  /** Timer `i` is called, unless a timer called before it started or stopped it. */
  ghost predicate Served(ids: seq<int>, scripts: Scripts, fired: seq<Firing>, i: int) {
    exists f | f in fired ::
      f.id == i || (Before(ids, f.id, i) && Touches(Script(scripts, f.id), i))
  }

  lemma {:induction false} DispatchedOnce(p: Plan, k: nat, scripts: Scripts)
    requires Good(p) && Ahead(p) && k <= |p.ids|
    requires forall i | i in p.firing :: i in p.ids[k..]
    ensures CalledOnce(p, k, scripts, Dispatched(p, k, scripts).log[|p.log|..])
    ensures forall i | i in p.firing :: Served(p.ids, scripts, Dispatched(p, k, scripts).log[|p.log|..], i)
    decreases |p.ids| - k
  {
    var q := Dispatched(p, k, scripts);
    if k < |p.ids| {
      assert p.ids[k..] == [p.ids[k]] + p.ids[k + 1..];
      if p.ids[k] in p.firing {
        var r := Called(p, p.ids[k], scripts);
        CalledGood(p, p.ids[k], scripts);
        CalledFiring(p, p.ids[k], scripts);
        DispatchedOnce(r, k + 1, scripts);
        var later := Dispatched(r, k + 1, scripts).log[|r.log|..];
        var f := Firing(p.ids[k], p.firing[p.ids[k]], p.now, p.pushed);
        LogSplits(p, k, scripts);
        JoinCalls(p, k, scripts, f, r, later);
        JoinServed(p, k, scripts, f, r, later);
      } else {
        DispatchedOnce(p, k + 1, scripts);
      }
    }
  }

  /** Calling the timer at `k` puts its invocation in front of those of the rest. */
  lemma LogSplits(p: Plan, k: nat, scripts: Scripts)
    requires k < |p.ids| && p.ids[k] in p.firing
    ensures var r := Called(p, p.ids[k], scripts);
      Dispatched(p, k, scripts).log[|p.log|..] ==
      [Firing(p.ids[k], p.firing[p.ids[k]], p.now, p.pushed)] + Dispatched(r, k + 1, scripts).log[|r.log|..]
  {
    var r := Called(p, p.ids[k], scripts);
    var q := Dispatched(r, k + 1, scripts);
    assert q.log == q.log[..|r.log|] + q.log[|r.log|..];
    assert q.log[..|r.log|] == r.log;
  }

  lemma {:induction false} CalledFiring(p: Plan, id: int, scripts: Scripts)
    requires Good(p) && id in p.firing
    ensures Called(p, id, scripts).firing == map i | i in p.firing && i != id && !Touches(Script(scripts, id), i) :: p.firing[i]
  {
    var q := Entered(p, id);
    CalledEntry(p, id);
    ActAllFiring(q, Script(scripts, id));
  }

  lemma JoinServed(p: Plan, k: nat, scripts: Scripts, f: Firing, r: Plan, later: seq<Firing>)
    requires k < |p.ids| && p.ids[k] == f.id
    requires r.ids == p.ids
    requires r.firing == map i | i in p.firing && i != f.id && !Touches(Script(scripts, f.id), i) :: p.firing[i]
    requires forall i | i in p.firing :: i == f.id || i in p.ids[k + 1..]
    requires forall i | i in r.firing :: Served(r.ids, scripts, later, i)
    ensures forall i | i in p.firing :: Served(p.ids, scripts, [f] + later, i)
  {
    forall i | i in p.firing ensures Served(p.ids, scripts, [f] + later, i) {
      assert f in [f] + later;
      if i in r.firing {
        assert Served(r.ids, scripts, later, i);
        var g :| g in later && (g.id == i || (Before(r.ids, g.id, i) && Touches(Script(scripts, g.id), i)));
        assert g in [f] + later;
      }
    }
  }

  lemma JoinCalls(p: Plan, k: nat, scripts: Scripts, f: Firing, r: Plan, later: seq<Firing>)
    requires k < |p.ids| && p.ids[k] == f.id && f.id in p.firing && f == Firing(f.id, p.firing[f.id], p.now, f.pushed)
    requires r.ids == p.ids && r.now == p.now
    requires r.firing == map i | i in p.firing && i != f.id && !Touches(Script(scripts, f.id), i) :: p.firing[i]
    requires CalledOnce(r, k + 1, scripts, later)
    ensures CalledOnce(p, k, scripts, [f] + later)
  {
    var fired := [f] + later;
    assert Rest(p.ids, k) == [f.id] + Rest(p.ids, k + 1);
    forall g | g in fired ensures Answers(p, k, g) {
      assert g == f || (g in later && Answers(r, k + 1, g));
    }
    forall a, b | 0 <= a < b < |fired| ensures InTurn(p.ids, scripts, fired[a], fired[b]) {
      if a > 0 {
        assert InTurn(r.ids, scripts, later[a - 1], later[b - 1]);
      } else {
        assert later[b - 1] in later && Answers(r, k + 1, later[b - 1]);
      }
    }
  }

  /** A due timer: scheduled for the present slot. */
  ghost predicate DueNow(p: Plan, i: int) {
    i in p.due && p.due[i].at == p.now
  }

  /**
   The interrupt calls exactly the timers due now, once each and in list order,
   except those a callback of the same interrupt restarted or stopped first.
   */
  lemma {:induction false} InterruptCallsDueOnce(p: Plan, scripts: Scripts)
    requires Good(p) && p.expiry == Some(p.now) && p.firing == map[]
    ensures var fired := Interrupted(p, scripts).log[|p.log|..];
      && (forall f | f in fired :: DueNow(p, f.id) && f.asked == p.due[f.id].asked && f.time == p.now)
      && (forall a, b | 0 <= a < b < |fired| ::
            fired[a].id != fired[b].id && InTurn(p.ids, scripts, fired[a], fired[b]))
      && (forall i | DueNow(p, i) :: Served(p.ids, scripts, fired, i))
  {
    ExpiredGood(p);
    DispatchedOnce(Expired(p), 0, scripts);
  }

  // ---------------------------------------------------------------- one timer through a run

  /** The invocations of one timer's callback, in order. */
  ghost function Calls(log: seq<Firing>, id: int): (r: seq<Firing>) {
    if log == [] then []
    else Calls(log[..|log| - 1], id) + (if log[|log| - 1].id == id then [log[|log| - 1]] else [])
  }

  /**
   Only its own callback touches timer `id`, and that either leaves it alone
   (`again` is None) or first of all starts it again with `again` slots.
   */
  ghost predicate Keeps(scripts: Scripts, id: int, again: Option<U16>) {
    && PositiveScripts(scripts)
    && (forall i | i in scripts && i != id :: !Touches(scripts[i], id))
    && var own := Script(scripts, id);
       if again.None? then !Touches(own, id)
       else own != [] && own[0] == Start(id, again.value) && !Touches(own[1..], id)
  }

  ghost predicate KeepsOp(op: Op, id: int, again: Option<U16>) {
    match op
    case Register => true
    case Unregister(i) => i != id
    case Do(a) => a.id != id && Positive([a])
    case Elapse(acts, scripts) => Positive(acts) && !Touches(acts, id) && Keeps(scripts, id, again)
  }

  /** After its call, the timer is gone or due again `again` slots from now. */
  ghost predicate Renewed(p: Plan, id: int, again: Option<U16>) {
    if again.None? then id !in p.due
    else id in p.due && p.due[id] == Due(p.now + again.value, Asked(again.value, p.now, p.pushed))
  }

  lemma {:induction false} CalledOther(p: Plan, other: int, scripts: Scripts, id: int, again: Option<U16>)
    requires Good(p) && Ahead(p) && Keeps(scripts, id, again) && other in p.firing && other != id
    ensures Same(p, Called(p, other, scripts), id)
    ensures Called(p, other, scripts).pushed == p.pushed
    ensures Calls(Called(p, other, scripts).log, id) == Calls(p.log, id)
  {
    var q := Entered(p, other);
    assert Good(q) by { CalledEntry(p, other); }
    assert q.log[..|q.log| - 1] == p.log;
    ActAllFrame(q, Script(scripts, other), id);
  }

  lemma {:induction false} CalledSelf(p: Plan, scripts: Scripts, id: int, again: Option<U16>)
    requires Good(p) && Ahead(p) && Keeps(scripts, id, again) && id in p.firing
    ensures Renewed(Called(p, id, scripts), id, again) && id !in Called(p, id, scripts).firing
    ensures Called(p, id, scripts).pushed == p.pushed
    ensures Calls(Called(p, id, scripts).log, id) == Calls(p.log, id) + [Firing(id, p.firing[id], p.now, p.pushed)]
  {
    var q := Entered(p, id);
    CalledEntry(p, id);
    assert q.log[..|q.log| - 1] == p.log;
    var own := Script(scripts, id);
    if again.None? {
      ActAllFrame(q, own, id);
    } else {
      assert own[0] in own;
      ActExactly(q, own[0]);
      ActGood(q, own[0]);
      ActAllFrame(Act(q, own[0]), own[1..], id);
    }
  }

  lemma {:induction false} DispatchedFrame(p: Plan, k: nat, scripts: Scripts, id: int, again: Option<U16>)
    requires Good(p) && Ahead(p) && k <= |p.ids| && Keeps(scripts, id, again) && id !in p.firing
    ensures Same(p, Dispatched(p, k, scripts), id)
    ensures Dispatched(p, k, scripts).pushed == p.pushed
    ensures Calls(Dispatched(p, k, scripts).log, id) == Calls(p.log, id)
    decreases |p.ids| - k
  {
    if k < |p.ids| {
      if p.ids[k] in p.firing {
        CalledGood(p, p.ids[k], scripts);
        CalledOther(p, p.ids[k], scripts, id, again);
        DispatchedFrame(Called(p, p.ids[k], scripts), k + 1, scripts, id, again);
      } else {
        DispatchedFrame(p, k + 1, scripts, id, again);
      }
    }
  }

  /** From `p` to `q`, the firing timer `id` has been called once and is renewed or gone. */
  ghost predicate CalledAndRenewed(p: Plan, q: Plan, id: int, again: Option<U16>)
    requires id in p.firing
  {
    && Renewed(q, id, again) && q.pushed == p.pushed
    && Calls(q.log, id) == Calls(p.log, id) + [Firing(id, p.firing[id], p.now, p.pushed)]
  }

  lemma {:induction false} DispatchedSelf(p: Plan, k: nat, scripts: Scripts, id: int, again: Option<U16>)
    requires Good(p) && Ahead(p) && k <= |p.ids| && Keeps(scripts, id, again)
    requires id in p.firing && id in p.ids[k..]
    ensures CalledAndRenewed(p, Dispatched(p, k, scripts), id, again)
    decreases |p.ids| - k, 1
  {
    assert p.ids[k..] == [p.ids[k]] + p.ids[k + 1..];
    if p.ids[k] == id {
      DispatchedSelfNow(p, k, scripts, again);
    } else if p.ids[k] in p.firing {
      DispatchedSelfLater(p, k, scripts, id, again);
    } else {
      DispatchedSelf(p, k + 1, scripts, id, again);
    }
  }

  lemma {:induction false} DispatchedSelfNow(p: Plan, k: nat, scripts: Scripts, again: Option<U16>)
    requires Good(p) && Ahead(p) && k < |p.ids| && p.ids[k] in p.firing && Keeps(scripts, p.ids[k], again)
    ensures CalledAndRenewed(p, Dispatched(p, k, scripts), p.ids[k], again)
  {
    var id, r := p.ids[k], Called(p, p.ids[k], scripts);
    CalledGood(p, id, scripts);
    CalledSelf(p, scripts, id, again);
    assert r.ids == p.ids && r.now == p.now;
    DispatchedFrame(r, k + 1, scripts, id, again);
    var q := Dispatched(r, k + 1, scripts);
    assert Dispatched(p, k, scripts) == q;
    assert Renewed(q, id, again);
  }

  lemma {:induction false} DispatchedSelfLater(p: Plan, k: nat, scripts: Scripts, id: int, again: Option<U16>)
    requires Good(p) && Ahead(p) && k < |p.ids| && p.ids[k] in p.firing && p.ids[k] != id && Keeps(scripts, id, again)
    requires id in p.firing && id in p.ids[k + 1..]
    ensures CalledAndRenewed(p, Dispatched(p, k, scripts), id, again)
    decreases |p.ids| - k, 0
  {
    var r := Called(p, p.ids[k], scripts);
    CalledGood(p, p.ids[k], scripts);
    CalledOther(p, p.ids[k], scripts, id, again);
    DispatchedSelf(r, k + 1, scripts, id, again);
  }

  /** One elapsed slot: timer `id` is called if its deadline has come, and is left alone otherwise. */
  lemma {:induction false} ElapsedOne(p: Plan, acts: seq<Action>, scripts: Scripts, id: int, again: Option<U16>)
    requires Quiet(p) && Positive(acts) && !Touches(acts, id) && Keeps(scripts, id, again)
    ensures var q := Elapsed(p, acts, scripts);
      && q.now == p.now + 1 && q.pushed == p.pushed
      && if id in p.due && p.due[id].at == q.now
         then Renewed(q, id, again) && Calls(q.log, id) == Calls(p.log, id) + [Firing(id, p.due[id].asked, q.now, p.pushed)]
         else Same(p, q, id) && Calls(q.log, id) == Calls(p.log, id)
  {
    var q := p.(now := p.now + 1);
    assert Good(q);
    ActAllGood(q, acts);
    ActAllFrame(q, acts, id);
    var r := ActAll(q, acts);
    if r.expiry == Some(r.now) {
      ExpiredGood(r);
      if id in r.due && r.due[id].at == r.now {
        DispatchedSelf(Expired(r), 0, scripts, id, again);
      } else {
        DispatchedFrame(Expired(r), 0, scripts, id, again);
      }
    }
  }

  /** Steps other than elapsing time leave a timer they do not name alone. */
  lemma StepFrame(p: Plan, op: Op, id: int, again: Option<U16>)
    requires Quiet(p) && KeepsOp(op, id, again) && !op.Elapse?
    ensures Same(p, Step(p, op), id)
    ensures Step(p, op).now == p.now && Step(p, op).log == p.log && Step(p, op).pushed == p.pushed
  {
    if op.Do? {
      ActExactly(p, op.action);
    }
  }

  /**
   A timer nobody restarts or stops is called exactly once, at the very slot
   asked for, whatever other timers are registered, started, restarted, stopped or called.
   */
  lemma {:induction false} FiresOnceOnTime(p: Plan, ops: seq<Op>, id: int)
    requires Quiet(p)
    requires forall op | op in ops :: KeepsOp(op, id, None)
    ensures var q := Run(p, ops);
      if id in p.due && p.due[id].at <= q.now
      then id !in q.due && Calls(q.log, id) == Calls(p.log, id) + [Firing(id, p.due[id].asked, p.due[id].at, p.pushed)]
      else Same(p, q, id) && Calls(q.log, id) == Calls(p.log, id)
    decreases |ops|
  {
    if ops != [] {
      var op, q := ops[0], Step(p, ops[0]);
      assert op in ops;
      StepQuiet(p, op);
      if op.Elapse? {
        ElapsedOne(p, op.acts, op.scripts, id, None);
      } else {
        StepFrame(p, op, id, None);
      }
      FiresOnceOnTime(q, ops[1..], id);
    }
  }

  /**
   A self-renewing timer in step: started at `base` and called n times since, when its log
   held `before` calls, it is due one period after the n-th beat.
   */
  ghost predicate InPhase(p: Plan, id: int, base: nat, period: U16, before: nat) {
    var n := |Calls(p.log, id)| - before;
    n >= 0 && id in p.due && p.due[id].at == Beat(base, period, n + 1) && p.due[id].at - period <= p.now < p.due[id].at
  }

  lemma {:induction false} StepKeepsPhase(p: Plan, op: Op, id: int, base: nat, period: U16, before: nat)
    requires Quiet(p) && period > 0 && InPhase(p, id, base, period, before) && KeepsOp(op, id, Some(period))
    ensures InPhase(Step(p, op), id, base, period, before)
  {
    if op.Elapse? {
      ElapsedOne(p, op.acts, op.scripts, id, Some(period));
    } else {
      StepFrame(p, op, id, Some(period));
    }
  }

  lemma {:induction false} RenewalsKeepPhase(p: Plan, ops: seq<Op>, id: int, base: nat, period: U16, before: nat)
    requires Quiet(p) && period > 0 && InPhase(p, id, base, period, before)
    requires forall op | op in ops :: KeepsOp(op, id, Some(period))
    ensures InPhase(Run(p, ops), id, base, period, before)
    decreases |ops|
  {
    if ops != [] {
      assert ops[0] in ops;
      StepQuiet(p, ops[0]);
      StepKeepsPhase(p, ops[0], id, base, period, before);
      RenewalsKeepPhase(Step(p, ops[0]), ops[1..], id, base, period, before);
    }
  }

  /**
   A timer that renews itself from its own callback never drifts: started
   with `period` slots, it has since been called floor((now - start) / period) times.
   */
  lemma {:induction false} RenewalsNeverDrift(p: Plan, ops: seq<Op>, id: int, period: U16)
    requires Quiet(p) && period > 0 && id in p.ids
    requires forall op | op in ops :: KeepsOp(op, id, Some(period))
    ensures var q := Run(Started(p, id, period), ops);
      |Calls(q.log, id)| == |Calls(p.log, id)| + (q.now - p.now) / period
  {
    hide Quiet, Run, KeepsOp, Started, Calls;
    RenewalStarts(p, id, period);
    var s := Started(p, id, period);
    RenewalsKeepPhase(s, ops, id, p.now, period, |Calls(p.log, id)|);
    var q := Run(s, ops);
    BeatsSoFar(p.now, period, |Calls(q.log, id)| - |Calls(p.log, id)|, q.now);
  }

  lemma RenewalStarts(p: Plan, id: int, period: U16)
    requires Quiet(p) && period > 0 && id in p.ids
    ensures Quiet(Started(p, id, period)) && Started(p, id, period).now == p.now
    ensures InPhase(Started(p, id, period), id, p.now, period, |Calls(p.log, id)|)
  {
    var a := Start(id, period);
    StepQuiet(p, Do(a));
    ActExactly(p, a);
  }
}
