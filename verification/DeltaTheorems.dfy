/** What the delta-coded timers guarantee on every run from startup, and where 16 bits give out. */
module DeltaTheorems {
  import opened Basics
  import opened TimerPlan
  import opened TimerTheorems
  import opened DeltaTimers

  // ---------------------------------------------------------------- startup

  const NO_TIMERS: Deltas := Deltas([], false, 0, [])

  const NO_PLAN: Plan := Plan(0, [], None, map[], map[], 0, [], true)

  lemma NothingRepresentsNothing()
    ensures Quiet(NO_PLAN) && Represents(NO_TIMERS, NO_PLAN)
  {
  }

  // ---------------------------------------------------------------- runs without zero-slot starts

  lemma {:induction false} ActAllPushesNothing(p: Plan, acts: seq<Action>)
    requires Positive(acts)
    ensures ActAll(p, acts).pushed == p.pushed
    decreases |acts|
  {
    if acts != [] {
      assert acts[0] in acts;
      ActAllPushesNothing(Act(p, acts[0]), acts[1..]);
    }
  }

  lemma {:induction false} DispatchedPushesNothing(p: Plan, k: nat, scripts: Scripts)
    requires PositiveScripts(scripts)
    ensures Dispatched(p, k, scripts).pushed == p.pushed
    decreases |p.ids| - k
  {
    hide ActAll;
    if k < |p.ids| {
      if p.ids[k] in p.firing {
        var id := p.ids[k];
        ActAllPushesNothing(Entered(p, id), Script(scripts, id));
        DispatchedPushesNothing(Called(p, id, scripts), k + 1, scripts);
      } else {
        DispatchedPushesNothing(p, k + 1, scripts);
      }
    }
  }

  lemma StepPushesNothing(p: Plan, op: Op)
    requires PositiveOp(op)
    ensures Step(p, op).pushed == p.pushed
  {
    hide ActAll, Dispatched;
    match op
    case Do(a) => assert a in [a];
    case Elapse(acts, scripts) =>
      var q := ActAll(p.(now := p.now + 1), acts);
      ActAllPushesNothing(p.(now := p.now + 1), acts);
      DispatchedPushesNothing(Expired(q), 0, scripts);
    case _ =>
  }

  lemma {:induction false} RunPushesNothing(p: Plan, ops: seq<Op>)
    requires forall op | op in ops :: PositiveOp(op)
    ensures Run(p, ops).pushed == p.pushed
    decreases |ops|
  {
    hide Step;
    if ops != [] {
      assert ops[0] in ops;
      StepPushesNothing(p, ops[0]);
      RunPushesNothing(Step(p, ops[0]), ops[1..]);
    }
  }

  // Without delays there is always room.

  lemma NoDelaysRoom(p: Plan)
    requires Good(p) && p.pushed == 0
    ensures Room(p)
  {
  }

  lemma {:induction false} NoDelaysRoomForAll(p: Plan, acts: seq<Action>)
    requires Good(p) && p.pushed == 0 && Positive(acts)
    ensures RoomForAll(p, acts)
    decreases |acts|
  {
    hide Good, Room;
    if acts != [] {
      assert acts[0] in acts;
      var q := Act(p, acts[0]);
      ActGood(p, acts[0]);
      NoDelaysRoom(q);
      NoDelaysRoomForAll(q, acts[1..]);
    }
  }

  lemma {:induction false} NoDelaysRoomInCallbacks(p: Plan, k: nat, scripts: Scripts)
    requires Good(p) && Ahead(p) && p.pushed == 0 && PositiveScripts(scripts)
    ensures RoomInCallbacks(p, k, scripts)
    decreases |p.ids| - k
  {
    hide Good, ActAll, RoomForAll;
    if k < |p.ids| {
      var id := p.ids[k];
      if id in p.firing {
        CalledEntry(p, id);
        CalledGood(p, id, scripts);
        NoDelaysRoomForAll(Entered(p, id), Script(scripts, id));
        ActAllPushesNothing(Entered(p, id), Script(scripts, id));
        NoDelaysRoomInCallbacks(Called(p, id, scripts), k + 1, scripts);
      } else {
        NoDelaysRoomInCallbacks(p, k + 1, scripts);
      }
    }
  }

  lemma NoDelaysRoomInStep(p: Plan, op: Op)
    requires Quiet(p) && p.pushed == 0 && PositiveOp(op)
    ensures RoomInStep(p, op)
  {
    hide ActAll, RoomForAll, RoomInCallbacks, Room, Earliest;
    match op
    case Do(a) =>
      assert a in [a];
      ActGood(p, a);
      NoDelaysRoom(Act(p, a));
    case Elapse(acts, scripts) =>
      var q := p.(now := p.now + 1);
      assert Good(q);
      ActAllGood(q, acts);
      ActAllPushesNothing(q, acts);
      NoDelaysRoomForAll(q, acts);
      var r := ActAll(q, acts);
      if r.expiry == Some(r.now) {
        ExpiredGood(r);
        NoDelaysRoomInCallbacks(Expired(r), 0, scripts);
      }
    case _ =>
  }

  lemma {:induction false} NoDelaysRoomInRun(p: Plan, ops: seq<Op>)
    requires Quiet(p) && p.pushed == 0 && forall op | op in ops :: PositiveOp(op)
    ensures RoomInRun(p, ops)
    decreases |ops|
  {
    hide Quiet, Step, RoomInStep, PositiveOp;
    if ops != [] {
      assert ops[0] in ops;
      NoDelaysRoomInStep(p, ops[0]);
      StepQuiet(p, ops[0]);
      StepPushesNothing(p, ops[0]);
      NoDelaysRoomInRun(Step(p, ops[0]), ops[1..]);
    }
  }

  /**
   Zero-slot starts allowed: as long as each scheduled timer's slots, and the delays such
   starts have caused since it was asked for, stay within 65535 together, the list refines the
   plan, so no timer is early and each is late by no more than the delays since.
   */
  lemma RunsWithDelays(ops: seq<Op>)
    requires RoomInRun(NO_PLAN, ops)
    ensures Represents(RunOn(NO_TIMERS, ops), Run(NO_PLAN, ops)) && Quiet(Run(NO_PLAN, ops))
    ensures forall f | f in Run(NO_PLAN, ops).log :: Punctual(f)
  {
    hide Represents, Run, RunOn, RoomInRun;
    NothingRepresentsNothing();
    RunExact(NO_PLAN, ops);
    RunRefines(NO_TIMERS, NO_PLAN, ops);
    RunQuiet(NO_PLAN, ops);
  }

  /** Without zero-slot starts every run from startup refines its plan, and nothing is ever late. */
  lemma EveryRunRefines(ops: seq<Op>)
    requires forall op | op in ops :: PositiveOp(op)
    ensures Represents(RunOn(NO_TIMERS, ops), Run(NO_PLAN, ops)) && Quiet(Run(NO_PLAN, ops)) && Run(NO_PLAN, ops).pushed == 0
  {
    hide Represents, Run, RunOn, PositiveOp, RoomInRun;
    NothingRepresentsNothing();
    RunPushesNothing(NO_PLAN, ops);
    NoDelaysRoomInRun(NO_PLAN, ops);
    RunsWithDelays(ops);
  }

  /** Slots until this timer fires, as the list has it: what is left on the hardware timer, and its delta. */
  function Remaining(d: Deltas, c: Cell): nat {
    d.hal + if c.state == Hold then c.remaining else 0
  }

  predicate Scheduled(c: Cell) {
    c.state == Active || c.state == Hold
  }

  /**
   In every state such a run reaches, each scheduled timer's remaining slots are
   its deadline less the present time. So none is stranded: the hardware timer
   runs, no later than for the earliest; and no delta is 0 or beyond 16 bits.
   */
  lemma DeltasAreDeadlines(ops: seq<Op>, k: nat)
    requires forall op | op in ops :: PositiveOp(op)
    requires k < |RunOn(NO_TIMERS, ops).cells|
    ensures var d, p := RunOn(NO_TIMERS, ops), Run(NO_PLAN, ops); var c := d.cells[k];
      && c.state != RunInterrupt
      && (c.id in p.due <==> Scheduled(c))
      && (Scheduled(c) ==>
            && d.running && 0 < d.hal && (c.state == Hold ==> 0 < c.remaining)
            && Remaining(d, c) == p.due[c.id].at - p.now <= p.due[c.id].asked.slots == c.slots
            && p.due[c.id].at == p.due[c.id].asked.at + c.slots)
  {
    hide Run, RunOn, PositiveOp;
    EveryRunRefines(ops);
    var d, p := RunOn(NO_TIMERS, ops), Run(NO_PLAN, ops);
    assert Means(p, Left(d), d.cells[k]);
  }

  // ---------------------------------------------------------------- where 16 bits give out

  /** Starting this timer keeps the deltas of all others within 16 bits. */
  predicate StartFits(d: Deltas, id: int, slots: U16) {
    HasId(d.cells, id) && d.running && d.hal > slots ==>
      forall k | 0 <= k < |d.cells| && d.cells[k].state == Hold && d.cells[k].id != id ::
        d.cells[k].remaining + d.hal - slots < TWO_16
  }

  /** Stopping this timer keeps the deltas of all others within 16 bits. */
  predicate StopFits(d: Deltas, id: int) {
    Stoppable(d.cells, id) && (forall k | 0 <= k < |d.cells| && d.cells[k].id != id :: d.cells[k].state != Active) ==>
      forall k | 0 <= k < |d.cells| && d.cells[k].state == Hold && d.cells[k].id != id ::
        d.cells[k].remaining + d.hal < TWO_16
  }

  /** When timer `i` is due, going by its request and the delays since. */
  ghost function Deadline(p: Plan, i: int): int
    requires i in p.due
  {
    p.due[i].asked.at + p.due[i].asked.slots + (p.pushed - p.due[i].asked.pushed)
  }

  /** All other timers are due less than 65536 slots after the one to be started. */
  ghost predicate NoneFarBehind(p: Plan, id: int, slots: U16) {
    id in p.ids ==> forall i | i in p.due && i != id :: Deadline(p, i) - (p.now + slots) < TWO_16
  }

  /** Some other timer is due at the next hardware expiry, or all are due less than 65536 slots from now. */
  ghost predicate NoneFarAhead(p: Plan, id: int) {
    id in p.due || id in p.firing ==>
      || (exists i :: i in p.due && i != id && p.expiry == Some(Deadline(p, i)))
      || forall i | i in p.due && i != id :: Deadline(p, i) - p.now < TWO_16
  }

  /** A state that represents a plan has room for all its deadlines. */
  lemma RepresentedFits(d: Deltas, p: Plan, i: int)
    requires Good(p) && Represents(d, p) && i in p.due
    ensures p.expiry.Some? && p.due[i].at - p.expiry.value < TWO_16
  {
    var k :| 0 <= k < |p.ids| && p.ids[k] == i;
    assert d.cells[k].id == i && Means(p, Left(d), d.cells[k]);
  }

  /**
   Starting, by clients or callbacks at any time, does what the plan says exactly when the deltas of all
   other timers keep to 16 bits. In terms of requests: when none of them is due 65536 slots or more
   after the time asked for.
   */
  lemma StartRefinesIff(d: Deltas, p: Plan, id: int, slots: U16)
    requires Good(p) && Represents(d, p) && p.exact
    ensures Represents(StartOn(d, id, slots), Started(p, id, slots)) <==> StartFits(d, id, slots)
    ensures StartFits(d, id, slots) <==> NoneFarBehind(p, id, slots)
  {
    hide Represents, StartOn, Ids;
    StartFitsInRequests(d, p, id, slots);
    var q := Started(p, id, slots);
    HasIdIsRegistered(d, p, id) by { KeepsIds(d, p); }
    StartFitsIsExact(d, p, id, slots);
    if q.exact {
      StartRefines(d, p, id, slots);
    } else if Represents(StartOn(d, id, slots), q) {
      StartedGood(p, id, slots);
      forall i | i in q.due ensures q.due[i].at - q.expiry.value < TWO_16 {
        RepresentedFits(StartOn(d, id, slots), q, i);
      }
    }
  }

  lemma StartFitsInRequests(d: Deltas, p: Plan, id: int, slots: U16)
    requires Good(p) && Represents(d, p) && p.exact
    ensures StartFits(d, id, slots) <==> NoneFarBehind(p, id, slots)
  {
    hide Represents, Seen, StartFits;
    StartFitsIsExact(d, p, id, slots);
    forall i | i in p.due ensures p.due[i].at == Deadline(p, i) && p.expiry.Some? && p.due[i].at - p.expiry.value < TWO_16 {
      assert OnTime(p.due[i], p.pushed);
      RepresentedFits(d, p, i);
    }
    var q := Started(p, id, slots);
    if id in p.ids && Preempts(p, slots) {
      var push := if slots == 0 then 1 else 0;
      assert forall i | i in p.due && i != id :: i in q.due && q.due[i].at == p.due[i].at + push;
    }
  }

  lemma KeepsIds(d: Deltas, p: Plan)
    requires Represents(d, p)
    ensures Ids(d.cells) == p.ids
  {
  }

  lemma StartFitsIsExact(d: Deltas, p: Plan, id: int, slots: U16)
    requires Good(p) && Represents(d, p) && p.exact
    ensures Started(p, id, slots).exact <==> StartFits(d, id, slots)
  {
    hide Ids, Seen;
    HasIdIsRegistered(d, p, id);
    var q := Started(p, id, slots);
    if q.exact {
      forall k | HasId(d.cells, id) && d.running && d.hal > slots && 0 <= k < |d.cells| && d.cells[k].state == Hold && d.cells[k].id != id
        ensures d.cells[k].remaining + d.hal - slots < TWO_16
      {
        assert Means(p, Left(d), d.cells[k]);
        assert q.due[d.cells[k].id].at - q.expiry.value < TWO_16;
      }
    }
    if StartFits(d, id, slots) && Preempts(p, slots) && id in p.ids {
      forall i | i in q.due ensures q.due[i].at - (p.now + AtLeastOne(slots)) < TWO_16 {
        if i != id {
          var k :| 0 <= k < |p.ids| && p.ids[k] == i;
          assert d.cells[k].id == i && Means(p, Left(d), d.cells[k]);
        }
      }
    }
  }

  /**
   Stopping, by clients or callbacks at any time, does what the plan says exactly when the deltas of all
   other timers keep to 16 bits. In terms of requests: when one of them is due at the next hardware
   expiry, or none is due 65536 slots or more from now.
   */
  lemma StopRefinesIff(d: Deltas, p: Plan, id: int)
    requires Good(p) && Represents(d, p) && p.exact
    ensures Represents(StopOn(d, id), Stopped(p, id)) <==> StopFits(d, id)
    ensures StopFits(d, id) <==> NoneFarAhead(p, id)
  {
    hide Represents, StopOn, Ids, StopFits, NoneFarAhead;
    StopFitsInRequests(d, p, id);
    var q := Stopped(p, id);
    StopFitsIsExact(d, p, id);
    if q.exact {
      StopRefines(d, p, id);
    } else if Represents(StopOn(d, id), q) {
      StopLost(d, p, id);
    }
  }

  /** With the timer out of the way: room is needed only when nothing else is Active. */
  lemma StopFitsInRequests(d: Deltas, p: Plan, id: int)
    requires Good(p) && Represents(d, p) && p.exact
    ensures StopFits(d, id) <==> NoneFarAhead(p, id)
  {
    hide Represents, Seen, StopFits;
    StopFitsIsExact(d, p, id);
    forall i | i in p.due ensures p.due[i].at == Deadline(p, i) {
      assert OnTime(p.due[i], p.pushed);
    }
    var q := p.(due := p.due - {id}, firing := p.firing - {id});
    assert forall i | i in p.due && i != id :: i in q.due && q.due[i] == p.due[i];
  }

  lemma StopFitsIsExact(d: Deltas, p: Plan, id: int)
    requires Good(p) && Represents(d, p) && p.exact
    ensures Stopped(p, id).exact <==> StopFits(d, id)
  {
    hide Ids, Represents, Good, Empty, ChangedAll, StopFits;
    StoppableIsScheduled(d, p, id);
    if Stoppable(d.cells, id) {
      var q := p.(due := p.due - {id}, firing := p.firing - {id});
      var e := d.(cells := ChangedAll(d.cells, Halt(id)));
      HaltRefines(d, p, id);
      IdleIsNoneActive(e, q);
      HaltedFits(d, id);
      if Idle(q) {
        RoomForHeld(e, q);
      } else {
        NothingHeldFits(e, q);
      }
    } else {
      NothingToStop(d, id);
    }
  }

  lemma NothingToStop(d: Deltas, id: int)
    requires !Stoppable(d.cells, id)
    ensures StopFits(d, id)
  {
  }

  /** Every delta, counted from now, keeps to 16 bits. */
  predicate HeldFits(d: Deltas) {
    forall k | 0 <= k < |d.cells| && d.cells[k].state == Hold :: d.cells[k].remaining + d.hal < TWO_16
  }

  lemma HaltedFits(d: Deltas, id: int)
    requires Stoppable(d.cells, id)
    ensures var e := d.(cells := ChangedAll(d.cells, Halt(id)));
      StopFits(d, id) <==> Any(e.cells, Active) || HeldFits(e)
  {
    hide ChangedAll;
    var e := d.(cells := ChangedAll(d.cells, Halt(id)));
    assert forall k | 0 <= k < |d.cells| :: e.cells[k] == Changed(d.cells[k], Halt(id));
    if Any(e.cells, Active) {
      var k :| 0 <= k < |e.cells| && e.cells[k].state == Active;
      assert d.cells[k].id != id && d.cells[k].state == Active;
    }
    if HeldFits(e) {
      forall k | 0 <= k < |d.cells| && d.cells[k].state == Hold && d.cells[k].id != id
        ensures d.cells[k].remaining + d.hal < TWO_16
      {
        assert e.cells[k] == d.cells[k];
      }
    }
  }

  lemma RoomForHeld(d: Deltas, p: Plan)
    requires Good(p) && Represents(d, p) && !Any(d.cells, Active)
    ensures DeltasFit(p.due, p.now) <==> HeldFits(d)
  {
    hide Ids, Seen;
    if DeltasFit(p.due, p.now) {
      forall k | 0 <= k < |d.cells| && d.cells[k].state == Hold ensures d.cells[k].remaining + d.hal < TWO_16 {
        assert Means(p, Left(d), d.cells[k]);
        assert p.due[d.cells[k].id].at - p.now < TWO_16;
      }
    }
    if HeldFits(d) {
      forall i | i in p.due ensures p.due[i].at - p.now < TWO_16 {
        var k :| 0 <= k < |p.ids| && p.ids[k] == i;
        assert d.cells[k].id == i && Means(p, Left(d), d.cells[k]);
      }
    }
  }

  lemma NothingHeldFits(d: Deltas, p: Plan)
    requires Good(p) && Represents(d, p) && !Idle(p)
    ensures Any(d.cells, Active) || HeldFits(d)
  {
    hide Ids, Seen, Idle, Good;
    IdleIsNoneActive(d, p);
    if !Any(d.cells, Active) {
      forall k | 0 <= k < |d.cells| ensures d.cells[k].state != Hold {
        assert Means(p, Left(d), d.cells[k]);
      }
    }
  }

  /** Where a delta wraps, the timer's deadline is lost. */
  lemma StopLost(d: Deltas, p: Plan, id: int)
    requires Good(p) && Represents(d, p) && p.exact && !Stopped(p, id).exact
    ensures !Represents(StopOn(d, id), Stopped(p, id))
  {
    hide Ids, Represents, Good, Empty, ChangedAll, Promoted;
    StoppableIsScheduled(d, p, id);
    var q := p.(due := p.due - {id}, firing := p.firing - {id});
    var e := d.(cells := ChangedAll(d.cells, Halt(id)));
    HaltRefines(d, p, id);
    IdleIsNoneActive(e, q);
    RoomForHeld(e, q);
    var k :| 0 <= k < |e.cells| && e.cells[k].state == Hold && e.cells[k].remaining + e.hal >= TWO_16;
    WrapLoses(e, q, k);
  }

  lemma WrapLoses(d: Deltas, p: Plan, k: nat)
    requires Good(p) && Represents(d, p) && k < |d.cells| && d.cells[k].state == Hold && d.cells[k].remaining + d.hal >= TWO_16
    requires !Any(d.cells, Active)
    ensures forall r: Plan | r.due == p.due && r.now == p.now ::
      !Represents(Promoted(d.(cells := ChangedAll(d.cells, Hurry(d.hal)))), r)
  {
    hide Ids, ChangedAll, LeastHeld, Seen, Good;
    assert Means(p, Left(d), d.cells[k]);
    var f := d.(cells := ChangedAll(d.cells, Hurry(d.hal)));
    assert f.cells[k].state == Hold && f.cells[k].remaining == (d.cells[k].remaining + d.hal) % TWO_16;
    var e := Promoted(f);
    assert e.cells[k] == Changed(f.cells[k], Later(LeastHeld(f.cells)));
    forall r: Plan | r.due == p.due && r.now == p.now ensures !Represents(e, r) {
      RepresentedMeans(e, r, k);
    }
  }

  lemma RepresentedMeans(d: Deltas, p: Plan, k: nat)
    ensures Represents(d, p) && k < |d.cells| ==> Means(p, Left(d), d.cells[k])
  {
  }

  // ---------------------------------------------------------------- a run on which they do

  /** Three timers have been registered. */
  const THREE: Deltas := Deltas([Cell(0, Inactive, 0, 0), Cell(1, Inactive, 0, 0), Cell(2, Inactive, 0, 0)], false, 0, [])

  const THREE_PLANNED: Plan := NO_PLAN.(ids := [0, 1, 2])

  /** One far away, then two zero-slot starts in the same slot, then two slots pass. */
  function Crowded(d: Deltas): Deltas {
    StartOn(StartOn(StartOn(d, 0, 65535), 1, 0), 2, 0)
  }

  /**
   Each zero-slot start pushes the far timer one slot further, and the second
   one beyond 16 bits: its delta becomes 0, and it fires after 2 slots, not 65537.
   */
  lemma ZeroSlotsWrap()
    ensures Represents(THREE, THREE_PLANNED) && Quiet(THREE_PLANNED)
    ensures var p := Started(Started(Started(THREE_PLANNED, 0, 65535), 1, 0), 2, 0); 0 in p.due && p.due[0].at == 65537
    ensures ElapseOn(ElapseOn(Crowded(THREE), [], map[]), [], map[]).called == [Invocation(2, 0), Invocation(0, 65535)]
  {
    hide StartOn, ElapseOn, Started, Represents;
    ThreeIsRegistered();
    FarPlanned();
    FarStarted();
    FirstSlot();
    SecondSlot();
  }

  lemma ThreeIsRegistered()
    ensures Represents(THREE, THREE_PLANNED) && Quiet(THREE_PLANNED)
  {
  }

  lemma FarPlanned()
    ensures var p := Started(Started(Started(THREE_PLANNED, 0, 65535), 1, 0), 2, 0); 0 in p.due && p.due[0].at == 65537
  {
  }

  function Far(c0: Cell, c1: Cell, c2: Cell, called: seq<Invocation>): Deltas {
    Deltas([c0, c1, c2], true, 1, called)
  }

  lemma FarStarted()
    ensures Crowded(THREE) == Far(Cell(0, Hold, 65535, 0), Cell(1, Hold, 0, 1), Cell(2, Active, 0, 0), [])
  {
    hide StartOn;
    FarAlone();
    FarPushed();
    FarWrapped();
  }

  const ALONE: Deltas := Deltas([Cell(0, Active, 65535, 65535), Cell(1, Inactive, 0, 0), Cell(2, Inactive, 0, 0)], true, 65535, [])

  lemma FarAlone()
    ensures StartOn(THREE, 0, 65535) == ALONE
  {
    hide ChangedAll, LeastHeld;
    assert THREE.cells[0].id == 0;
    var h := ChangedAll(THREE.cells, Set(0, Hold, 65535, 65535));
    assert h[0].state == Hold;
  }

  lemma FarPushed()
    ensures StartOn(ALONE, 1, 0) == Far(Cell(0, Hold, 65535, 65535), Cell(1, Active, 0, 0), Cell(2, Inactive, 0, 0), [])
  {
    hide ChangedAll;
    assert ALONE.cells[1].id == 1;
  }

  lemma FarWrapped()
    ensures StartOn(Far(Cell(0, Hold, 65535, 65535), Cell(1, Active, 0, 0), Cell(2, Inactive, 0, 0), []), 2, 0)
      == Far(Cell(0, Hold, 65535, 0), Cell(1, Hold, 0, 1), Cell(2, Active, 0, 0), [])
  {
    hide ChangedAll;
    assert Far(Cell(0, Hold, 65535, 65535), Cell(1, Active, 0, 0), Cell(2, Inactive, 0, 0), []).cells[2].id == 2;
  }

  lemma FirstSlot()
    ensures ElapseOn(Far(Cell(0, Hold, 65535, 0), Cell(1, Hold, 0, 1), Cell(2, Active, 0, 0), []), [], map[])
      == Far(Cell(0, Active, 65535, 0), Cell(1, Hold, 0, 1), Cell(2, Inactive, 0, 0), [Invocation(2, 0)])
  {
    hide ChangedAll, LeastHeld;
  }

  lemma SecondSlot()
    ensures ElapseOn(Far(Cell(0, Active, 65535, 0), Cell(1, Hold, 0, 1), Cell(2, Inactive, 0, 0), [Invocation(2, 0)]), [], map[])
      == Far(Cell(0, Inactive, 65535, 0), Cell(1, Active, 0, 1), Cell(2, Inactive, 0, 0), [Invocation(2, 0), Invocation(0, 65535)])
  {
    hide ChangedAll, LeastHeld;
  }
}
