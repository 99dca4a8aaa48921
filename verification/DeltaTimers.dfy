/**
 The callback-timer multiplexer on values: what the list of timers and the 16-bit
 hardware timer hold, and how starting, stopping and the interrupt change it.

 Timers due at the next hardware expiry are Active; the others are on Hold and
 store, in 16 bits, how much later than that expiry they are due.
 */
module DeltaTimers {
  import opened Basics
  import opened TimerPlan

  datatype TimerState = Active | Hold | RunInterrupt | Inactive

  /** One timer of the list. */
  datatype Cell = Cell(id: int, state: TimerState, slots: U16, remaining: U16)

  /** A callback invocation as the callback sees it. */
  datatype Invocation = Invocation(id: int, slots: U16)

  datatype Deltas = Deltas(
    cells: seq<Cell>,
    running: bool,   // the hardware timer is running
    hal: U16,        // slots left on it
    called: seq<Invocation>)

  predicate HasId(cells: seq<Cell>, id: int) {
    exists k | 0 <= k < |cells| :: cells[k].id == id
  }

  function Ids(cells: seq<Cell>): (ids: seq<int>)
    ensures |ids| == |cells| && forall k | 0 <= k < |cells| :: ids[k] == cells[k].id
  {
    if cells == [] then [] else [cells[0].id] + Ids(cells[1..])
  }

  predicate Any(cells: seq<Cell>, state: TimerState) {
    exists k | 0 <= k < |cells| :: cells[k].state == state
  }

  /** The least delta of a timer on Hold. */
  function LeastHeld(cells: seq<Cell>): (m: U16)
    requires Any(cells, Hold)
    ensures exists k | 0 <= k < |cells| :: cells[k].state == Hold && cells[k].remaining == m
    ensures forall k | 0 <= k < |cells| && cells[k].state == Hold :: m <= cells[k].remaining
  {
    var c, rest := cells[0], cells[1..];
    if !Any(rest, Hold) then c.remaining
    else if c.state == Hold && c.remaining < LeastHeld(rest) then c.remaining
    else LeastHeld(rest)
  }

  /** What the loops over the list do to one timer. */
  datatype Change =
    | Later(m: U16)        // the expiry deltas are relative to moves later
    | Earlier(extra: U16)  // the expiry moves earlier: Active timers have to wait as well
    | Hurry(extra: U16)    // the expiry is dropped: deltas become relative to the present
    | Set(id: int, state: TimerState, slots: U16, remaining: U16)
    | Halt(id: int)
    | Mark                 // the hardware timer has expired

  function Changed(c: Cell, ch: Change): (r: Cell)
    ensures r.id == c.id
  {
    match ch
    case Later(m) =>
      if c.state != Hold then c
      else if c.remaining == m then c.(state := Active)
      else c.(remaining := (c.remaining - m) % TWO_16)
    case Earlier(extra) =>
      if c.state == Active then c.(state := Hold, remaining := extra)
      else if c.state == Hold then c.(remaining := (c.remaining + extra) % TWO_16)
      else c
    case Hurry(extra) =>
      if c.state == Hold then c.(remaining := (c.remaining + extra) % TWO_16) else c
    case Set(id, state, slots, remaining) =>
      if c.id == id then Cell(id, state, slots, remaining) else c
    case Halt(id) =>
      if c.id == id then c.(state := Inactive, remaining := 0) else c
    case Mark =>
      if c.state == Active then c.(state := RunInterrupt) else c
  }

  function ChangedAll(cells: seq<Cell>, ch: Change): (r: seq<Cell>)
    ensures |r| == |cells| && forall k | 0 <= k < |cells| :: r[k] == Changed(cells[k], ch)
    ensures Ids(r) == Ids(cells)
  {
    if cells == [] then [] else [Changed(cells[0], ch)] + ChangedAll(cells[1..], ch)
  }

  /** Make the timers on Hold that are due first Active and start the hardware timer for them. */
  function Promoted(d: Deltas): Deltas {
    if !Any(d.cells, Hold) then d else
    var m := LeastHeld(d.cells);
    d.(cells := ChangedAll(d.cells, Later(m)), running := true, hal := AtLeastOne(m))
  }

  function StartOn(d: Deltas, id: int, slots: U16): Deltas {
    if !HasId(d.cells, id) then d
    else if !d.running then
      Promoted(d.(cells := ChangedAll(d.cells, Set(id, Hold, slots, slots))))
    else if d.hal > slots then
      d.(cells := ChangedAll(ChangedAll(d.cells, Earlier(d.hal - slots)), Set(id, Active, slots, slots)), hal := AtLeastOne(slots))
    else if d.hal < slots then
      d.(cells := ChangedAll(d.cells, Set(id, Hold, slots, slots - d.hal)))
    else
      d.(cells := ChangedAll(d.cells, Set(id, Active, slots, slots)))
  }

  predicate Stoppable(cells: seq<Cell>, id: int) {
    exists k | 0 <= k < |cells| :: cells[k].id == id && cells[k].state != Inactive
  }

  function StopOn(d: Deltas, id: int): Deltas {
    if !Stoppable(d.cells, id) then d else
    var cells := ChangedAll(d.cells, Halt(id));
    if Any(cells, Active) then d.(cells := cells)
    else Promoted(d.(cells := ChangedAll(cells, Hurry(d.hal))))
  }

  function ActOn(d: Deltas, a: Action): Deltas {
    match a
    case Start(id, slots) => StartOn(d, id, slots)
    case Stop(id) => StopOn(d, id)
  }

  function ActAllOn(d: Deltas, acts: seq<Action>): Deltas
    decreases |acts|
  {
    if acts == [] then d else ActAllOn(ActOn(d, acts[0]), acts[1..])
  }

  /** The interrupt before its callbacks: mark what has expired and restart the hardware timer. */
  function ExpireOn(d: Deltas): Deltas {
    Promoted(d.(cells := ChangedAll(d.cells, Mark), running := false))
  }

  function CallOn(d: Deltas, k: nat, scripts: Scripts): Deltas
    requires k < |d.cells|
  {
    var c := d.cells[k];
    ActAllOn(d.(cells := d.cells[k := c.(state := Inactive)], called := d.called + [Invocation(c.id, c.slots)]),
             Script(scripts, c.id))
  }

  lemma ActOnSize(d: Deltas, a: Action)
    ensures |ActOn(d, a).cells| == |d.cells|
  {
  }

  lemma {:induction false} ActAllOnSize(d: Deltas, acts: seq<Action>)
    ensures |ActAllOn(d, acts).cells| == |d.cells|
    decreases |acts|
  {
    if acts != [] {
      ActOnSize(d, acts[0]);
      ActAllOnSize(ActOn(d, acts[0]), acts[1..]);
    }
  }

  /** The callbacks of the interrupt, from list position `k` on. */
  function DispatchOn(d: Deltas, k: nat, scripts: Scripts): Deltas
    decreases |d.cells| - k
  {
    if k >= |d.cells| then d
    else if d.cells[k].state == RunInterrupt then
      var e := CallOn(d, k, scripts);
      assert |e.cells| == |d.cells| by {
        ActAllOnSize(d.(cells := d.cells[k := d.cells[k].(state := Inactive)],
                        called := d.called + [Invocation(d.cells[k].id, d.cells[k].slots)]),
                     Script(scripts, d.cells[k].id));
      }
      DispatchOn(e, k + 1, scripts)
    else DispatchOn(d, k + 1, scripts)
  }

  function InterruptOn(d: Deltas, scripts: Scripts): Deltas {
    DispatchOn(ExpireOn(d), 0, scripts)
  }

  /** One slot passes on the hardware timer, clients act, and a due interrupt is served. */
  function ElapseOn(d: Deltas, acts: seq<Action>, scripts: Scripts): Deltas {
    var e := ActAllOn(d.(hal := if d.running && d.hal > 0 then d.hal - 1 else d.hal), acts);
    if e.running && e.hal == 0 then InterruptOn(e, scripts) else e
  }

  function RegisterOn(d: Deltas): Deltas {
    var id := FreeId(Ids(d.cells), 0);
    if id == 128 then d else d.(cells := d.cells + [Cell(id, Inactive, 0, 0)])
  }

  function Drop(cells: seq<Cell>, id: int): (r: seq<Cell>)
    ensures forall c :: c in r <==> c in cells && c.id != id
    ensures Ids(r) == Without(Ids(cells), id)
  {
    if cells == [] then [] else (if cells[0].id == id then [] else [cells[0]]) + Drop(cells[1..], id)
  }

  function StepOn(d: Deltas, op: Op): Deltas {
    match op
    case Register => RegisterOn(d)
    case Unregister(id) => d.(cells := Drop(d.cells, id))
    case Do(a) => ActOn(d, a)
    case Elapse(acts, scripts) => ElapseOn(d, acts, scripts)
  }

  function RunOn(d: Deltas, ops: seq<Op>): Deltas
    decreases |ops|
  {
    if ops == [] then d else RunOn(StepOn(d, ops[0]), ops[1..])
  }

  // ---------------------------------------------------------------- refinement

  /** The state and delta of a cell say when the plan has it due, `hal` being what is left on the hardware timer. */
  ghost predicate Means(p: Plan, hal: Option<U16>, c: Cell) {
    match c.state
    case Active => hal.Some? && c.id in p.due && p.due[c.id].at == p.now + hal.value && p.due[c.id].asked.slots == c.slots
    case Hold => hal.Some? && c.id in p.due && p.due[c.id].at == p.now + hal.value + c.remaining && c.remaining > 0
                 && p.due[c.id].asked.slots == c.slots
    case RunInterrupt => c.id in p.firing && c.id !in p.due && p.firing[c.id].slots == c.slots
    case Inactive => c.id !in p.due && c.id !in p.firing
  }

  ghost predicate Seen(log: seq<Firing>, called: seq<Invocation>) {
    |log| == |called| && forall k | 0 <= k < |log| :: called[k] == Invocation(log[k].id, log[k].asked.slots)
  }

  function Left(d: Deltas): Option<U16> {
    if d.running then Some(d.hal) else None
  }

  ghost predicate Represents(d: Deltas, p: Plan) {
    && Ids(d.cells) == p.ids
    && p.expiry == (if d.running then Some(p.now + d.hal) else None)
    && (!d.running ==> d.hal == 0)
    && (forall k | 0 <= k < |d.cells| :: Means(p, Left(d), d.cells[k]))
    && Seen(p.log, d.called)
  }

  lemma HasIdIsRegistered(d: Deltas, p: Plan, id: int)
    requires Ids(d.cells) == p.ids
    ensures HasId(d.cells, id) <==> id in p.ids
  {
    if k :| 0 <= k < |d.cells| && d.cells[k].id == id {
      assert p.ids[k] == id;
    }
    if k :| 0 <= k < |p.ids| && p.ids[k] == id {
      assert d.cells[k].id == id;
    }
  }

  lemma StartRefines(d: Deltas, p: Plan, id: int, slots: U16)
    requires Good(p) && Represents(d, p) && Started(p, id, slots).exact
    ensures Represents(StartOn(d, id, slots), Started(p, id, slots))
  {
    HasIdIsRegistered(d, p, id);
    if id in p.ids {
      if !d.running {
        StartFirstRefines(d, p, id, slots);
      } else if d.hal > slots {
        StartSoonerRefines(d, p, id, slots);
      } else {
        StartLaterRefines(d, p, id, slots);
      }
    }
  }

  lemma StartSoonerRefines(d: Deltas, p: Plan, id: int, slots: U16)
    requires Good(p) && Represents(d, p) && Started(p, id, slots).exact
    requires HasId(d.cells, id) && id in p.ids && d.running && d.hal > slots
    ensures Represents(StartOn(d, id, slots), Started(p, id, slots))
  {
    hide Ids, ChangedAll, Good;
    var e, q := StartOn(d, id, slots), Started(p, id, slots);
    forall k | 0 <= k < |e.cells| ensures Means(q, Left(e), e.cells[k]) {
      SoonerMeans(p, d.hal, d.cells[k], id, slots);
    }
  }

  lemma SoonerMeans(p: Plan, hal: U16, c: Cell, id: int, slots: U16)
    requires Good(p) && id in p.ids && p.expiry == Some(p.now + hal) && hal > slots
    requires Means(p, Some(hal), c) && Started(p, id, slots).exact
    ensures Means(Started(p, id, slots), Some(AtLeastOne(slots)),
                  Changed(Changed(c, Earlier(hal - slots)), Set(id, Active, slots, slots)))
  {
    var q := Started(p, id, slots);
    assert c.id in q.due ==> q.due[c.id].at - q.expiry.value < TWO_16;
  }

  lemma StartLaterRefines(d: Deltas, p: Plan, id: int, slots: U16)
    requires Good(p) && Represents(d, p)
    requires HasId(d.cells, id) && id in p.ids && d.running && d.hal <= slots
    ensures Represents(StartOn(d, id, slots), Started(p, id, slots))
  {
    hide Ids, ChangedAll, Good;
    var e, q := StartOn(d, id, slots), Started(p, id, slots);
    forall k | 0 <= k < |e.cells| ensures Means(q, Left(e), e.cells[k]) {
      LaterMeans(p, d.hal, d.cells[k], id, slots);
    }
  }

  lemma LaterMeans(p: Plan, hal: U16, c: Cell, id: int, slots: U16)
    requires Good(p) && id in p.ids && p.expiry == Some(p.now + hal) && hal <= slots
    requires Means(p, Some(hal), c)
    ensures Means(Started(p, id, slots), Some(hal),
                  Changed(c, if hal < slots then Set(id, Hold, slots, slots - hal) else Set(id, Active, slots, slots)))
  {
  }

  lemma StartFirstRefines(d: Deltas, p: Plan, id: int, slots: U16)
    requires Good(p) && Represents(d, p)
    requires HasId(d.cells, id) && id in p.ids && !d.running
    ensures Represents(StartOn(d, id, slots), Started(p, id, slots))
  {
    hide Ids, ChangedAll, LeastHeld;
    var e, q := StartOn(d, id, slots), Started(p, id, slots);
    OnlyHeld(d, p, id, slots);
    forall k | 0 <= k < |e.cells| ensures Means(q, Left(e), e.cells[k]) {
      assert Means(p, None, d.cells[k]);
    }
  }

  /** When the hardware timer is idle, a timer put on Hold is the only one there. */
  lemma OnlyHeld(d: Deltas, p: Plan, id: int, slots: U16)
    requires Good(p) && Represents(d, p) && HasId(d.cells, id) && !d.running
    ensures var f := ChangedAll(d.cells, Set(id, Hold, slots, slots)); Any(f, Hold) && LeastHeld(f) == slots
  {
    hide Ids, ChangedAll, LeastHeld;
    var f := ChangedAll(d.cells, Set(id, Hold, slots, slots));
    forall k | 0 <= k < |f| ensures f[k].state == Hold <==> f[k].id == id {
      assert Means(p, None, d.cells[k]);
    }
    var j :| 0 <= j < |d.cells| && d.cells[j].id == id;
    assert f[j].state == Hold;
  }

  /** Every delta is relative to the present, and nothing is Active. */
  ghost predicate FromNow(cells: seq<Cell>, p: Plan) {
    forall k | 0 <= k < |cells| :: cells[k].state != Active && Means(p, Some(0), cells[k])
  }

  lemma HeldIsDue(cells: seq<Cell>, p: Plan)
    requires Ids(cells) == p.ids && (forall i | i in p.due :: i in p.ids) && FromNow(cells, p)
    ensures Any(cells, Hold) <==> !Empty(p.due)
  {
    forall i | i in p.due ensures Any(cells, Hold) {
      var k :| 0 <= k < |p.ids| && p.ids[k] == i;
      assert Means(p, Some(0), cells[k]);
    }
    if k :| 0 <= k < |cells| && cells[k].state == Hold {
      assert Means(p, Some(0), cells[k]);
    }
  }

  /** Promoting starts the hardware timer for the earliest deadline. */
  lemma PromotedRefines(d: Deltas, p: Plan)
    requires Good(p) && Ids(d.cells) == p.ids && Seen(p.log, d.called) && FromNow(d.cells, p)
    requires !Empty(p.due)
    ensures Represents(Promoted(d), p.(expiry := Some(Earliest(p.due))))
  {
    hide Ids, ChangedAll, LeastHeld, Seen, Empty;
    HeldIsDue(d.cells, p);
    LeastIsEarliest(d.cells, p);
    var m := LeastHeld(d.cells);
    var e, q := Promoted(d), p.(expiry := Some(p.now + m));
    forall k | 0 <= k < |e.cells| ensures Means(q, Left(e), e.cells[k]) {
      PromotedMeans(p, d.cells[k], m);
    }
  }

  lemma PromotedMeans(p: Plan, c: Cell, m: U16)
    requires c.state != Active && Means(p, Some(0), c) && m > 0 && (c.state == Hold ==> m <= c.remaining)
    ensures Means(p.(expiry := Some(p.now + m)), Some(m), Changed(c, Later(m)))
  {
  }

  lemma LeastIsEarliest(cells: seq<Cell>, p: Plan)
    requires Ids(cells) == p.ids && (forall i | i in p.due :: i in p.ids)
    requires FromNow(cells, p) && Any(cells, Hold)
    ensures !Empty(p.due) && Earliest(p.due) == p.now + LeastHeld(cells) && LeastHeld(cells) > 0
  {
    hide Ids, LeastHeld;
    var l :| 0 <= l < |cells| && cells[l].state == Hold && cells[l].remaining == LeastHeld(cells);
    assert Means(p, Some(0), cells[l]);
    var i :| i in p.due && p.due[i].at == Earliest(p.due);
    var k :| 0 <= k < |p.ids| && p.ids[k] == i;
    assert Means(p, Some(0), cells[k]);
  }

  /** A timer's cell says whether it is scheduled or firing. */
  lemma StoppableIsScheduled(d: Deltas, p: Plan, id: int)
    requires Good(p) && Represents(d, p)
    ensures Stoppable(d.cells, id) <==> id in p.due || id in p.firing
  {
    hide Ids, ChangedAll, LeastHeld;
    if id in p.ids {
      var k :| 0 <= k < |p.ids| && p.ids[k] == id;
      assert Means(p, Left(d), d.cells[k]);
    }
    if k :| 0 <= k < |d.cells| && d.cells[k].id == id && d.cells[k].state != Inactive {
      assert Means(p, Left(d), d.cells[k]);
    }
  }

  lemma StopRefines(d: Deltas, p: Plan, id: int)
    requires Good(p) && Represents(d, p) && Stopped(p, id).exact
    ensures Represents(StopOn(d, id), Stopped(p, id))
  {
    hide Ids, ChangedAll, LeastHeld, Good, Represents, Promoted, Empty;
    StoppableIsScheduled(d, p, id);
    if Stoppable(d.cells, id) {
      var q := p.(due := p.due - {id}, firing := p.firing - {id});
      var e := d.(cells := ChangedAll(d.cells, Halt(id)));
      HaltRefines(d, p, id);
      IdleIsNoneActive(e, q);
      if Idle(q) {
        HurryRefines(e, q);
      } else if !Any(e.cells, Active) {
        NothingToHurry(e, q);
      }
    }
  }

  lemma HurryRefines(d: Deltas, p: Plan)
    requires Good(p) && Represents(d, p) && !Any(d.cells, Active) && DeltasFit(p.due, p.now) && !Empty(p.due)
    ensures Represents(Promoted(d.(cells := ChangedAll(d.cells, Hurry(d.hal)))), p.(expiry := Some(Earliest(p.due))))
  {
    HurryMeans(d, p);
    PromotedRefines(d.(cells := ChangedAll(d.cells, Hurry(d.hal))), p);
  }

  lemma NothingToHurry(d: Deltas, p: Plan)
    requires Good(p) && Represents(d, p) && Empty(p.due)
    ensures Represents(Promoted(d.(cells := ChangedAll(d.cells, Hurry(d.hal)))), p)
  {
    hide Ids, ChangedAll;
    forall k | 0 <= k < |d.cells| ensures d.cells[k].state != Hold {
      assert Means(p, Left(d), d.cells[k]);
    }
    assert ChangedAll(d.cells, Hurry(d.hal)) == d.cells;
  }

  lemma HaltRefines(d: Deltas, p: Plan, id: int)
    requires Good(p) && Represents(d, p)
    ensures Good(p.(due := p.due - {id}, firing := p.firing - {id}))
    ensures Represents(d.(cells := ChangedAll(d.cells, Halt(id))), p.(due := p.due - {id}, firing := p.firing - {id}))
  {
    hide Ids, ChangedAll;
    var q := p.(due := p.due - {id}, firing := p.firing - {id});
    var e := d.(cells := ChangedAll(d.cells, Halt(id)));
    forall k | 0 <= k < |e.cells| ensures Means(q, Left(e), e.cells[k]) {
      assert Means(p, Left(d), d.cells[k]);
    }
  }

  lemma IdleIsNoneActive(d: Deltas, p: Plan)
    requires Good(p) && Represents(d, p)
    ensures Idle(p) <==> !Any(d.cells, Active) && !Empty(p.due)
  {
    hide Ids, ChangedAll, LeastHeld;
    forall i | i in p.due && Some(p.due[i].at) == p.expiry ensures Any(d.cells, Active) {
      var k :| 0 <= k < |p.ids| && p.ids[k] == i;
      assert Means(p, Left(d), d.cells[k]);
    }
    if k :| 0 <= k < |d.cells| && d.cells[k].state == Active {
      assert Means(p, Left(d), d.cells[k]);
    }
  }

  lemma HurryMeans(d: Deltas, p: Plan)
    requires Good(p) && Represents(d, p) && !Any(d.cells, Active) && DeltasFit(p.due, p.now)
    ensures FromNow(ChangedAll(d.cells, Hurry(d.hal)), p)
  {
    hide Ids, ChangedAll, Good;
    var h := ChangedAll(d.cells, Hurry(d.hal));
    forall k | 0 <= k < |h| ensures h[k].state != Active && Means(p, Some(0), h[k]) {
      assert Means(p, Left(d), d.cells[k]);
      assert d.cells[k].id in p.due ==> p.due[d.cells[k].id].at - p.now < TWO_16;
    }
  }

  lemma ActRefines(d: Deltas, p: Plan, a: Action)
    requires Good(p) && Represents(d, p) && Act(p, a).exact
    ensures Represents(ActOn(d, a), Act(p, a))
  {
    match a
    case Start(id, slots) => StartRefines(d, p, id, slots);
    case Stop(id) => StopRefines(d, p, id);
  }

  lemma {:induction false} ActAllRefines(d: Deltas, p: Plan, acts: seq<Action>)
    requires Good(p) && Represents(d, p) && ActAll(p, acts).exact
    ensures Represents(ActAllOn(d, acts), ActAll(p, acts))
    decreases |acts|
  {
    hide Good, Represents, Act, ActOn;
    if acts != [] {
      ActGood(p, acts[0]);
      ActRefines(d, p, acts[0]);
      ActAllRefines(ActOn(d, acts[0]), Act(p, acts[0]), acts[1..]);
    }
  }

  /** Marking what is Active when the hardware timer has run out leaves only deltas from now. */
  lemma MarkMeans(d: Deltas, p: Plan)
    requires Good(p) && Represents(d, p) && p.expiry == Some(p.now) && p.firing == map[]
    ensures FromNow(ChangedAll(d.cells, Mark), Expired(p))
  {
    hide Ids, ChangedAll;
    var h := ChangedAll(d.cells, Mark);
    forall k | 0 <= k < |h| ensures h[k].state != Active && Means(Expired(p), Some(0), h[k]) {
      assert Means(p, Some(0), d.cells[k]);
    }
  }

  lemma ExpireRefines(d: Deltas, p: Plan)
    requires Good(p) && Represents(d, p) && p.expiry == Some(p.now) && p.firing == map[]
    ensures Represents(ExpireOn(d), Expired(p))
  {
    hide Ids, ChangedAll, LeastHeld, Promoted;
    var e, q := d.(cells := ChangedAll(d.cells, Mark), running := false), Expired(p);
    ExpiredGood(p);
    MarkMeans(d, p);
    if Empty(q.due) {
      NothingHeld(e, q);
    } else {
      PromotedRefines(e, q);
    }
  }

  lemma NothingHeld(d: Deltas, p: Plan)
    requires Ids(d.cells) == p.ids && FromNow(d.cells, p) && Good(p) && Empty(p.due)
    ensures Promoted(d) == d
    ensures forall k | 0 <= k < |d.cells| :: Means(p, None, d.cells[k])
  {
    HeldIsDue(d.cells, p);
    forall k | 0 <= k < |d.cells| ensures Means(p, None, d.cells[k]) {
      assert Means(p, Some(0), d.cells[k]);
    }
  }

  lemma CallRefines(d: Deltas, p: Plan, k: nat, scripts: Scripts)
    requires Good(p) && Ahead(p) && Represents(d, p) && k < |d.cells| && d.cells[k].state == RunInterrupt
    ensures p.ids[k] in p.firing
    ensures Called(p, p.ids[k], scripts).exact ==> Represents(CallOn(d, k, scripts), Called(p, p.ids[k], scripts))
  {
    hide Ids, ActAll, ActAllOn;
    var c := d.cells[k];
    assert Means(p, Left(d), c) && c.id == p.ids[k];
    var e := d.(cells := d.cells[k := c.(state := Inactive)], called := d.called + [Invocation(c.id, c.slots)]);
    var q := Entered(p, c.id);
    EntryRefines(d, p, k);
    CalledEntry(p, c.id);
    if Called(p, c.id, scripts).exact {
      ActAllRefines(e, q, Script(scripts, c.id));
    }
  }

  lemma EntryRefines(d: Deltas, p: Plan, k: nat)
    requires Good(p) && Represents(d, p) && k < |d.cells| && d.cells[k].state == RunInterrupt
    ensures p.ids[k] in p.firing
    ensures var c := d.cells[k];
      Represents(d.(cells := d.cells[k := c.(state := Inactive)], called := d.called + [Invocation(c.id, c.slots)]),
                 Entered(p, c.id))
  {
    hide Ids;
    var c := d.cells[k];
    assert Means(p, Left(d), c) && c.id == p.ids[k];
    var e := d.(cells := d.cells[k := c.(state := Inactive)], called := d.called + [Invocation(c.id, c.slots)]);
    var q := Entered(p, c.id);
    assert Ids(e.cells) == Ids(d.cells);
    forall j | 0 <= j < |e.cells| ensures Means(q, Left(e), e.cells[j]) {
      assert Means(p, Left(d), d.cells[j]);
      assert j != k ==> p.ids[j] != p.ids[k];
    }
  }

  lemma {:induction false} DispatchRefines(d: Deltas, p: Plan, k: nat, scripts: Scripts)
    requires Good(p) && Ahead(p) && Represents(d, p) && Dispatched(p, k, scripts).exact
    ensures Represents(DispatchOn(d, k, scripts), Dispatched(p, k, scripts))
    decreases |p.ids| - k
  {
    hide Good, Called, CallOn, Ids;
    if k < |p.ids| {
      assert Means(p, Left(d), d.cells[k]) && d.cells[k].id == p.ids[k];
      if d.cells[k].state == RunInterrupt {
        CallRefines(d, p, k, scripts);
        CalledGood(p, p.ids[k], scripts);
        CalledIds(p, p.ids[k], scripts);
        DispatchRefines(CallOn(d, k, scripts), Called(p, p.ids[k], scripts), k + 1, scripts);
      } else {
        FiringIsMarked(d, p, k);
        DispatchRefines(d, p, k + 1, scripts);
      }
    }
  }

  lemma CalledIds(p: Plan, id: int, scripts: Scripts)
    requires id in p.firing
    ensures Called(p, id, scripts).ids == p.ids
  {
  }

  lemma FiringIsMarked(d: Deltas, p: Plan, k: nat)
    requires Good(p) && Represents(d, p) && k < |d.cells| && d.cells[k].state != RunInterrupt
    ensures p.ids[k] !in p.firing
  {
    assert Means(p, Left(d), d.cells[k]) && d.cells[k].id == p.ids[k];
  }

  lemma TickRefines(d: Deltas, p: Plan)
    requires Quiet(p) && Represents(d, p)
    ensures Good(p.(now := p.now + 1))
    ensures Represents(d.(hal := if d.running && d.hal > 0 then d.hal - 1 else d.hal), p.(now := p.now + 1))
  {
    hide Ids;
    var e, q := d.(hal := if d.running && d.hal > 0 then d.hal - 1 else d.hal), p.(now := p.now + 1);
    forall k | 0 <= k < |e.cells| ensures Means(q, Left(e), e.cells[k]) {
      assert Means(p, Left(d), d.cells[k]);
    }
  }

  lemma ElapseRefines(d: Deltas, p: Plan, acts: seq<Action>, scripts: Scripts)
    requires Quiet(p) && Represents(d, p) && Elapsed(p, acts, scripts).exact
    ensures Represents(ElapseOn(d, acts, scripts), Elapsed(p, acts, scripts))
  {
    hide Ids, Good, ExpireOn, Earliest;
    var d1, p1 := d.(hal := if d.running && d.hal > 0 then d.hal - 1 else d.hal), p.(now := p.now + 1);
    TickRefines(d, p);
    var d2, p2 := ActAllOn(d1, acts), ActAll(p1, acts);
    assert p2.exact;
    ActAllGood(p1, acts);
    ActAllRefines(d1, p1, acts);
    assert p2.firing.Keys <= {};
    if p2.expiry == Some(p2.now) {
      ExpiredGood(p2);
      ExpireRefines(d2, p2);
      DispatchRefines(ExpireOn(d2), Expired(p2), 0, scripts);
    }
  }

  lemma RegisterRefines(d: Deltas, p: Plan)
    requires Good(p) && Represents(d, p)
    ensures Represents(RegisterOn(d), Registered(p))
    ensures AppendsLowest(d, RegisterOn(d))
  {
    hide Ids, AppendsLowest;
    RegisterAppends(d);
    var e, q := RegisterOn(d), Registered(p);
    assert Ids(e.cells) == q.ids;
    forall k | 0 <= k < |e.cells| ensures Means(q, Left(e), e.cells[k]) {
      assert k < |d.cells| ==> Means(p, Left(d), d.cells[k]);
    }
  }

  /** From `d` to `e` a timer with the lowest free id has been put at the end of the list, if there is such an id. */
  ghost predicate AppendsLowest(d: Deltas, e: Deltas) {
    if forall i | 0 <= i < 128 :: HasId(d.cells, i) then e == d
    else
      && e == d.(cells := e.cells) && |e.cells| == |d.cells| + 1 && e.cells[..|d.cells|] == d.cells
      && var c := e.cells[|d.cells|];
         c.state == Inactive && 0 <= c.id < 128 && !HasId(d.cells, c.id) && forall i | 0 <= i < c.id :: HasId(d.cells, i)
  }

  lemma RegisterAppends(d: Deltas)
    ensures AppendsLowest(d, RegisterOn(d))
  {
    hide Ids, HasId;
    IdsOfCells(d.cells);
    var id := FreeId(Ids(d.cells), 0);
    if id == 128 {
      forall i | 0 <= i < 128 ensures HasId(d.cells, i) {
        assert i in Ids(d.cells);
      }
    } else {
      assert id !in Ids(d.cells);
      assert (d.cells + [Cell(id, Inactive, 0, 0)])[..|d.cells|] == d.cells;
    }
  }

  lemma IdsOfCells(cells: seq<Cell>)
    ensures forall i :: i in Ids(cells) <==> HasId(cells, i)
  {
    hide Ids;
    forall i ensures i in Ids(cells) <==> HasId(cells, i) {
      if i in Ids(cells) {
        var k :| 0 <= k < |cells| && Ids(cells)[k] == i;
        assert cells[k].id == i;
      }
      if k :| 0 <= k < |cells| && cells[k].id == i {
        assert Ids(cells)[k] == i;
      }
    }
  }

  lemma UnregisterRefines(d: Deltas, p: Plan, id: int)
    requires Good(p) && Represents(d, p)
    ensures Represents(d.(cells := Drop(d.cells, id)), Unregistered(p, id))
  {
    hide Ids, Drop, Without;
    var e, q := d.(cells := Drop(d.cells, id)), Unregistered(p, id);
    forall k | 0 <= k < |e.cells| ensures Means(q, Left(e), e.cells[k]) {
      assert e.cells[k] in d.cells;
      var j :| 0 <= j < |d.cells| && d.cells[j] == e.cells[k];
      assert Means(p, Left(d), d.cells[j]);
    }
  }

  lemma StepRefines(d: Deltas, p: Plan, op: Op)
    requires Quiet(p) && Represents(d, p) && Step(p, op).exact
    ensures Represents(StepOn(d, op), Step(p, op))
  {
    hide Represents, Good, Registered, RegisterOn, Unregistered, Drop, Act, ActOn, Elapsed, ElapseOn;
    match op
    case Register => RegisterRefines(d, p);
    case Unregister(id) => UnregisterRefines(d, p, id);
    case Do(a) => ActRefines(d, p, a);
    case Elapse(acts, scripts) => ElapseRefines(d, p, acts, scripts);
  }

  /**
   Over every run in which all deltas fit, the delta-coded list refines the map
   from timer to absolute deadline, and calls the same callbacks with the same arguments.
   */
  lemma {:induction false} RunRefines(d: Deltas, p: Plan, ops: seq<Op>)
    requires Quiet(p) && Represents(d, p) && Run(p, ops).exact
    ensures Represents(RunOn(d, ops), Run(p, ops))
    decreases |ops|
  {
    hide Represents, Quiet, Step, StepOn;
    if ops != [] {
      StepQuiet(p, ops[0]);
      StepRefines(d, p, ops[0]);
      RunRefines(StepOn(d, ops[0]), Step(p, ops[0]), ops[1..]);
    }
  }
}
