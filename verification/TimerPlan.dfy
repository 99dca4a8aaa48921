/**
 What the callback-timer multiplexer promises, in absolute time.

 A plan maps every scheduled timer to the slot at which it will fire. The
 hardware timer appears as the absolute slot of its next expiry; no deltas, no
 16-bit counters and no timer states occur here. Besides that map a plan carries
 history: what was asked for, how often a start with zero slots has pushed the
 schedule back, and which callbacks have been called.
 */
module TimerPlan {
  import opened Basics

  /** What a client, or a callback, may do to timers. */
  datatype Action = Start(id: int, slots: U16) | Stop(id: int)

  /** A request as it was made: `slots` asked for at slot `at`, after `pushed` zero-slot delays. */
  datatype Asked = Asked(slots: U16, at: nat, pushed: nat)

  /** A scheduled timer: the slot at which it will fire, and the request it answers. */
  datatype Due = Due(at: nat, asked: Asked)

  /** One callback invocation: the timer, its request, and when and after how many delays it ran. */
  datatype Firing = Firing(id: int, asked: Asked, time: nat, pushed: nat)

  datatype Plan = Plan(
    now: nat,
    ids: seq<int>,            // registered timers, oldest first
    expiry: Option<nat>,      // when the hardware timer runs out, if it is running
    due: map<int, Due>,       // scheduled timers
    firing: map<int, Asked>,  // expired in the interrupt being served, not yet called
    pushed: nat,              // zero-slot starts that have put the hardware timer at one slot
    log: seq<Firing>,
    exact: bool)              // every delta so far has fitted in 16 bits

  function AtLeastOne(slots: U16): (n: nat)
  {
    if slots == 0 then 1 else slots
  }

  ghost predicate Empty(due: map<int, Due>) {
    forall i :: i !in due
  }

  /** The first slot at which some timer is due. */
  ghost function Earliest(due: map<int, Due>): (e: nat)
    requires !Empty(due)
    ensures exists i :: i in due && due[i].at == e
    ensures forall i | i in due :: e <= due[i].at
  {
    var k :| k in due;
    EarliestExists(due, due.Keys);
    var i :| i in due && forall j | j in due :: due[i].at <= due[j].at;
    due[i].at
  }

  lemma {:induction false} EarliestExists(due: map<int, Due>, among: set<int>)
    requires among <= due.Keys && among != {}
    ensures exists i :: i in among && forall j | j in among :: due[i].at <= due[j].at
    decreases among
  {
    var x := Pick(among);
    if among != {x} {
      var rest := among - {x};
      EarliestExists(due, rest);
      var m :| m in rest && forall j | j in rest :: due[m].at <= due[j].at;
      var best := if due[x].at <= due[m].at then x else m;
      forall j | j in among ensures due[best].at <= due[j].at {
        assert j == x || j in rest;
      }
    }
  }

  /** Every scheduled timer lies less than 65536 slots behind the reference, so a 16-bit delta holds it. */
  ghost predicate DeltasFit(due: map<int, Due>, reference: nat) {
    forall i | i in due :: due[i].at - reference < TWO_16
  }

  // ---------------------------------------------------------------- one step

  ghost predicate Preempts(p: Plan, slots: U16) {
    p.expiry.None? || p.expiry.value - p.now > slots
  }

  /**
   Start: the named timer becomes due `slots` from now. A start with zero slots
   that programs the hardware timer gives it one slot, which delays everything by one.
   */
  ghost function Started(p: Plan, id: int, slots: U16): (q: Plan) {
    if id !in p.ids then p else
    var asked := Asked(slots, p.now, p.pushed);
    if Preempts(p, slots) then
      var push := if slots == 0 then 1 else 0;
      var at := p.now + AtLeastOne(slots);
      var due := (map i | i in p.due :: Due(p.due[i].at + push, p.due[i].asked))[id := Due(at, asked)];
      p.(expiry := Some(at), due := due, firing := p.firing - {id},
         pushed := p.pushed + push, exact := p.exact && DeltasFit(due, at))
    else
      p.(due := p.due[id := Due(p.now + slots, asked)], firing := p.firing - {id})
  }

  /** Nothing is due when the hardware timer runs out, yet timers are waiting. */
  ghost predicate Idle(p: Plan) {
    !Empty(p.due) && forall i | i in p.due :: Some(p.due[i].at) != p.expiry
  }

  /** Stop: the named timer is forgotten; the hardware timer moves on if nothing needs it where it is. */
  ghost function Stopped(p: Plan, id: int): (q: Plan) {
    if id !in p.due && id !in p.firing then p else
    var q := p.(due := p.due - {id}, firing := p.firing - {id});
    if Idle(q) then
      q.(expiry := Some(Earliest(q.due)), exact := q.exact && DeltasFit(q.due, q.now))
    else q
  }

  ghost function Act(p: Plan, a: Action): (q: Plan) {
    match a
    case Start(id, slots) => Started(p, id, slots)
    case Stop(id) => Stopped(p, id)
  }

  ghost function ActAll(p: Plan, acts: seq<Action>): (q: Plan)
    ensures q.ids == p.ids && q.now == p.now && q.log == p.log && p.pushed <= q.pushed
    ensures q.exact ==> p.exact
    ensures q.firing.Keys <= p.firing.Keys
    decreases |acts|
  {
    if acts == [] then p else ActAll(Act(p, acts[0]), acts[1..])
  }

  /** The hardware timer has run out: what is due now fires, the rest stays scheduled. */
  ghost function Expired(p: Plan): (q: Plan) {
    var rest := map i | i in p.due && p.due[i].at != p.now :: p.due[i];
    p.(expiry := if Empty(rest) then None else Some(Earliest(rest)),
       due := rest,
       firing := map i | i in p.due && p.due[i].at == p.now :: p.due[i].asked)
  }

  type Scripts = map<int, seq<Action>>

  function Script(scripts: Scripts, id: int): seq<Action> {
    if id in scripts then scripts[id] else []
  }

  /** The callback of timer `id` is entered: the timer leaves the firing set and is logged. */
  ghost function Entered(p: Plan, id: int): (q: Plan)
    requires id in p.firing
  {
    p.(firing := p.firing - {id}, log := p.log + [Firing(id, p.firing[id], p.now, p.pushed)])
  }

  /** Call timer `id`: its callback is entered, and acts. */
  ghost function Called(p: Plan, id: int, scripts: Scripts): (q: Plan)
    requires id in p.firing
  {
    ActAll(Entered(p, id), Script(scripts, id))
  }

  /** Call every timer still firing, in list order from position `k`. */
  ghost function Dispatched(p: Plan, k: nat, scripts: Scripts): (q: Plan)
    ensures q.ids == p.ids && q.now == p.now && p.pushed <= q.pushed
    ensures p.log <= q.log && (q.exact ==> p.exact)
    decreases |p.ids| - k
  {
    if k >= |p.ids| then p
    else if p.ids[k] in p.firing then Dispatched(Called(p, p.ids[k], scripts), k + 1, scripts)
    else Dispatched(p, k + 1, scripts)
  }

  /** The interrupt: expire, then call. */
  ghost function Interrupted(p: Plan, scripts: Scripts): (q: Plan) {
    Dispatched(Expired(p), 0, scripts)
  }

  /** One slot passes, clients act at that instant, and a due interrupt is served at once. */
  ghost function Elapsed(p: Plan, acts: seq<Action>, scripts: Scripts): (q: Plan) {
    var q := ActAll(p.(now := p.now + 1), acts);
    if q.expiry == Some(q.now) then Interrupted(q, scripts) else q
  }

  ghost function Registered(p: Plan): (q: Plan) {
    var id := FreeId(p.ids, 0);
    if id == 128 then p else p.(ids := p.ids + [id])
  }

  function Without(s: seq<int>, x: int): (r: seq<int>)
    ensures forall y :: y in r <==> y in s && y != x
  {
    if s == [] then [] else (if s[0] == x then [] else [s[0]]) + Without(s[1..], x)
  }

  ghost function Unregistered(p: Plan, id: int): (q: Plan) {
    p.(ids := Without(p.ids, id), due := p.due - {id})
  }

  // ---------------------------------------------------------------- runs

  datatype Op =
    | Register
    | Unregister(id: int)
    | Do(action: Action)
    | Elapse(acts: seq<Action>, scripts: Scripts)

  ghost function Step(p: Plan, op: Op): (q: Plan) {
    match op
    case Register => Registered(p)
    case Unregister(id) => Unregistered(p, id)
    case Do(a) => Act(p, a)
    case Elapse(acts, scripts) => Elapsed(p, acts, scripts)
  }

  ghost function Run(p: Plan, ops: seq<Op>): (q: Plan)
    ensures p.now <= q.now && p.pushed <= q.pushed
    ensures p.log <= q.log && (q.exact ==> p.exact)
    decreases |ops|
  {
    if ops == [] then p else Run(Step(p, ops[0]), ops[1..])
  }

  // ---------------------------------------------------------------- what every plan satisfies

  /** How late a timer is: its deadline is the one asked for plus the zero-slot delays since. */
  ghost predicate OnTime(d: Due, pushed: nat) {
    && d.asked.pushed <= pushed
    && d.at == d.asked.at + d.asked.slots + (pushed - d.asked.pushed)
  }

  /** Never early, and late by no more than the zero-slot delays since the request. */
  ghost predicate Punctual(f: Firing) {
    && f.asked.pushed <= f.pushed
    && f.asked.at + f.asked.slots <= f.time <= f.asked.at + f.asked.slots + (f.pushed - f.asked.pushed)
  }

  ghost predicate Good(p: Plan) {
    && Distinct(p.ids)
    && (forall i | i in p.ids :: 0 <= i < 128)
    && (forall i | i in p.due :: i in p.ids && i !in p.firing && p.due[i].asked.at <= p.now && OnTime(p.due[i], p.pushed))
    && (forall i | i in p.firing :: i in p.ids && Punctual(Firing(i, p.firing[i], p.now, p.pushed)))
    && (p.expiry.None? ==> Empty(p.due))
    && (p.expiry.Some? ==> p.now <= p.expiry.value && forall i | i in p.due :: p.expiry.value <= p.due[i].at)
    && (forall f | f in p.log :: Punctual(f))
  }

  /** Between interrupts: nothing is firing and the next expiry is in the future. */
  ghost predicate Quiet(p: Plan) {
    Good(p) && p.firing == map[] && p.expiry != Some(p.now)
  }

  ghost predicate Ahead(p: Plan) {
    p.expiry != Some(p.now)
  }

  lemma StartedGood(p: Plan, id: int, slots: U16)
    requires Good(p) && id in p.ids
    ensures Good(Started(p, id, slots))
    ensures Ahead(p) ==> Ahead(Started(p, id, slots))
  {
    var q := Started(p, id, slots);
    forall i | i in q.due
      ensures q.due[i].asked.at <= q.now && OnTime(q.due[i], q.pushed) && q.expiry.value <= q.due[i].at
    {
      if i != id {
        assert i in p.due;
      }
    }
  }

  lemma StoppedGood(p: Plan, id: int)
    requires Good(p)
    ensures Good(Stopped(p, id))
    ensures Ahead(p) ==> Ahead(Stopped(p, id))
    ensures var q := Stopped(p, id);
      if (id in p.due || id in p.firing) && Idle(q.(expiry := p.expiry))
      then q.expiry.Some? && p.expiry.value < q.expiry.value
           && (exists i :: i in q.due && q.due[i].at == q.expiry.value) && forall i | i in q.due :: q.expiry.value <= q.due[i].at
      else q.expiry == p.expiry
  {
    var q := p.(due := p.due - {id}, firing := p.firing - {id});
    if Idle(q) {
      var i :| i in q.due && q.due[i].at == Earliest(q.due);
      assert p.expiry.value < q.due[i].at;
    }
  }

  lemma ActGood(p: Plan, a: Action)
    requires Good(p)
    ensures Good(Act(p, a))
    ensures Ahead(p) ==> Ahead(Act(p, a))
  {
    match a
    case Start(id, slots) => if id in p.ids { StartedGood(p, id, slots); }
    case Stop(id) => StoppedGood(p, id);
  }

  lemma {:induction false} ActAllGood(p: Plan, acts: seq<Action>)
    requires Good(p)
    ensures Good(ActAll(p, acts))
    ensures Ahead(p) ==> Ahead(ActAll(p, acts))
    decreases |acts|
  {
    if acts != [] {
      ActGood(p, acts[0]);
      ActAllGood(Act(p, acts[0]), acts[1..]);
    }
  }

  lemma ExpiredGood(p: Plan)
    requires Good(p) && p.expiry == Some(p.now)
    ensures Good(Expired(p)) && Ahead(Expired(p))
    ensures var q := Expired(p);
      && (forall i | i in p.due :: if p.due[i].at == p.now then i in q.firing && i !in q.due && q.firing[i] == p.due[i].asked
                                   else i in q.due && q.due[i] == p.due[i])
      && (forall i | i in q.due || i in q.firing :: i in p.due)
      && (if q.expiry.None? then forall i | i in p.due :: p.due[i].at == p.now
          else exists i :: i in q.due && q.due[i].at == q.expiry.value)
  {
  }

  lemma CalledEntry(p: Plan, id: int)
    requires Good(p) && id in p.firing
    ensures Good(Entered(p, id))
  {
  }

  lemma {:induction false} CalledGood(p: Plan, id: int, scripts: Scripts)
    requires Good(p) && Ahead(p) && id in p.firing
    ensures Good(Called(p, id, scripts)) && Ahead(Called(p, id, scripts))
    ensures Called(p, id, scripts).firing.Keys <= p.firing.Keys - {id}
  {
    CalledEntry(p, id);
    ActAllGood(Entered(p, id), Script(scripts, id));
  }

  lemma {:induction false} DispatchedQuiet(p: Plan, k: nat, scripts: Scripts)
    requires Good(p) && Ahead(p) && k <= |p.ids|
    requires forall i | i in p.firing :: i in p.ids[k..]
    ensures Quiet(Dispatched(p, k, scripts))
    decreases |p.ids| - k
  {
    if k < |p.ids| {
      assert p.ids[k..] == [p.ids[k]] + p.ids[k + 1..];
      if p.ids[k] in p.firing {
        CalledGood(p, p.ids[k], scripts);
        DispatchedQuiet(Called(p, p.ids[k], scripts), k + 1, scripts);
      } else {
        DispatchedQuiet(p, k + 1, scripts);
      }
    } else {
      forall i ensures i !in p.firing {
        assert p.ids[k..] == [];
      }
      NoKeys(p.firing);
    }
  }

  lemma {:induction false} InterruptedQuiet(p: Plan, scripts: Scripts)
    requires Good(p) && p.expiry == Some(p.now)
    ensures Quiet(Interrupted(p, scripts))
  {
    ExpiredGood(p);
    DispatchedQuiet(Expired(p), 0, scripts);
  }

  lemma {:induction false} ElapsedQuiet(p: Plan, acts: seq<Action>, scripts: Scripts)
    requires Quiet(p)
    ensures Quiet(Elapsed(p, acts, scripts))
  {
    var q := p.(now := p.now + 1);
    assert Good(q);
    ActAllGood(q, acts);
    var r := ActAll(q, acts);
    assert r.firing.Keys == {};
    assert r.firing == map[];
    if r.expiry == Some(r.now) {
      InterruptedQuiet(r, scripts);
    }
  }

  lemma {:induction false} WithoutDistinct(s: seq<int>, x: int)
    requires Distinct(s)
    ensures Distinct(Without(s, x))
  {
    if s != [] {
      WithoutDistinct(s[1..], x);
      assert s == [s[0]] + s[1..];
      assert s[0] !in s[1..];
    }
  }

  lemma {:induction false} UnregisteredGood(p: Plan, id: int)
    requires Good(p) && p.firing == map[]
    ensures Good(Unregistered(p, id))
  {
    WithoutDistinct(p.ids, id);
  }

  lemma {:induction false} StepQuiet(p: Plan, op: Op)
    requires Quiet(p)
    ensures Quiet(Step(p, op))
  {
    match op
    case Register =>
    case Unregister(id) => UnregisteredGood(p, id);
    case Do(a) =>
      ActGood(p, a);
      assert Act(p, a).firing == map[];
    case Elapse(acts, scripts) => ElapsedQuiet(p, acts, scripts);
  }

  /**
   Over every run: scheduled timers keep the deadline asked for, put back by
   exactly one slot for each zero-slot delay since, and no callback is early or
   later than those delays account for.
   */
  lemma {:induction false} RunQuiet(p: Plan, ops: seq<Op>)
    requires Quiet(p)
    ensures Quiet(Run(p, ops))
    decreases |ops|
  {
    if ops != [] {
      StepQuiet(p, ops[0]);
      RunQuiet(Step(p, ops[0]), ops[1..]);
    }
  }
}
