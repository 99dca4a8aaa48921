/**
 The event scheduler and its tick timers, in unbounded time.

 The state holds the lists the program keeps, what is in each storage, and a
 clock that never wraps. Launch times are unbounded as well, so that lists can
 be ordered by comparing numbers.
 */
module EventSpec {
  import opened Basics
  import opened EventTypes

  /**
   A storage's contents. For timers: when it is due, its period (0 for none),
   when it was requested, how many periodic runs have been completed since, and
   its place in the order of insertion into the pending list, if it went there.
   */
  datatype Rec = Rec(
    data: Event, allocator: Allocator, state: Progress,
    due: int, period: U32, base: nat, runs: nat, stamp: Option<nat>)

  /** A delivery: its priority, and the deadline and insertion stamp of a timer that waited in the pending list. */
  datatype Tag = Tag(priority: Priority, due: int, stamp: Option<nat>)

  datatype State = State(
    clock: nat,
    pending: seq<Storage>,
    timerFree: seq<Storage>,
    queue: seq<Storage>,
    eventFree: seq<Storage>,
    running: Option<Storage>,
    recs: map<Storage, Rec>,
    pool: set<Storage>,      // the storages allocated at startup
    timers: set<Storage>,    // the storages inside timer structs
    tasklets: seq<Tasklet>,
    stamps: nat,             // insertions into the pending list so far
    delivered: seq<Tag>)

  // ---------------------------------------------------------------- stable insertion

  datatype Order = ByPriority | ByDue

  function Key(recs: map<Storage, Rec>, o: Order, n: Storage): int {
    if n !in recs then 0
    else match o
      case ByPriority => Rank(recs[n].data.priority)
      case ByDue => recs[n].due
  }

  /** The first position from `k` on whose key is greater than `key`, or the end. */
  function Slot(s: seq<Storage>, recs: map<Storage, Rec>, o: Order, key: int, k: nat): (r: nat)
    requires k <= |s|
    ensures k <= r <= |s|
    ensures forall j | k <= j < r :: Key(recs, o, s[j]) <= key
    ensures r < |s| ==> key < Key(recs, o, s[r])
    decreases |s| - k
  {
    if k == |s| || key < Key(recs, o, s[k]) then k else Slot(s, recs, o, key, k + 1)
  }

  function InsertAt(s: seq<Storage>, k: nat, n: Storage): (r: seq<Storage>)
    requires k <= |s|
    ensures |r| == |s| + 1
    ensures n in r && (forall x | x in s :: x in r) && forall x | x in r :: x in s || x == n
    ensures forall j | 0 <= j < |r| :: r[j] == if j < k then s[j] else if j == k then n else s[j - 1]
  {
    s[..k] + [n] + s[k..]
  }

  function Insert(s: seq<Storage>, recs: map<Storage, Rec>, o: Order, n: Storage): (r: seq<Storage>) {
    InsertAt(s, Slot(s, recs, o, Key(recs, o, n), 0), n)
  }

  function Minus(s: seq<Storage>, n: Storage): (r: seq<Storage>)
    ensures (forall x | x in s && x != n :: x in r) && forall x | x in r :: x in s && x != n
  {
    if s == [] then [] else (if s[0] == n then [] else [s[0]]) + Minus(s[1..], n)
  }

  // ---------------------------------------------------------------- primitive steps

  ghost function Revised(st: State, n: Storage, r: Rec): (t: State) {
    st.(recs := st.recs[n := r])
  }

  /** Into the active queue, behind everything of the same or a higher priority. */
  ghost function Write(st: State, n: Storage): (t: State)
    requires n in st.recs
  {
    st.(queue := Insert(st.queue, st.recs, ByPriority, n), recs := st.recs[n := st.recs[n].(state := Queued)])
  }

  ghost function SendTimer(st: State, n: Storage): (t: State)
    requires n in st.recs
  {
    Write(Revised(st, n, st.recs[n].(allocator := Timer)), n)
  }

  /** Into the pending list, behind everything due at the same time or earlier. */
  ghost function AddPending(st: State, n: Storage): (t: State)
    requires n in st.recs
  {
    var s := Revised(st, n, st.recs[n].(stamp := Some(st.stamps)));
    s.(pending := Insert(s.pending, s.recs, ByDue, n), stamps := st.stamps + 1)
  }

  /** A timer event is over: its struct becomes free, or is queued or pending for the next period. */
  ghost function TimerEventFreed(st: State, n: Storage): (t: State)
    requires n in st.recs
  {
    var r := st.recs[n];
    if r.period == 0 then
      st.(timerFree := [n] + st.timerFree)
    else
      var s := Revised(st, n, r.(due := r.due + r.period, runs := r.runs + 1, stamp := None));
      if r.due + r.period <= st.clock then SendTimer(s, n) else AddPending(s, n)
  }

  /** An event is over: its storage goes back where it came from. */
  ghost function FreePushed(st: State, n: Storage): (t: State)
    requires n in st.recs
  {
    var r := st.recs[n];
    match r.allocator
    case StartupPool => Revised(st, n, r.(state := Unqueued)).(eventFree := [n] + st.eventFree)
    case Dynamic => st.(recs := st.recs - {n})
    case Timer => TimerEventFreed(Revised(st, n, r.(state := Unqueued)), n)
    case User => st
  }

  // ---------------------------------------------------------------- operations

  function TaskletIds(tasklets: seq<Tasklet>): (ids: seq<int>)
    ensures |ids| == |tasklets| && forall k | 0 <= k < |ids| :: ids[k] == tasklets[k].id
  {
    if tasklets == [] then [] else [tasklets[0].id] + TaskletIds(tasklets[1..])
  }

  predicate Registered(st: State, id: int) {
    id in TaskletIds(st.tasklets)
  }

  /** The storage an event is put in: the first free one, or a new one if memory allows. */
  ghost function NextEvent(st: State, spare: Option<Storage>): Option<Storage> {
    if st.eventFree != [] then Some(st.eventFree[0]) else spare
  }

  /** A storage just taken points nowhere and has low priority. */
  function Blank(r: Rec): Rec {
    r.(data := r.data.(dataPtr := 0, priority := Low))
  }

  ghost function TakenEvent(st: State, spare: Option<Storage>): (t: State)
    requires NextEvent(st, spare).Some? && (forall n | n in st.eventFree :: n in st.recs)
    ensures NextEvent(st, spare).value in t.recs
  {
    if st.eventFree != [] then
      var n := st.eventFree[0];
      Revised(st, n, Blank(st.recs[n])).(eventFree := st.eventFree[1..])
    else Revised(st, spare.value, Rec(Event(0, 0, 0, 0, 0, Low, 0), Dynamic, Unqueued, 0, 0, 0, 0, None))
  }

  /** Put `data` into storage `n` and queue it. */
  ghost function Posted(st: State, n: Storage, data: Event): (t: State)
    requires n in st.recs
  {
    Write(Revised(st, n, st.recs[n].(data := data)), n)
  }

  ghost function Sent(st: State, data: Event, spare: Option<Storage>): (t: State)
    requires forall n | n in st.eventFree :: n in st.recs
  {
    if !Registered(st, data.receiver) || NextEvent(st, spare).None? then st
    else Posted(TakenEvent(st, spare), NextEvent(st, spare).value, data)
  }

  ghost function SentUser(st: State, n: Storage, data: Event): (t: State) {
    Write(Revised(st, n, Rec(data, User, Unqueued, 0, 0, 0, 0, None)), n)
  }

  predicate HandlerKnown(st: State, handler: nat) {
    exists k | 0 <= k < |st.tasklets| :: st.tasklets[k].handler == handler
  }

  ghost function Created(st: State, handler: nat, initType: U8, memory: bool, spare: Option<Storage>): (t: State)
    requires forall n | n in st.eventFree :: n in st.recs
    requires FreeId(TaskletIds(st.tasklets), 0) < 128
  {
    if HandlerKnown(st, handler) || !memory || NextEvent(st, spare).None? then st
    else
      var id := FreeId(TaskletIds(st.tasklets), 0);
      Posted(TakenEvent(st, spare).(tasklets := st.tasklets + [Tasklet(id, handler)]), NextEvent(st, spare).value,
             Event(id, 0, initType, 0, 0, Low, 0))
  }

  ghost function NextTimer(st: State, spare: Option<Storage>): Option<Storage> {
    if st.timerFree != [] then Some(st.timerFree[0]) else spare
  }

  /** A timer struct is taken off the free list, or allocated, and filled in. */
  ghost function TakenTimer(st: State, data: Event, due: int, period: U32, spare: Option<Storage>): (t: State)
    requires NextTimer(st, spare).Some?
    ensures NextTimer(st, spare).value in t.recs
  {
    var n := NextTimer(st, spare).value;
    Revised(st, n, Rec(data, Timer, Unqueued, due, period, st.clock, 0, None))
      .(timers := st.timers + {n}, timerFree := if st.timerFree != [] then st.timerFree[1..] else [])
  }

  /** Request an event `delay` ticks from now, and every `period` ticks from then on if that is not 0. */
  ghost function Requested(st: State, data: Event, delay: int, period: U32, spare: Option<Storage>): (t: State) {
    if !Registered(st, data.receiver) || NextTimer(st, spare).None? then st
    else
      var n := NextTimer(st, spare).value;
      var s := TakenTimer(st, data, st.clock + delay, period, spare);
      if delay <= 0 then SendTimer(s, n) else AddPending(s, n)
  }

  /** Queue the pending timers whose time has come. */
  ghost function Expire(st: State): (t: State)
    requires forall n | n in st.pending :: n in st.recs
    decreases |st.pending|
  {
    if st.pending == [] || st.recs[st.pending[0]].due > st.clock then st
    else Expire(SendTimer(st.(pending := st.pending[1..]), st.pending[0]))
  }

  ghost function Ticked(st: State, ticks: nat): (t: State)
    requires forall n | n in st.pending :: n in st.recs
  {
    Expire(st.(clock := st.clock + ticks))
  }

  /** An event that may be cancelled: waiting in the pending list or the queue, or running. */
  ghost predicate Live(st: State, n: Storage) {
    && n in st.recs
    && (n in st.pending || n in st.queue || (st.running == Some(n) && st.recs[n].state == Running))
  }

  ghost function Cancelled(st: State, n: Storage): (t: State)
    requires n in st.recs
  {
    var r := st.recs[n];
    var s := if r.allocator == Timer then Revised(st, n, r.(period := 0)) else st;
    if r.state == Running then s
    else FreePushed(s.(pending := if r.allocator == Timer && r.state == Unqueued then Minus(s.pending, n) else s.pending,
                       queue := if r.state == Queued then Minus(s.queue, n) else s.queue), n)
  }

  predicate Matches(recs: map<Storage, Rec>, n: Storage, eventId: U8, tasklet: int) {
    n in recs && recs[n].data.receiver == tasklet && recs[n].data.eventId == eventId
  }

  /** The first match in a list. */
  ghost function FirstMatch(s: seq<Storage>, recs: map<Storage, Rec>, eventId: U8, tasklet: int): (m: Option<Storage>)
    ensures m.Some? ==> m.value in s && m.value in recs
  {
    if s == [] then None
    else if Matches(recs, s[0], eventId, tasklet) then Some(s[0])
    else FirstMatch(s[1..], recs, eventId, tasklet)
  }

  /** The event cancelling by id finds: a pending timer, or failing that the first queued match if it is a timer's. */
  ghost function CancelTarget(st: State, eventId: U8, tasklet: I8): (m: Option<Storage>)
    ensures m.Some? ==> m.value in st.recs && (m.value in st.pending || m.value in st.queue)
  {
    var p := FirstMatch(st.pending, st.recs, eventId, tasklet);
    if p.Some? then p
    else
      var q := FirstMatch(st.queue, st.recs, eventId, tasklet % 0x100);
      if q.Some? && st.recs[q.value].allocator == Timer then q else None
  }

  ghost function TimerCancelled(st: State, eventId: U8, tasklet: I8): (t: State) {
    var m := CancelTarget(st, eventId, tasklet);
    if m.Some? then Cancelled(st, m.value) else st
  }

  /** Take the first event off the queue and let its handler run. */
  ghost function Begun(st: State): (t: State) {
    if st.queue == [] || st.queue[0] !in st.recs then st
    else
      var n := st.queue[0];
      var r := st.recs[n];
      Revised(st, n, r.(state := Running))
        .(queue := st.queue[1..], running := Some(n), delivered := st.delivered + [Tag(r.data.priority, r.due, r.stamp)])
  }

  /** The handler has returned. */
  ghost function Ended(st: State): (t: State) {
    if st.running.None? || st.running.value !in st.recs then st
    else FreePushed(st.(running := None), st.running.value)
  }
}
