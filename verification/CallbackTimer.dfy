/**
 The callback-timer multiplexer as the program keeps it: timers updated in place
 by loops over their list, specified by the functions of DeltaTimers.
 */
module CallbackTimer {
  import opened Basics
  import opened TimerPlan
  import opened DeltaTimers

  class Timer {
    const id: int
    var state: TimerState
    var slots: U16
    var remaining: U16

    constructor (id: int)
      ensures this.id == id && state == Inactive && slots == 0 && remaining == 0
    {
      this.id := id;
      state := Inactive;
      slots := 0;
      remaining := 0;
    }

    ghost function View(): Cell
      reads this
    {
      Cell(id, state, slots, remaining)
    }
  }

  ghost function Views(ts: seq<Timer>): (cells: seq<Cell>)
    reads ts
    ensures |cells| == |ts| && forall k | 0 <= k < |ts| :: cells[k] == ts[k].View()
  {
    seq(|ts|, k requires 0 <= k < |ts| reads ts => ts[k].View())
  }

  class CallbackTimers {
    var timers: seq<Timer>
    var running: bool
    var hal: U16                  // slots left on the hardware timer
    var called: seq<Invocation>   // the callbacks called so far

    /** Ids are distinct and fit a positive int8, so an 8-bit count of timers cannot wrap. */
    ghost predicate Valid()
      reads this`timers
    {
      && (forall k | 0 <= k < |timers| :: 0 <= timers[k].id < 128)
      && (forall j, k | 0 <= j < k < |timers| :: timers[j].id != timers[k].id)
      && |timers| <= 128
    }

    ghost function Cells(): (cells: seq<Cell>)
      reads this`timers, timers
    {
      Views(timers)
    }

    ghost function View(): Deltas
      reads this, timers
    {
      Deltas(Cells(), running, hal, called)
    }

    constructor ()
      ensures Valid() && timers == [] && View() == Deltas([], false, 0, [])
    {
      timers, running, hal, called := [], false, 0, [];
    }

    method Find(id: int) returns (t: Timer?, ghost k: nat)
      requires Valid()
      ensures t == null <==> !HasId(Cells(), id)
      ensures t != null ==> k < |timers| && timers[k] == t && t.id == id
    {
      for j := 0 to |timers|
        invariant forall i | 0 <= i < j :: timers[i].id != id
      {
        if timers[j].id == id {
          assert Cells()[j].id == id;
          return timers[j], j;
        }
      }
      t, k := null, 0;
    }

    // ---------------------------------------------------------------- registration

    /** The lowest id not in use, or 128. */
    method FirstFreeId() returns (id: U8)
      requires Valid()
      ensures id == FreeId(Ids(Cells()), 0)
    {
      id := 0;
      while id <= 0x7F
        invariant id <= 128 && FreeId(Ids(Cells()), 0) == FreeId(Ids(Cells()), id)
        decreases 128 - id
      {
        var t, k := Find(id);
        HasIdIsIn(Cells(), id);
        if t == null {
          return;
        }
        id := id + 1;
      }
    }

    /** Registration gives out the lowest free id. */
    method Register(handlerGiven: bool, memoryLeft: bool) returns (r: int)
      requires Valid()
      modifies this`timers
      ensures Valid() && forall t | t in timers && t !in old(timers) :: fresh(t)
      ensures r == if handlerGiven && memoryLeft && old(FreeId(Ids(Cells()), 0)) < 128 then old(FreeId(Ids(Cells()), 0)) else -1
      ensures View() == if r >= 0 then RegisterOn(old(View())) else old(View())
    {
      hide Views;
      if !handlerGiven {
        return -1;
      }
      r := FirstFreeId();
      if r == 128 || !memoryLeft {
        return -1;
      }
      hide Ids, FreeId;
      RoomLeft(r);
      var t := new Timer(r);
      timers := timers + [t];
      assert Cells() == old(Cells()) + [t.View()];
      return r;
    }

    lemma RoomLeft(id: int)
      requires Valid() && 0 <= id < 128 && id !in Ids(Cells())
      ensures |timers| < 128 && forall t | t in timers :: t.id != id
    {
      hide Ids;
      var ids := Ids(Cells());
      ListFits(ids, id);
      forall t | t in timers ensures t.id != id {
        var k :| 0 <= k < |timers| && timers[k] == t;
        assert ids[k] == t.id;
      }
    }

    /** Unregistering forgets the timer, scheduled or not; the hardware timer is left as it is. */
    method Unregister(id: int) returns (r: int)
      requires Valid()
      modifies this`timers
      ensures Valid() && forall t | t in timers :: t in old(timers)
      ensures r == if old(HasId(Cells(), id)) then 0 else -1
      ensures View() == old(View()).(cells := Drop(old(Cells()), id))
    {
      hide Drop, RemoveFirst, HasId;
      var t, k := Find(id);
      if t == null {
        DropAbsent(Cells(), id);
        return -1;
      }
      RemovedValid(timers, t);
      timers := RemoveFirst(timers, t);
      return 0;
    }

    /** Updating the timer at `k` changes that cell and no other. */
    twostate lemma OneChanged(k: nat)
      requires Valid() && timers == old(timers) && k < |timers|
      requires forall j | 0 <= j < |timers| && j != k :: unchanged(timers[j])
      ensures Cells() == old(Cells())[k := timers[k].View()]
    {
      forall j | 0 <= j < |timers| ensures Cells()[j] == old(Cells())[k := timers[k].View()][j] {
        assert j != k ==> timers[j].View() == old(timers[j].View());
      }
    }

    // ---------------------------------------------------------------- the hardware timer

    /** The hardware timer is never started with zero slots. */
    method StartPlTimer(slots: U16)
      modifies this`running, this`hal
      ensures running && hal == AtLeastOne(slots)
    {
      hal := AtLeastOne(slots);
      running := true;
    }

    /** A timer on Hold with the least delta, and how many are on Hold. */
    method FirstHeld() returns (first: Timer?, holdCount: U8, ghost f: nat)
      requires Valid()
      ensures holdCount == CountFrom(Cells(), Hold, 0)
      ensures first != null ==> NoneBelow(Cells(), |timers|, first.remaining)
      ensures first == null <==> !Any(Cells(), Hold)
      ensures first != null ==> f < |timers| && timers[f] == first && first.state == Hold && first.remaining == LeastHeld(Cells())
    {
      hide LeastHeld, Any;
      hide CountFrom, NoneBelow, NoneHeldBelow;
      first, holdCount, f := null, 0, 0;
      ghost var cells := Cells();
      Nothing(cells);
      for k := 0 to |timers|
        invariant holdCount + CountFrom(cells, Hold, k) == CountFrom(cells, Hold, 0) && holdCount <= k
        invariant if first == null then holdCount == 0 && NoneHeldBelow(cells, k)
                  else holdCount > 0 && f < k && timers[f] == first && first.state == Hold && NoneBelow(cells, k, first.remaining)
      {
        var t := timers[k];
        assert t.View() == cells[k];
        OneMore(cells, k, if first == null then 0 else first.remaining);
        if t.state == Hold {
          if first == null || t.remaining < first.remaining {
            first, f := t, k;
          }
          holdCount := holdCount + 1;
        }
      }
      if first == null {
        NoneHeld(cells);
      } else {
        assert cells[f] == first.View();
        LeastHeldAt(cells, f);
      }
    }

    /** Make the timers on Hold that are due first Active, start the hardware timer, and store the others relative to it. */
    method GetNextRunningTo()
      requires Valid()
      modifies this`running, this`hal, timers
      ensures View() == Promoted(old(View()))
    {
      hide LeastHeld, ChangedAll, Any, CountFrom, NoneBelow, Changed, Promoted, Valid;
      ghost var d := View();
      var first, holdCount, f := FirstHeld();
      if first == null {
        PromotedNone(d);
        return;
      }
      assert d.cells[f] == first.View();
      OneFewerHeld(d.cells, 0, f);
      holdCount := holdCount - 1;
      ghost var m := first.remaining;
      Activate(first, f);
      StartPlTimer(first.remaining);
      Rebase(first, holdCount, f, d.cells);
      PromotedSome(d, View(), m);
    }

    method Activate(t: Timer, ghost k: nat)
      requires Valid() && k < |timers| && timers[k] == t
      modifies t
      ensures Cells() == old(Cells())[k := old(t.View()).(state := Active)] && unchanged(this)
      ensures t.state == Active && t.remaining == old(t.remaining)
    {
      t.state := Active;
      OneChanged(k);
    }

    /** The loop over the timers still on Hold, which ends as soon as it has seen as many as there are. */
    method Rebase(first: Timer, count: U8, ghost f: nat, ghost before: seq<Cell>)
      requires Valid() && f < |timers| == |before| && timers[f] == first && first.state == Active
      requires before[f].state == Hold && before[f].remaining == first.remaining && Cells() == before[f := before[f].(state := Active)]
      requires count == CountFrom(Cells(), Hold, 0)
      requires NoneBelow(before, |before|, first.remaining)
      modifies timers
      ensures Cells() == ChangedAll(before, Later(old(first.remaining))) && unchanged(this)
    {
      hide LeastHeld, ChangedAll, Any, CountFrom, Changed, Valid;
      var holdCount := count;
      ghost var cells, m := Cells(), first.remaining;
      RebasedFirst(before[f], m);
      for k := 0 to |timers|
        invariant unchanged(this) && Valid()
        invariant cells == Cells() && first.remaining == m
        invariant holdCount == CountFrom(cells, Hold, k)
        invariant forall j: nat | j < |cells| && (j < k || j == f) :: cells[j] == Changed(before[j], Later(m))
        invariant forall j: nat | j < |cells| && k <= j && j != f :: cells[j] == before[j]
      {
        if holdCount == 0 {
          AllRebased(before, cells, k, f, m);
          return;
        }
        var held := RebaseOne(timers[k], first.remaining, k);
        CountStep(cells, Hold, k, Changed(cells[k], Later(m)));
        cells := cells[k := Changed(cells[k], Later(m))];
        if held {
          holdCount := holdCount - 1;
        }
      }
      AllRebased(before, cells, |timers|, f, m);
    }

    /** A timer on Hold becomes Active, or relative to an expiry `m` later. */
    method RebaseOne(t: Timer, m: U16, ghost k: nat) returns (held: bool)
      requires Valid() && k < |timers| && timers[k] == t && (t.state == Hold ==> m <= t.remaining)
      modifies t
      ensures held == (old(t.state) == Hold) && unchanged(this)
      ensures Cells() == old(Cells())[k := Changed(old(t.View()), Later(m))]
    {
      held := t.state == Hold;
      if held {
        if t.remaining == m {
          t.state := Active;
        } else {
          t.remaining := t.remaining - m;
        }
      }
      OneChanged(k);
    }

    // ---------------------------------------------------------------- starting

    /** A fresh request for the timer at `k`. */
    method Request(t: Timer, state: TimerState, slots: U16, remaining: U16, ghost k: nat)
      requires Valid() && k < |timers| && timers[k] == t
      modifies t
      ensures Cells() == ChangedAll(old(Cells()), Set(t.id, state, slots, remaining)) && unchanged(this)
    {
      hide ChangedAll, Ids;
      ghost var before := Cells();
      assert forall j: nat | j < |before| :: before[j].id == timers[j].id;
      OnlyOne(before, k, Set(t.id, state, slots, remaining));
      t.state := state;
      t.slots := slots;
      t.remaining := remaining;
      OneChanged(k);
    }

    /** Put every scheduled timer on Hold, `extra` slots further behind the hardware expiry. */
    method PushBack(extra: U16)
      requires Valid()
      modifies timers
      ensures Cells() == ChangedAll(old(Cells()), Earlier(extra)) && unchanged(this)
    {
      hide ChangedAll, Changed, Valid;
      ghost var before := Cells();
      for k := 0 to |timers|
        invariant unchanged(this) && Valid()
        invariant ChangedUpTo(before, Cells(), Earlier(extra), k)
      {
        PushBackOne(timers[k], extra, k);
      }
      AllChanged(before, Cells(), Earlier(extra));
    }

    method PushBackOne(t: Timer, extra: U16, ghost k: nat)
      requires Valid() && k < |timers| && timers[k] == t
      modifies t
      ensures Cells() == old(Cells())[k := Changed(old(Cells())[k], Earlier(extra))] && unchanged(this)
    {
      if t.state == Active {
        t.state := Hold;
        t.remaining := 0;
      }
      if t.state == Hold {
        t.remaining := (t.remaining + extra) % TWO_16;
      }
      OneChanged(k);
    }

    /** Start, or restart, a timer. */
    method Start(id: int, slots: U16) returns (r: int)
      requires Valid()
      modifies this`running, this`hal, timers
      ensures r == if old(HasId(Cells(), id)) then 0 else -1
      ensures View() == StartOn(old(View()), id, slots)
    {
      hide ChangedAll, Changed, Valid, HasId, Promoted, Ids, Views;
      var t, k := Find(id);
      if t == null {
        return -1;
      }
      if running {
        StartRunning(t, slots, k);
      } else {
        Request(t, Hold, slots, slots, k);
        GetNextRunningTo();
      }
      return 0;
    }

    /** The hardware timer is running: it is left as it is unless it would expire too late. */
    method StartRunning(t: Timer, slots: U16, ghost k: nat)
      requires Valid() && running && k < |timers| && timers[k] == t && HasId(Cells(), t.id)
      modifies this`running, this`hal, timers
      ensures View() == StartOn(old(View()), t.id, slots)
    {
      hide ChangedAll, Changed, Valid, HasId, Promoted, Ids, Views;
      if hal > slots {
        var left := hal;
        StartPlTimer(slots);
        PushBack(left - slots);
        Request(t, Active, slots, slots, k);
      } else if hal < slots {
        Request(t, Hold, slots, slots - hal, k);
      } else {
        Request(t, Active, slots, slots, k);
      }
    }

    // ---------------------------------------------------------------- stopping

    method AnyActive() returns (found: bool)
      requires Valid()
      ensures found == Any(Cells(), Active)
    {
      found := false;
      for k := 0 to |timers|
        invariant forall j | 0 <= j < k :: Cells()[j].state != Active
      {
        if timers[k].state == Active {
          assert Cells()[k].state == Active;
          return true;
        }
      }
    }

    /** Make deltas relative to the present instead of the hardware expiry, and find the least. */
    method HurryHeld(left: U16) returns (first: Timer?, ghost f: nat)
      requires Valid()
      modifies timers
      ensures Cells() == ChangedAll(old(Cells()), Hurry(left)) && unchanged(this)
      ensures first == null <==> !Any(Cells(), Hold)
      ensures first != null ==> f < |timers| && timers[f] == first && first.state == Hold && first.remaining == LeastHeld(Cells())
      ensures first != null ==> NoneBelow(Cells(), |timers|, first.remaining)
    {
      hide ChangedAll, Changed, Valid, CountFrom, NoneBelow, NoneHeldBelow, LeastHeld, Any;
      ghost var before := Cells();
      first, f := null, 0;
      Nothing(before);
      for k := 0 to |timers|
        invariant unchanged(this) && Valid()
        invariant ChangedUpTo(before, Cells(), Hurry(left), k)
        invariant if first == null then NoneHeldBelow(Cells(), k)
                  else f < k && timers[f] == first && first.state == Hold && NoneBelow(Cells(), k, first.remaining)
      {
        ghost var cells, m := Cells(), if first == null then 0 else first.remaining;
        var t := timers[k];
        HurryOne(t, left, k);
        assert first != null ==> Cells()[f] == cells[f] == first.View();
        SameBelow(cells, Cells(), k, m);
        OneMore(Cells(), k, m);
        assert Cells()[k] == t.View();
        if t.state == Hold && (first == null || t.remaining < first.remaining) {
          first, f := t, k;
        }
      }
      AllChanged(before, Cells(), Hurry(left));
      if first == null {
        NoneHeld(Cells());
      } else {
        assert Cells()[f] == first.View();
        LeastHeldAt(Cells(), f);
      }
    }

    method HurryOne(t: Timer, left: U16, ghost k: nat)
      requires Valid() && k < |timers| && timers[k] == t
      modifies t
      ensures Cells() == old(Cells())[k := Changed(old(Cells())[k], Hurry(left))] && unchanged(this)
    {
      if t.state == Hold {
        t.remaining := (t.remaining + left) % TWO_16;
      }
      OneChanged(k);
    }

    method Stop(id: int) returns (r: int)
      requires Valid()
      modifies this`running, this`hal, timers
      ensures r == if old(HasId(Cells(), id)) then 0 else -1
      ensures View() == StopOn(old(View()), id)
    {
      hide ChangedAll, Changed, Valid, HasId, Promoted, Ids, Views, Stoppable, Any;
      var t, k := Find(id);
      if t == null {
        NotStoppable(Cells(), id);
        return -1;
      }
      ghost var d := View();
      assert d.cells[k] == t.View();
      StoppableAt(this, k);
      if t.state == Inactive {
        return 0;
      }
      HaltOne(t, k);
      var found := AnyActive();
      if !found {
        RunFromNow();
      }
      return 0;
    }

    method HaltOne(t: Timer, ghost k: nat)
      requires Valid() && k < |timers| && timers[k] == t
      modifies t
      ensures Cells() == ChangedAll(old(Cells()), Halt(t.id)) && unchanged(this)
    {
      hide ChangedAll, Ids;
      ghost var before := Cells();
      assert forall j: nat | j < |before| :: before[j].id == timers[j].id;
      OnlyOne(before, k, Halt(t.id));
      t.state := Inactive;
      t.remaining := 0;
      OneChanged(k);
    }

    /** Nothing is Active: start the hardware timer for whichever timer on Hold is due first. */
    method RunFromNow()
      requires Valid()
      modifies this`running, this`hal, timers
      ensures View() == old(Promoted(View().(cells := ChangedAll(Cells(), Hurry(hal)))))
    {
      hide ChangedAll, Changed, Valid, Promoted, Views, Any, LeastHeld, NoneBelow, Ids;
      var first, f := HurryHeld(hal);
      ghost var d := View();
      if first == null {
        PromotedNone(d);
        return;
      }
      ghost var m := first.remaining;
      assert d.cells[f] == first.View();
      Activate(first, f);
      StartPlTimer(first.remaining);
      RebaseRest(first, f, d.cells);
      PromotedSome(d, View(), m);
    }

    /** The loop over the other timers on Hold, this time to the end of the list. */
    method RebaseRest(first: Timer, ghost f: nat, ghost before: seq<Cell>)
      requires Valid() && f < |timers| == |before| && timers[f] == first && first.state == Active
      requires before[f].state == Hold && before[f].remaining == first.remaining && Cells() == before[f := before[f].(state := Active)]
      requires NoneBelow(before, |before|, first.remaining)
      modifies timers
      ensures Cells() == ChangedAll(before, Later(old(first.remaining))) && unchanged(this)
    {
      hide LeastHeld, ChangedAll, Any, Changed, Valid;
      ghost var cells, m := Cells(), first.remaining;
      RebasedFirst(before[f], m);
      for k := 0 to |timers|
        invariant unchanged(this) && Valid()
        invariant cells == Cells() && first.remaining == m
        invariant forall j: nat | j < |cells| && (j < k || j == f) :: cells[j] == Changed(before[j], Later(m))
        invariant forall j: nat | j < |cells| && k <= j && j != f :: cells[j] == before[j]
      {
        var held := RebaseOne(timers[k], first.remaining, k);
        cells := cells[k := Changed(cells[k], Later(m))];
      }
      AllChanged(before, cells, Later(m));
    }

    // ---------------------------------------------------------------- the interrupt

    /** The actions of a callback, or of clients, in order. */
    method PerformAll(acts: seq<Action>)
      requires Valid()
      modifies this`running, this`hal, timers
      ensures View() == ActAllOn(old(View()), acts)
    {
      hide StartOn, StopOn, Valid, Views, HasId;
      ghost var d := View();
      assert acts[0..] == acts;
      for k := 0 to |acts|
        invariant Valid() && ActAllOn(View(), acts[k..]) == ActAllOn(d, acts)
      {
        assert acts[k..][0] == acts[k] && acts[k..][1..] == acts[k + 1..];
        match acts[k] {
          case Start(id, slots) => var _ := Start(id, slots);
          case Stop(id) => var _ := Stop(id);
        }
      }
    }

    /** What was Active has expired; its count lets the caller end its loop early. */
    method MarkExpired() returns (i: U8)
      requires Valid() && !Any(Cells(), RunInterrupt)
      modifies timers
      ensures Cells() == ChangedAll(old(Cells()), Mark) && unchanged(this)
      ensures i == CountFrom(Cells(), RunInterrupt, 0)
    {
      hide ChangedAll, Changed, Any, CountFrom, Views;
      ghost var before := Cells();
      i := 0;
      for k := 0 to |timers|
        invariant unchanged(this) && Valid()
        invariant ChangedUpTo(before, Cells(), Mark, k)
        invariant i <= k && i + CountFrom(before, Active, k) == CountFrom(before, Active, 0)
      {
        CountNext(before, Active, k);
        var marked := MarkOne(timers[k], k);
        if marked {
          i := i + 1;
        }
      }
      CountNone(before, Active);
      AllChanged(before, Cells(), Mark);
      MarkedCount(before, 0);
    }

    method MarkOne(t: Timer, ghost k: nat) returns (marked: bool)
      requires Valid() && k < |timers| && timers[k] == t
      modifies t
      ensures Cells() == old(Cells())[k := Changed(old(Cells())[k], Mark)] && unchanged(this)
      ensures marked == (old(Cells())[k].state == Active)
    {
      marked := t.state == Active;
      if marked {
        t.state := RunInterrupt;
      }
      OneChanged(k);
    }

    /** The hardware timer has run out: restart it for what is due next, then call what was due now. */
    method InterruptHandler(scripts: Scripts)
      requires Valid() && !Any(Cells(), RunInterrupt)
      modifies this`running, this`hal, this`called, timers
      ensures View() == InterruptOn(old(View()), scripts) && !Any(Cells(), RunInterrupt)
    {
      hide ChangedAll, Changed, Any, CountFrom, Views, Promoted, DispatchOn, Valid;
      running := false;
      var i := MarkExpired();
      ghost var marked := View();
      GetNextRunningTo();
      PromotedMarks(marked);
      CountFewer(Cells(), marked.cells, RunInterrupt, 0);
      CallMarked(i, scripts);
    }

    /** The loop over the marked timers, which ends as soon as it has called as many as there were. */
    method CallMarked(count: U8, scripts: Scripts)
      requires Valid() && CountFrom(Cells(), RunInterrupt, 0) <= count
      modifies this`running, this`hal, this`called, timers
      ensures View() == DispatchOn(old(View()), 0, scripts) && !Any(Cells(), RunInterrupt)
    {
      hide ChangedAll, Changed, Any, CountFrom, Views, DispatchOn, Valid, CallOn;
      var i := count;
      ghost var d := View();
      for k := 0 to |timers|
        invariant Valid()
        invariant DispatchOn(View(), k, scripts) == DispatchOn(d, 0, scripts)
        invariant CountFrom(Cells(), RunInterrupt, k) <= i && NoneMarkedBelow(Cells(), k)
      {
        if i == 0 {
          NoneLeft(View(), k, scripts);
          return;
        }
        ghost var e := View();
        DispatchStep(e, k, scripts);
        var t := timers[k];
        assert t.View() == e.cells[k];
        if t.state == RunInterrupt {
          CallOne(t, scripts, k);
          MarksAfterCall(e, k, scripts);
          i := i - 1;
        }
      }
      NoneLeft(View(), |timers|, scripts);
    }

    /** One callback: the timer is inactive again before its handler acts. */
    method CallOne(t: Timer, scripts: Scripts, ghost k: nat)
      requires Valid() && k < |timers| && timers[k] == t
      modifies this`running, this`hal, this`called, timers
      ensures View() == CallOn(old(View()), k, scripts)
    {
      hide ActAllOn, Views;
      t.state := Inactive;
      OneChanged(k);
      called := called + [Invocation(t.id, t.slots)];
      PerformAll(Script(scripts, t.id));
    }

    // ---------------------------------------------------------------- runs

    /** One slot passes on the hardware timer, clients act at that instant, and a due interrupt is served at once. */
    method Elapse(acts: seq<Action>, scripts: Scripts)
      requires Valid() && !Any(Cells(), RunInterrupt)
      modifies this`running, this`hal, this`called, timers
      ensures View() == ElapseOn(old(View()), acts, scripts) && !Any(Cells(), RunInterrupt)
    {
      hide ActAllOn, InterruptOn, Any, Views, Valid;
      if running && hal > 0 {
        hal := hal - 1;
      }
      ghost var d := View();
      PerformAll(acts);
      NoMarksAfter(d, acts);
      if running && hal == 0 {
        InterruptHandler(scripts);
      }
    }

    /** The list and the hardware timer over any run of registrations, client calls and elapsed slots. */
    method Run(ops: seq<Op>)
      requires Valid() && !Any(Cells(), RunInterrupt)
      modifies this, timers
      ensures Valid() && View() == RunOn(old(View()), ops)
    {
      hide StepOn, Any, Views, Valid;
      if ops != [] {
        PerformOp(ops[0]);
        Run(ops[1..]);
      }
    }

    method PerformOp(op: Op)
      requires Valid() && !Any(Cells(), RunInterrupt)
      modifies this, timers
      ensures Valid() && !Any(Cells(), RunInterrupt)
      ensures forall k | 0 <= k < |timers| :: timers[k] in old(timers) || fresh(timers[k])
      ensures View() == StepOn(old(View()), op)
    {
      hide ActOn, ElapseOn, Drop, Views, Valid, Any, Ids, FreeId;
      ghost var d := View();
      match op {
        case Register =>
          NoMarksAfterOp(d, op);
          var r := Register(true, true);
        case Unregister(id) =>
          NoMarksAfterOp(d, op);
          var r := Unregister(id);
        case Do(a) =>
          NoMarksAfterOp(d, op);
          PerformAll([a]);
        case Elapse(acts, scripts) =>
          Elapse(acts, scripts);
      }
    }
  }

  lemma CountNext(cells: seq<Cell>, state: TimerState, k: nat)
    requires k < |cells|
    ensures CountFrom(cells, state, k) == CountFrom(cells, state, k + 1) + (if cells[k].state == state then 1 else 0)
  {
  }

  lemma CountNone(cells: seq<Cell>, state: TimerState)
    ensures CountFrom(cells, state, |cells|) == 0
  {
  }

  lemma {:induction false} MarkedCount(cells: seq<Cell>, k: nat)
    requires k <= |cells| && !Any(cells, RunInterrupt)
    ensures CountFrom(ChangedAll(cells, Mark), RunInterrupt, k) == CountFrom(cells, Active, k)
    decreases |cells| - k
  {
    hide ChangedAll;
    if k < |cells| {
      MarkedCount(cells, k + 1);
    }
  }

  ghost predicate NoneMarkedBelow(cells: seq<Cell>, k: nat) {
    forall j: nat | j < k && j < |cells| :: cells[j].state != RunInterrupt
  }

  /** Every timer marked in `b` is marked in `a`. */
  ghost predicate NoNewMarks(a: seq<Cell>, b: seq<Cell>) {
    |a| == |b| && forall j: nat | j < |a| && b[j].state == RunInterrupt :: a[j].state == RunInterrupt
  }

  lemma PromotedMarks(d: Deltas)
    ensures NoNewMarks(d.cells, Promoted(d).cells)
  {
    hide ChangedAll, LeastHeld;
  }

  lemma ActMarks(d: Deltas, a: Action)
    ensures NoNewMarks(d.cells, ActOn(d, a).cells)
  {
    hide ChangedAll, LeastHeld, Promoted;
    match a
    case Start(id, slots) =>
      PromotedMarks(d.(cells := ChangedAll(d.cells, Set(id, Hold, slots, slots))));
    case Stop(id) =>
      PromotedMarks(d.(cells := ChangedAll(ChangedAll(d.cells, Halt(id)), Hurry(d.hal))));
  }

  lemma {:induction false} ActAllMarks(d: Deltas, acts: seq<Action>)
    ensures NoNewMarks(d.cells, ActAllOn(d, acts).cells)
    decreases |acts|
  {
    hide ActOn;
    if acts != [] {
      ActMarks(d, acts[0]);
      ActAllMarks(ActOn(d, acts[0]), acts[1..]);
    }
  }

  lemma NoMarksAfter(d: Deltas, acts: seq<Action>)
    requires !Any(d.cells, RunInterrupt)
    ensures !Any(ActAllOn(d, acts).cells, RunInterrupt)
  {
    hide ActAllOn;
    ActAllMarks(d, acts);
  }

  lemma NoMarksAfterOp(d: Deltas, op: Op)
    requires !Any(d.cells, RunInterrupt) && !op.Elapse?
    ensures !Any(StepOn(d, op).cells, RunInterrupt)
    ensures op.Do? ==> StepOn(d, op) == ActAllOn(d, [op.action])
  {
    hide ActOn, Drop, Ids, FreeId;
    match op
    case Register =>
    case Unregister(id) =>
    case Do(a) =>
      NoMarksAfter(d, [a]);
      assert [a][1..] == [];
  }

  lemma DispatchStep(d: Deltas, k: nat, scripts: Scripts)
    requires k < |d.cells|
    ensures DispatchOn(d, k, scripts) ==
      DispatchOn(if d.cells[k].state == RunInterrupt then CallOn(d, k, scripts) else d, k + 1, scripts)
    ensures CountFrom(d.cells, RunInterrupt, k) == CountFrom(d.cells, RunInterrupt, k + 1) + (if d.cells[k].state == RunInterrupt then 1 else 0)
    ensures NoneMarkedBelow(d.cells, k) && d.cells[k].state != RunInterrupt ==> NoneMarkedBelow(d.cells, k + 1)
  {
    hide CallOn;
  }

  /** A callback may unmark timers still to be called, and marks none. */
  lemma MarksAfterCall(d: Deltas, k: nat, scripts: Scripts)
    requires k < |d.cells| && d.cells[k].state == RunInterrupt && NoneMarkedBelow(d.cells, k)
    ensures var e := CallOn(d, k, scripts);
      && |e.cells| == |d.cells| && NoneMarkedBelow(e.cells, k + 1)
      && CountFrom(e.cells, RunInterrupt, k + 1) <= CountFrom(d.cells, RunInterrupt, k + 1)
  {
    hide ActAllOn;
    var c := d.cells[k];
    var f := d.(cells := d.cells[k := c.(state := Inactive)], called := d.called + [Invocation(c.id, c.slots)]);
    ActAllMarks(f, Script(scripts, c.id));
    CountFewer(CallOn(d, k, scripts).cells, d.cells, RunInterrupt, k + 1);
  }

  lemma {:induction false} NoneLeft(d: Deltas, k: nat, scripts: Scripts)
    requires k <= |d.cells| && CountFrom(d.cells, RunInterrupt, k) == 0 && NoneMarkedBelow(d.cells, k)
    ensures DispatchOn(d, k, scripts) == d && !Any(d.cells, RunInterrupt)
    decreases |d.cells| - k
  {
    hide CallOn;
    if k < |d.cells| {
      NoneLeft(d, k + 1, scripts);
    }
  }

  lemma NotStoppable(cells: seq<Cell>, id: int)
    requires !HasId(cells, id)
    ensures !Stoppable(cells, id)
  {
  }

  lemma StoppableAt(c: CallbackTimers, k: nat)
    requires c.Valid() && k < |c.timers|
    ensures Stoppable(c.Cells(), c.timers[k].id) <==> c.timers[k].state != Inactive
  {
    assert c.Cells()[k] == c.timers[k].View();
  }

  /** The loop has made the change up to position `k`. */
  ghost predicate ChangedUpTo(before: seq<Cell>, cells: seq<Cell>, ch: Change, k: nat) {
    |cells| == |before| && forall j: nat | j < |cells| :: cells[j] == if j < k then Changed(before[j], ch) else before[j]
  }

  lemma AllChanged(before: seq<Cell>, cells: seq<Cell>, ch: Change)
    requires ChangedUpTo(before, cells, ch, |before|)
    ensures cells == ChangedAll(before, ch)
  {
    hide ChangedAll, Changed;
  }

  /** Ids being distinct, a change that names one id changes one cell. */
  lemma OnlyOne(cells: seq<Cell>, k: nat, ch: Change)
    requires k < |cells| && (ch.Set? || ch.Halt?) && ch.id == cells[k].id
    requires forall j: nat | j < |cells| && j != k :: cells[j].id != cells[k].id
    ensures cells[k := Changed(cells[k], ch)] == ChangedAll(cells, ch)
  {
    hide ChangedAll;
  }

  lemma SameBelow(a: seq<Cell>, b: seq<Cell>, k: nat, m: U16)
    requires |a| == |b| && forall j: nat | j < k && j < |a| :: a[j] == b[j]
    ensures NoneBelow(a, k, m) == NoneBelow(b, k, m) && NoneHeldBelow(a, k) == NoneHeldBelow(b, k)
  {
  }

  /** How many timers are in `state` from list position `k` on. */
  ghost function CountFrom(cells: seq<Cell>, state: TimerState, k: nat): (n: nat)
    requires k <= |cells|
    ensures n <= |cells| - k
    ensures n == 0 <==> forall j | k <= j < |cells| :: cells[j].state != state
    decreases |cells| - k
  {
    if k == |cells| then 0 else (if cells[k].state == state then 1 else 0) + CountFrom(cells, state, k + 1)
  }

  /** No timer on Hold before position `k` has a delta below `m`. */
  ghost predicate NoneBelow(cells: seq<Cell>, k: nat, m: U16) {
    forall j: nat | j < k && j < |cells| && cells[j].state == Hold :: m <= cells[j].remaining
  }

  ghost predicate NoneHeldBelow(cells: seq<Cell>, k: nat) {
    forall j: nat | j < k && j < |cells| :: cells[j].state != Hold
  }

  lemma Nothing(cells: seq<Cell>)
    ensures NoneHeldBelow(cells, 0)
  {
  }

  lemma OneMore(cells: seq<Cell>, k: nat, m: U16)
    requires k < |cells|
    ensures CountFrom(cells, Hold, k) == CountFrom(cells, Hold, k + 1) + (if cells[k].state == Hold then 1 else 0)
    ensures NoneHeldBelow(cells, k) && cells[k].state != Hold ==> NoneHeldBelow(cells, k + 1)
    ensures NoneHeldBelow(cells, k) && cells[k].state == Hold ==> NoneBelow(cells, k + 1, cells[k].remaining)
    ensures NoneBelow(cells, k, m) && (cells[k].state == Hold ==> m <= cells[k].remaining) ==> NoneBelow(cells, k + 1, m)
    ensures NoneBelow(cells, k, m) && cells[k].state == Hold && cells[k].remaining < m ==> NoneBelow(cells, k + 1, cells[k].remaining)
  {
  }

  lemma {:induction false} CountSame(a: seq<Cell>, b: seq<Cell>, state: TimerState, k: nat)
    requires k <= |a| == |b| && forall j | k <= j < |a| :: a[j] == b[j]
    ensures CountFrom(a, state, k) == CountFrom(b, state, k)
    decreases |a| - k
  {
    if k < |a| {
      CountSame(a, b, state, k + 1);
    }
  }

  lemma {:induction false} CountFewer(a: seq<Cell>, b: seq<Cell>, state: TimerState, k: nat)
    requires k <= |a| == |b| && forall j | k <= j < |a| && a[j].state == state :: b[j].state == state
    ensures CountFrom(a, state, k) <= CountFrom(b, state, k)
    decreases |a| - k
  {
    if k < |a| {
      CountFewer(a, b, state, k + 1);
    }
  }

  lemma CountStep(cells: seq<Cell>, state: TimerState, k: nat, c: Cell)
    requires k < |cells|
    ensures CountFrom(cells[k := c], state, k + 1) == CountFrom(cells, state, k) - (if cells[k].state == state then 1 else 0)
  {
    CountSame(cells[k := c], cells, state, k + 1);
  }

  lemma {:induction false} OneFewerHeld(before: seq<Cell>, k: nat, f: nat)
    requires k <= f < |before| && before[f].state == Hold
    ensures CountFrom(before[f := before[f].(state := Active)], Hold, k) == CountFrom(before, Hold, k) - 1
    decreases f - k
  {
    if k == f {
      CountSame(before[f := before[f].(state := Active)], before, Hold, k + 1);
    } else {
      OneFewerHeld(before, k + 1, f);
    }
  }

  lemma PromotedNone(d: Deltas)
    requires !Any(d.cells, Hold)
    ensures Promoted(d) == d
  {
  }

  lemma PromotedSome(d: Deltas, e: Deltas, m: U16)
    requires Any(d.cells, Hold) && LeastHeld(d.cells) == m && e.called == d.called
    requires e.cells == ChangedAll(d.cells, Later(m)) && e.running && e.hal == AtLeastOne(m)
    ensures e == Promoted(d)
  {
  }

  /** The loop may end at `k` when no timer from there on is on Hold. */
  lemma AllRebased(before: seq<Cell>, cells: seq<Cell>, k: nat, f: nat, m: U16)
    requires |cells| == |before| && k <= |cells| && CountFrom(cells, Hold, k) == 0
    requires forall j: nat | j < |cells| && (j < k || j == f) :: cells[j] == Changed(before[j], Later(m))
    requires forall j: nat | j < |cells| && k <= j && j != f :: cells[j] == before[j]
    ensures cells == ChangedAll(before, Later(m))
  {
    hide ChangedAll;
    forall j: nat | j < |cells| ensures cells[j] == Changed(before[j], Later(m)) {
      assert k <= j ==> cells[j].state != Hold;
    }
  }

  /** What has become Active already is what the change makes of it, and stays so. */
  lemma RebasedFirst(c: Cell, m: U16)
    requires c.state == Hold && c.remaining == m
    ensures Changed(c, Later(m)) == c.(state := Active) == Changed(c.(state := Active), Later(m))
  {
  }

  lemma NoneHeld(cells: seq<Cell>)
    requires NoneHeldBelow(cells, |cells|)
    ensures !Any(cells, Hold)
  {
  }

  lemma LeastHeldAt(cells: seq<Cell>, f: nat)
    requires f < |cells| && cells[f].state == Hold
    requires NoneBelow(cells, |cells|, cells[f].remaining)
    ensures Any(cells, Hold) && LeastHeld(cells) == cells[f].remaining
  {
  }

  /** The list without the first occurrence of `t`. */
  function RemoveFirst(ts: seq<Timer>, t: Timer): (r: seq<Timer>)
    requires t in ts
  {
    if ts[0] == t then ts[1..] else [ts[0]] + RemoveFirst(ts[1..], t)
  }

  lemma {:induction false} RemovedAt(ts: seq<Timer>, n: nat)
    requires n < |ts| && forall j, k | 0 <= j < k < |ts| :: ts[j].id != ts[k].id
    ensures RemoveFirst(ts, ts[n]) == ts[..n] + ts[n + 1..]
  {
    if n > 0 {
      assert ts[0] != ts[n];
      RemovedAt(ts[1..], n - 1);
    }
  }

  lemma {:induction false} DropAbsent(cells: seq<Cell>, id: int)
    requires !HasId(cells, id)
    ensures Drop(cells, id) == cells
  {
    if cells != [] {
      assert forall k | 0 <= k < |cells| - 1 :: cells[1..][k] == cells[k + 1];
      assert cells[0].id != id;
      DropAbsent(cells[1..], id);
    }
  }

  lemma {:induction false} DropAt(cells: seq<Cell>, n: nat)
    requires n < |cells| && forall j | 0 <= j < |cells| && j != n :: cells[j].id != cells[n].id
    ensures Drop(cells, cells[n].id) == cells[..n] + cells[n + 1..]
    decreases n, 1
  {
    hide Ids, Without, HasId;
    if n > 0 {
      DropLater(cells, n);
    } else {
      NotThere(cells, cells[n].id);
      DropAbsent(cells[1..], cells[n].id);
    }
  }

  lemma {:induction false} DropLater(cells: seq<Cell>, n: nat)
    requires 0 < n < |cells| && forall j | 0 <= j < |cells| && j != n :: cells[j].id != cells[n].id
    ensures Drop(cells, cells[n].id) == cells[..n] + cells[n + 1..]
    decreases n, 0
  {
    hide Ids, Without, HasId, Drop;
    var rest := cells[1..];
    DropCons(cells, cells[n].id);
    forall j | 0 <= j < |rest| && j != n - 1 ensures rest[j].id != rest[n - 1].id {
      assert rest[j] == cells[j + 1];
    }
    DropAt(rest, n - 1);
    assert cells[..n] == [cells[0]] + rest[..n - 1];
    assert cells[n + 1..] == rest[n..];
  }

  lemma DropCons(cells: seq<Cell>, id: int)
    requires cells != []
    ensures Drop(cells, id) == (if cells[0].id == id then [] else [cells[0]]) + Drop(cells[1..], id)
  {
  }

  lemma NotThere(cells: seq<Cell>, id: int)
    requires cells != [] && forall j | 0 < j < |cells| :: cells[j].id != id
    ensures !HasId(cells[1..], id)
  {
    assert forall j | 0 <= j < |cells| - 1 :: cells[1..][j] == cells[j + 1];
  }

  lemma RemovedValid(ts: seq<Timer>, t: Timer)
    requires t in ts && forall j, k | 0 <= j < k < |ts| :: ts[j].id != ts[k].id
    ensures var r := RemoveFirst(ts, t);
      && |r| < |ts| && (forall u | u in r :: u in ts)
      && (forall j, k | 0 <= j < k < |r| :: r[j].id != r[k].id)
      && Views(r) == Drop(Views(ts), t.id)
  {
    hide Drop, RemoveFirst, Views;
    var n: nat :| n < |ts| && ts[n] == t;
    RemovedAt(ts, n);
    RemovedViews(ts, n);
    CutDistinct(ts, n);
  }

  lemma CutDistinct(ts: seq<Timer>, n: nat)
    requires n < |ts| && forall j, k | 0 <= j < k < |ts| :: ts[j].id != ts[k].id
    ensures var r := ts[..n] + ts[n + 1..];
      (forall u | u in r :: u in ts) && forall j, k | 0 <= j < k < |r| :: r[j].id != r[k].id
  {
  }

  lemma RemovedViews(ts: seq<Timer>, n: nat)
    requires n < |ts| && forall j, k | 0 <= j < k < |ts| :: ts[j].id != ts[k].id
    ensures Views(ts[..n] + ts[n + 1..]) == Drop(Views(ts), ts[n].id)
  {
    hide Drop;
    DropAt(Views(ts), n);
  }

  lemma HasIdIsIn(cells: seq<Cell>, id: int)
    ensures HasId(cells, id) <==> id in Ids(cells)
  {
    if k :| 0 <= k < |cells| && cells[k].id == id {
      assert Ids(cells)[k] == id;
    }
    if id in Ids(cells) {
      var k :| 0 <= k < |Ids(cells)| && Ids(cells)[k] == id;
      assert cells[k].id == id;
    }
  }

  lemma ListFits(ids: seq<int>, id: int)
    requires Distinct(ids) && (forall i | i in ids :: 0 <= i < 128)
    requires 0 <= id < 128 && id !in ids
    ensures |ids| < 128
  {
    hide Below;
    DistinctFits(ids, Below(128) - {id});
  }

  ghost function Below(n: nat): (r: set<int>)
    ensures |r| == n && forall i :: i in r <==> 0 <= i < n
  {
    if n == 0 then {} else Below(n - 1) + {n - 1}
  }
}
