/** What every reachable state of the event loop satisfies. */
module EventInvariants {
  import opened Basics
  import opened EventTypes
  import opened EventSpec

  // ---------------------------------------------------------------- who owns a storage

  ghost predicate Unlisted(st: State, n: Storage) {
    n !in st.pending && n !in st.timerFree && n !in st.queue && n !in st.eventFree
  }

  /**
   The tags of storage `n` say where it is: a startup event is free, queued or
   running; a timer struct is free or pending, queued or running; an event from
   the heap is queued or running; a client's own event may also be with the client.
   */
  ghost predicate Placed(st: State, n: Storage)
    requires n in st.recs
  {
    var r := st.recs[n];
    if n in st.pool then
      && r.allocator == StartupPool && n !in st.pending && n !in st.timerFree
      && (r.state == Unqueued <==> n in st.eventFree)
      && (r.state == Queued <==> n in st.queue)
      && (r.state == Running <==> st.running == Some(n))
    else if n in st.timers then
      && (r.allocator == Timer || (r.allocator == StartupPool && n in st.timerFree)) && n !in st.eventFree
      && (r.state == Unqueued <==> n in st.pending || n in st.timerFree)
      && !(n in st.pending && n in st.timerFree)
      && (r.state == Queued <==> n in st.queue)
      && (r.state == Running <==> st.running == Some(n))
    else
      && n !in st.pending && n !in st.timerFree && n !in st.eventFree
      && (n in st.queue ==> r.state == Queued)
      && (r.allocator == Dynamic || r.allocator == User)
      && (r.allocator == Dynamic ==>
            && (r.state == Queued <==> n in st.queue)
            && (r.state == Running <==> st.running == Some(n))
            && r.state != Unqueued)
  }

  ghost predicate Known(st: State, s: seq<Storage>) {
    forall n | n in s :: n in st.recs
  }

  ghost predicate Lists(st: State) {
    && Distinct(st.pending) && Distinct(st.timerFree) && Distinct(st.queue) && Distinct(st.eventFree)
    && Known(st, st.pending) && Known(st, st.timerFree) && Known(st, st.queue) && Known(st, st.eventFree)
    && (st.running.Some? ==> st.running.value in st.recs)
    && (forall n | n in st.pool :: n in st.recs && n !in st.timers)
    && (forall n | n in st.timers :: n in st.recs)
  }

  /** A storage between places: taken from one and not yet put in the next. */
  ghost predicate InHand(st: State, n: Storage) {
    && n in st.recs && Unlisted(st, n)
    && (st.recs[n].allocator != User ==> st.running != Some(n))
    && if n in st.pool then st.recs[n].allocator == StartupPool
       else if n in st.timers then st.recs[n].allocator == Timer
       else st.recs[n].allocator == Dynamic || st.recs[n].allocator == User
  }

  /** Every storage is in exactly one place, except the one in hand, if any. */
  ghost predicate Owned(st: State, hand: Option<Storage>) {
    && Lists(st)
    && (forall n | n in st.recs && Some(n) != hand :: Placed(st, n))
    && (hand.Some? ==> InHand(st, hand.value))
  }

  lemma {:induction false} InsertDistinct(s: seq<Storage>, k: nat, n: Storage)
    requires Distinct(s) && n !in s && k <= |s|
    ensures Distinct(InsertAt(s, k, n))
  {
    var r := InsertAt(s, k, n);
    forall i, j | 0 <= i < j < |r| ensures r[i] != r[j] {
    }
  }

  lemma {:induction false} MinusDistinct(s: seq<Storage>, n: Storage)
    requires Distinct(s)
    ensures Distinct(Minus(s, n))
  {
    if s != [] {
      assert forall i | 0 <= i < |s| - 1 :: s[1..][i] == s[i + 1];
      MinusDistinct(s[1..], n);
      assert s[0] !in s[1..];
    }
  }

  lemma TailDistinct(s: seq<Storage>)
    requires Distinct(s) && s != []
    ensures Distinct(s[1..]) && s[0] !in s[1..]
    ensures forall n :: n in s <==> n == s[0] || n in s[1..]
  {
    assert s == [s[0]] + s[1..];
  }

  lemma HeadDistinct(s: seq<Storage>, n: Storage)
    requires Distinct(s) && n !in s
    ensures Distinct([n] + s)
  {
  }

  lemma WriteOwned(st: State, n: Storage)
    requires Owned(st, Some(n))
    ensures Owned(Write(st, n), None)
  {
    InsertDistinct(st.queue, Slot(st.queue, st.recs, ByPriority, Key(st.recs, ByPriority, n), 0), n);
  }

  lemma ReviseOwned(st: State, n: Storage, r: Rec)
    requires Owned(st, Some(n)) && r.allocator == st.recs[n].allocator
    ensures Owned(Revised(st, n, r), Some(n))
  {
  }

  lemma AddPendingOwned(st: State, n: Storage)
    requires Owned(st, Some(n)) && n in st.timers && st.recs[n].state == Unqueued
    ensures Owned(AddPending(st, n), None)
  {
    var s := Revised(st, n, st.recs[n].(stamp := Some(st.stamps)));
    ReviseOwned(st, n, st.recs[n].(stamp := Some(st.stamps)));
    InsertDistinct(s.pending, Slot(s.pending, s.recs, ByDue, Key(s.recs, ByDue, n), 0), n);
  }

  /** An event is over, and its storage in hand: it is put where its allocator says. */
  lemma FreePushedOwned(st: State, n: Storage)
    requires Owned(st, Some(n))
    ensures Owned(FreePushed(st, n), None)
  {
    var r := st.recs[n];
    match r.allocator
    case StartupPool => HeadDistinct(st.eventFree, n);
    case Dynamic =>
    case Timer =>
      ReviseOwned(st, n, r.(state := Unqueued));
      TimerFreedOwned(Revised(st, n, r.(state := Unqueued)), n);
    case User =>
  }

  lemma TimerFreedOwned(st: State, n: Storage)
    requires Owned(st, Some(n)) && n in st.timers && st.recs[n].state == Unqueued
    ensures Owned(TimerEventFreed(st, n), None)
  {
    hide Write, AddPending;
    var r := st.recs[n];
    if r.period == 0 {
      HeadDistinct(st.timerFree, n);
    } else {
      var q := r.(due := r.due + r.period, runs := r.runs + 1, stamp := None);
      var s := Revised(st, n, q);
      ReviseOwned(st, n, q);
      if r.due + r.period <= st.clock {
        SendTimerOwned(s, n);
      } else {
        AddPendingOwned(s, n);
      }
    }
  }

  lemma SendTimerOwned(st: State, n: Storage)
    requires Owned(st, Some(n)) && n in st.timers
    ensures Owned(SendTimer(st, n), None)
  {
    hide Write;
    ReviseOwned(st, n, st.recs[n].(allocator := Timer));
    WriteOwned(Revised(st, n, st.recs[n].(allocator := Timer)), n);
  }

  /** The allocator hands out storages the event loop does not know. */
  ghost predicate New(st: State, spare: Option<Storage>) {
    spare.Some? ==> spare.value !in st.recs
  }

  lemma TakenEventOwned(st: State, spare: Option<Storage>)
    requires Owned(st, None) && New(st, spare) && NextEvent(st, spare).Some?
    ensures Owned(TakenEvent(st, spare), NextEvent(st, spare))
  {
    if st.eventFree != [] {
      TailDistinct(st.eventFree);
    }
  }

  lemma TakenTimerOwned(st: State, data: Event, due: int, period: U32, spare: Option<Storage>)
    requires Owned(st, None) && New(st, spare) && NextTimer(st, spare).Some?
    ensures Owned(TakenTimer(st, data, due, period, spare), NextTimer(st, spare))
  {
    if st.timerFree != [] {
      TailDistinct(st.timerFree);
    }
  }

  lemma PopPendingOwned(st: State)
    requires Owned(st, None) && st.pending != []
    ensures Owned(st.(pending := st.pending[1..]), Some(st.pending[0])) && st.pending[0] in st.timers
  {
    TailDistinct(st.pending);
  }

  lemma PendingTimers(st: State)
    requires Owned(st, None)
    ensures forall m | m in st.pending :: m in st.recs && st.recs[m].allocator == Timer
  {
    forall m | m in st.pending ensures m in st.recs && st.recs[m].allocator == Timer {
      assert Placed(st, m);
    }
  }

  lemma BegunOwned(st: State)
    requires Owned(st, None) && st.running.None?
    ensures Owned(Begun(st), None)
  {
    if st.queue != [] {
      TailDistinct(st.queue);
    }
  }

  lemma EndedOwned(st: State)
    requires Owned(st, None) && st.running.Some?
    ensures Owned(Ended(st), None)
  {
    var n := st.running.value;
    if st.recs[n].allocator != User {
      FreePushedOwned(st.(running := None), n);
    }
  }

  /** Removing a live event from the list it is in leaves its storage in hand. */
  lemma UnlinkedOwned(st: State, n: Storage, pending: seq<Storage>, queue: seq<Storage>)
    requires Owned(st, None) && n in st.recs && (n in st.pending || n in st.queue)
    requires pending == (if n in st.pending then Minus(st.pending, n) else st.pending)
    requires queue == (if n in st.queue then Minus(st.queue, n) else st.queue)
    ensures Owned(st.(pending := pending, queue := queue), Some(n))
  {
    hide Minus, Placed, InHand, Distinct;
    var t := st.(pending := pending, queue := queue);
    MinusDistinct(st.pending, n);
    MinusDistinct(st.queue, n);
    forall m | m in t.recs && m != n ensures Placed(t, m) {
      UnlinkedPlaced(st, t, m);
    }
    UnlinkedInHand(st, t, n);
  }

  /** Taking another storage off lists leaves this one where it is. */
  lemma UnlinkedPlaced(st: State, t: State, m: Storage)
    requires m in st.recs && Placed(st, m) && t == st.(pending := t.pending, queue := t.queue)
    requires (m in t.pending <==> m in st.pending) && (m in t.queue <==> m in st.queue)
    ensures Placed(t, m)
  {
  }

  lemma UnlinkedInHand(st: State, t: State, n: Storage)
    requires n in st.recs && Placed(st, n) && (n in st.pending || n in st.queue) && t == st.(pending := t.pending, queue := t.queue)
    requires n !in t.pending && n !in t.queue
    ensures InHand(t, n)
  {
  }

  /** A live event's tags. */
  lemma CancelledCases(st: State, n: Storage)
    requires Owned(st, None) && Live(st, n)
    ensures var r := st.recs[n];
      && (r.state == Queued <==> n in st.queue)
      && (r.state == Unqueued && r.allocator == Timer <==> n in st.pending)
      && (r.state != Running ==> n in st.pending || n in st.queue)
  {
  }

  lemma PeriodOwned(st: State, n: Storage)
    requires Owned(st, None) && n in st.recs
    ensures Owned(Revised(st, n, st.recs[n].(period := 0)), None)
  {
  }
}
