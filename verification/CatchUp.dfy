/**
 Re-arming a periodic timer in 32 bits. All that the program sees of the next
 time is its low half, and takes it for the nearest time with that low half:
 the true one, as long as the timer is at most half the range behind.
 */
module CatchUp {
  import opened Basics
  import opened Ticks
  import opened EventTypes
  import opened EventSpec
  import opened EventInvariants
  import opened EventOrder
  import opened EventRuns
  import opened IdleTheorems

  /** Of all times with the same low 32 bits as `x`, the one nearest to `now`. */
  function NearestTo(now: int, x: int): (y: int) {
    now + Difference(Low32(x), Low32(now))
  }

  lemma NearestSame(now: int, x: int, period: int)
    ensures Low32(NearestTo(now, x)) == Low32(x) && Low32(NearestTo(now, x) - period) == Low32(x - period)
    ensures -HALF_32 <= NearestTo(now, x) - now < HALF_32
    ensures NearestTo(now, x) == x <==> -HALF_32 <= x - now < HALF_32
  {
    hide Low32;
    NearestCount(now, Low32(x));
    DifferenceIsTrue(x, now);
    SumIsTrue(NearestTo(now, x), -period);
    SumIsTrue(x, -period);
  }

  /** The state as the program sees it when the event of timer `n` is over. */
  ghost function Nearest(st: State, n: Storage): (t: State)
    requires n in st.recs
    ensures n in t.recs
  {
    var r := st.recs[n];
    if r.allocator == Timer && r.period > 0
    then Revised(st, n, r.(due := NearestTo(st.clock, r.due + r.period) - r.period))
    else st
  }

  /** A periodic timer's next time is no more than half the range ago. */
  ghost predicate InTime(st: State, n: Storage)
    requires n in st.recs
  {
    st.recs[n].allocator == Timer && st.recs[n].period > 0 ==> st.clock - (st.recs[n].due + st.recs[n].period) <= HALF_32
  }

  /** The program sees the true state exactly when the timer is in time. */
  lemma NearestIsTrue(st: State, n: Storage)
    requires Inv(st) && st.running == Some(n) && n in st.recs
    ensures Nearest(st, n) == st <==> InTime(st, n)
  {
    hide Owned, Ordered, TaskletIds, NearestTo, Beat;
    assert Fired(st, n);
    var r := st.recs[n];
    if r.allocator == Timer && r.period > 0 {
      NearestSame(st.clock, r.due + r.period, r.period);
      if Nearest(st, n) == st {
        assert Nearest(st, n).recs[n].due == r.due;
      }
    }
  }

  /** What a return does to the running periodic timer: it is queued when its next time has come as the program sees it. */
  lemma EndedPlace(st: State, n: Storage)
    requires Inv(st) && st.running == Some(n) && n in st.recs && st.recs[n].allocator == Timer && st.recs[n].period > 0
    ensures var t, next := Ended(Nearest(st, n)), NearestTo(st.clock, st.recs[n].due + st.recs[n].period);
      && n in t.recs && t.recs[n].due == next
      && (n in t.queue <==> next <= st.clock) && (n in t.pending <==> next > st.clock)
  {
    hide Ordered, Contents, TaskletsOk, Slot, NearestTo;
    assert Placed(st, n);
  }

  /**
   A handler's return does what it does in unbounded time exactly when its periodic timer is at most 2^31 ticks
   behind. Further behind, up to 2^32 ticks, the timer waits for a time that is long past.
   */
  lemma ReturnsInTimeIff(st: State, n: Storage)
    requires Inv(st) && st.running == Some(n) && n in st.recs
    ensures Ended(Nearest(st, n)) == Ended(st) <==> InTime(st, n)
    ensures var r := st.recs[n]; var late := st.clock - (r.due + r.period);
      r.allocator == Timer && r.period > 0 && 0 <= late < TWO_32 ==>
        && (n in Ended(Nearest(st, n)).queue <==> late <= HALF_32)
        && (n in Ended(Nearest(st, n)).pending <==> late > HALF_32)
  {
    hide Inv, Ended, Nearest, NearestTo;
    NearestIsTrue(st, n);
    var r := st.recs[n];
    if r.allocator == Timer && r.period > 0 {
      EndedPlace(st, n);
      TrueDue(st, n);
      NearestSame(st.clock, r.due + r.period, r.period);
      if 0 <= st.clock - (r.due + r.period) < TWO_32 {
        Mistaken(st.clock, r.due + r.period);
      }
    }
  }

  lemma TrueDue(st: State, n: Storage)
    requires Inv(st) && st.running == Some(n) && n in st.recs && st.recs[n].allocator == Timer && st.recs[n].period > 0
    ensures n in Ended(st).recs && Ended(st).recs[n].due == st.recs[n].due + st.recs[n].period
  {
    hide Inv, Insert;
  }

  lemma Mistaken(now: int, x: int)
    requires 0 <= now - x < TWO_32
    ensures NearestTo(now, x) <= now <==> now - x <= HALF_32
  {
    hide Low32;
    PastMistakenForFuture(x, now);
  }

  // ---------------------------------------------------------------- while the loop runs until idle

  /** Queued periodic timers, and the running one, are at most half the range behind. */
  ghost predicate CatchingUp(st: State) {
    && (forall n | n in st.queue && n in st.recs :: InTime(st, n))
    && (st.running.Some? && st.running.value in st.recs ==> InTime(st, st.running.value))
  }

  lemma BegunCatchesUp(st: State)
    requires Idle(st) && CatchingUp(st) && st.queue != []
    ensures CatchingUp(Begun(st))
  {
    hide Inv, Begun;
    QueueAfter(st);
  }

  /** A handler that sends nothing brings no timer further behind. */
  lemma NoMoreCatchesUp(st: State, t: State)
    requires NoMore(st, t) && CatchingUp(st)
    ensures CatchingUp(t)
  {
    hide Debt;
  }

  /** Nor does its return: a timer queued again is one period less behind. */
  lemma EndedCatchesUp(st: State)
    requires Inv(st) && st.running.Some? && st.running.value in st.recs && CatchingUp(st)
    ensures CatchingUp(Ended(st))
  {
    hide Inv, Slot;
  }
}
