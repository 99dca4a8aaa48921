/** Cancelling events, and cancelling timers by receiver and id. */
module CancelTheorems {
  import opened Basics
  import opened EventTypes
  import opened EventSpec
  import opened EventInvariants
  import opened EventOrder
  import opened EventRuns

  /** Storage `n` waits nowhere, and if its handler is running it will not be armed again. */
  ghost predicate Retired(st: State, n: Storage) {
    && n !in st.pending && n !in st.queue
    && (st.running == Some(n) && n in st.recs && st.recs[n].allocator == Timer ==> st.recs[n].period == 0)
  }

  /** The operation puts a new event into storage `n`. */
  ghost predicate SentAnew(st: State, op: Op, n: Storage) {
    match op
    case Send(_, spare) => NextEvent(st, spare) == Some(n)
    case Create(_, _, _, spare) => NextEvent(st, spare) == Some(n)
    case SendUser(m, _) => m == n
    case Request(_, _, _, spare) => NextTimer(st, spare) == Some(n)
    case _ => false
  }

  /** Nothing but `m` is added to the lists that lead to a handler, and other records keep allocator and period. */
  ghost predicate OnlyAdds(st: State, t: State, m: Storage) {
    && (forall n | n in t.pending :: n == m || n in st.pending || n in st.queue)
    && (forall n | n in t.queue :: n == m || n in st.pending || n in st.queue)
    && (forall n | n in t.recs && n != m :: n in st.recs && t.recs[n].allocator == st.recs[n].allocator && t.recs[n].period == st.recs[n].period)
    && t.running == st.running
  }

  lemma FreePushedAdds(st: State, m: Storage)
    requires m in st.recs
    ensures OnlyAdds(st, FreePushed(st, m), m)
    ensures m in FreePushed(st, m).recs ==> FreePushed(st, m).recs[m].allocator == st.recs[m].allocator
    ensures st.recs[m].allocator != Timer || st.recs[m].period == 0 ==>
      FreePushed(st, m).pending == st.pending && FreePushed(st, m).queue == st.queue
  {
    hide Slot;
  }

  lemma CancelRetires(st: State, n: Storage)
    requires Owned(st, None) && Live(st, n)
    ensures Retired(Cancelled(st, n), n)
    ensures Cancelled(st, n).running == st.running
  {
    hide FreePushed, Owned;
    CancelledCases(st, n);
    var r := st.recs[n];
    var s := if r.allocator == Timer then Revised(st, n, r.(period := 0)) else st;
    if r.state == Running {
      RunningAlone(st, n);
    } else {
      var t := s.(pending := if r.allocator == Timer && r.state == Unqueued then Minus(s.pending, n) else s.pending,
                  queue := if r.state == Queued then Minus(s.queue, n) else s.queue);
      FreePushedAdds(t, n);
      if r.allocator != User {
        OverRuns(st, n);
      }
    }
  }

  lemma RunningAlone(st: State, n: Storage)
    requires Owned(st, None) && n in st.recs && st.recs[n].state == Running
    ensures n !in st.queue && n !in st.pending
  {
    assert Placed(st, n);
  }

  lemma OverRuns(st: State, n: Storage)
    requires Owned(st, None) && n in st.recs && st.recs[n].allocator != User && (n in st.pending || n in st.queue)
    ensures st.running != Some(n)
  {
    assert Placed(st, n);
  }

  /** Cancelling leaves all other pending and queued events as they were, in the same order. */
  lemma CancelKeepsOthers(st: State, n: Storage)
    requires Owned(st, None) && Live(st, n)
    ensures Cancelled(st, n).pending == Minus(st.pending, n) && Cancelled(st, n).queue == Minus(st.queue, n)
    ensures forall m | m in st.recs && m != n :: m in Cancelled(st, n).recs && Cancelled(st, n).recs[m] == st.recs[m]
  {
    hide FreePushed, Owned, Minus;
    CancelledCases(st, n);
    MinusAbsent(st.pending, n);
    MinusAbsent(st.queue, n);
    var r := st.recs[n];
    var s := if r.allocator == Timer then Revised(st, n, r.(period := 0)) else st;
    if r.state == Running {
      RunningAlone(st, n);
    } else {
      var t := s.(pending := if r.allocator == Timer && r.state == Unqueued then Minus(s.pending, n) else s.pending,
                  queue := if r.state == Queued then Minus(s.queue, n) else s.queue);
      FreePushedAdds(t, n);
      FreePushedOthers(t, n);
    }
  }

  lemma FreePushedOthers(st: State, m: Storage)
    requires m in st.recs && (st.recs[m].allocator != Timer || st.recs[m].period == 0)
    ensures forall n | n in st.recs && n != m :: n in FreePushed(st, m).recs && FreePushed(st, m).recs[n] == st.recs[n]
  {
  }

  lemma {:induction false} MinusAbsent(s: seq<Storage>, n: Storage)
    ensures n !in s ==> Minus(s, n) == s
  {
    if s != [] {
      MinusAbsent(s[1..], n);
    }
  }

  /** A periodic event cancelled from its own handler finishes that run, and its struct is then free. */
  lemma SelfCancelFrees(st: State, n: Storage)
    requires Owned(st, None) && Live(st, n) && st.running == Some(n) && st.recs[n].allocator == Timer && st.recs[n].state == Running
    ensures Cancelled(st, n).running == Some(n)
    ensures Ended(Cancelled(st, n)).timerFree == [n] + st.timerFree && Ended(Cancelled(st, n)).running == None
  {
  }

  // ---------------------------------------------------------------- never entered again

  lemma {:induction false} ExpireAdds(st: State)
    requires forall m | m in st.pending :: m in st.recs && st.recs[m].allocator == Timer
    ensures forall n | n in Expire(st).pending :: n in st.pending || n in st.queue
    ensures forall n | n in Expire(st).queue :: n in st.pending || n in st.queue
    ensures forall n | n in Expire(st).recs ::
      n in st.recs && Expire(st).recs[n].allocator == st.recs[n].allocator && Expire(st).recs[n].period == st.recs[n].period
    ensures Expire(st).running == st.running
    decreases |st.pending|
  {
    hide Slot;
    if st.pending != [] && st.recs[st.pending[0]].due <= st.clock {
      ExpireAdds(SendTimer(st.(pending := st.pending[1..]), st.pending[0]));
    }
  }

  lemma CancelledAdds(st: State, m: Storage)
    requires Owned(st, None) && Live(st, m)
    ensures OnlyAdds(st, Cancelled(st, m), m)
  {
    hide Owned, Cancelled, Minus, FreePushed;
    CancelRetires(st, m);
    CancelKeepsOthers(st, m);
    CancelDomain(st, m);
    assert forall n | n in Minus(st.pending, m) :: n in st.pending;
    assert forall n | n in Minus(st.queue, m) :: n in st.queue;
  }

  lemma CancelDomain(st: State, m: Storage)
    requires m in st.recs
    ensures Cancelled(st, m).recs.Keys <= st.recs.Keys
  {
    hide Minus, Insert;
  }

  lemma EndedAdds(st: State, n: Storage)
    requires Owned(st, None) && Retired(st, n) && st.running.Some?
    ensures Retired(Ended(st), n)
  {
    hide FreePushed, Placed;
    var m, s := st.running.value, st.(running := None);
    FreePushedAdds(s, m);
  }

  /** What is retired stays so until something is sent in that storage again. */
  lemma StepKeepsRetired(st: State, op: Op, n: Storage)
    requires Owned(st, None) && Retired(st, n) && !SentAnew(st, op, n)
    ensures Retired(Step(st, op), n)
    ensures op == Begin ==> Step(st, op).running != Some(n) || Step(st, op) == st
  {
    hide Slot, Minus, FreePushed, Cancelled, Ended, Expire, TaskletIds, FreeId, CancelTarget, Placed, InHand;
    match op
    case TickUpdate(ticks) => PendingTimers(st); ExpireAdds(st.(clock := st.clock + ticks));
    case Cancel(m) => if Live(st, m) { CancelOther(st, m, n); }
    case CancelTimer(eventId, tasklet) =>
      var m := CancelTarget(st, eventId, tasklet);
      if m.Some? { CancelOther(st, m.value, n); }
    case End => if st.running.Some? { EndedAdds(st, n); }
    case _ =>
  }

  lemma CancelOther(st: State, m: Storage, n: Storage)
    requires Owned(st, None) && Live(st, m) && Retired(st, n)
    ensures Retired(Cancelled(st, m), n)
  {
    hide Owned, Cancelled;
    CancelRetires(st, m);
    CancelledAdds(st, m);
  }

  /** How often the run enters the handler of the event in storage `n`. */
  ghost function Entries(st: State, ops: seq<Op>, n: Storage): (k: nat)
    requires Inv(st)
    decreases |ops|
  {
    if ops == [] then 0
    else
      StepInv(st, ops[0]);
      (if ops[0] == Begin && Allowed(st, Begin) && st.queue != [] && st.queue[0] == n then 1 else 0)
      + Entries(Step(st, ops[0]), ops[1..], n)
  }

  ghost predicate NotSentAnew(st: State, ops: seq<Op>, n: Storage)
    requires Inv(st)
    decreases |ops|
  {
    ops == [] || (
      StepInv(st, ops[0]);
      !SentAnew(st, ops[0], n) && NotSentAnew(Step(st, ops[0]), ops[1..], n))
  }

  lemma {:induction false} RetiredNeverEntered(st: State, ops: seq<Op>, n: Storage)
    requires Inv(st) && Retired(st, n) && NotSentAnew(st, ops, n)
    ensures Entries(st, ops, n) == 0 && Retired(Run(st, ops), n)
    decreases |ops|
  {
    hide Step, Owned, Contents, Ordered, TaskletsOk, SentAnew;
    if ops != [] {
      StepInv(st, ops[0]);
      StepKeepsRetired(st, ops[0], n);
      RetiredNeverEntered(Step(st, ops[0]), ops[1..], n);
    }
  }

  /** After cancelling a live event its handler is not entered again until something is sent in its storage anew. */
  lemma CancelledNeverEntered(st: State, n: Storage, ops: seq<Op>)
    requires Inv(st) && Live(st, n) && NotSentAnew(st, [Cancel(n)] + ops, n)
    ensures Entries(st, [Cancel(n)] + ops, n) == 0
  {
    hide Cancelled, Owned, Contents, Ordered, TaskletsOk, SentAnew;
    var run := [Cancel(n)] + ops;
    assert run[0] == Cancel(n) && run[1..] == ops;
    StepInv(st, Cancel(n));
    assert Step(st, Cancel(n)) == Cancelled(st, n);
    CancelRetires(st, n);
    RetiredNeverEntered(Cancelled(st, n), ops, n);
  }

  // ---------------------------------------------------------------- cancelling by receiver and id

  /** The value returned: 0 if something was cancelled, -1 otherwise. */
  ghost function CancelResult(st: State, eventId: U8, tasklet: I8): int {
    if CancelTarget(st, eventId, tasklet).Some? then 0 else -1
  }

  lemma {:induction false} FirstMatchFinds(s: seq<Storage>, recs: map<Storage, Rec>, eventId: U8, tasklet: int)
    ensures var m := FirstMatch(s, recs, eventId, tasklet);
      if m.None? then forall k | 0 <= k < |s| :: !Matches(recs, s[k], eventId, tasklet)
      else exists k | 0 <= k < |s| :: s[k] == m.value && Matches(recs, s[k], eventId, tasklet)
             && forall j | 0 <= j < k :: !Matches(recs, s[j], eventId, tasklet)
  {
    if s != [] {
      if Matches(recs, s[0], eventId, tasklet) {
        assert s[0] == FirstMatch(s, recs, eventId, tasklet).value;
      } else {
        FirstMatchFinds(s[1..], recs, eventId, tasklet);
        forall k | 0 < k < |s| ensures s[1..][k - 1] == s[k] { }
      }
    }
  }

  /** Some event of the list matches. */
  ghost predicate AnyMatch(s: seq<Storage>, recs: map<Storage, Rec>, eventId: U8, tasklet: int) {
    exists k | 0 <= k < |s| :: Matches(recs, s[k], eventId, tasklet)
  }

  /** The event at index `k` is the first of the list that matches. */
  ghost predicate FirstAt(s: seq<Storage>, recs: map<Storage, Rec>, eventId: U8, tasklet: int, k: int) {
    0 <= k < |s| && Matches(recs, s[k], eventId, tasklet) && forall j | 0 <= j < k :: !Matches(recs, s[j], eventId, tasklet)
  }

  /** Cancelling takes the event at index `k` of the pending list. */
  ghost predicate TakesPending(st: State, eventId: U8, tasklet: I8, k: int) {
    && FirstAt(st.pending, st.recs, eventId, tasklet, k)
    && TimerCancelled(st, eventId, tasklet) == Cancelled(st, st.pending[k])
  }

  /** No pending timer matches, and cancelling takes the event at index `k` of the queue, which is a timer's. */
  ghost predicate TakesQueued(st: State, eventId: U8, tasklet: I8, k: int) {
    && !AnyMatch(st.pending, st.recs, eventId, tasklet)
    && FirstAt(st.queue, st.recs, eventId, tasklet % 0x100, k) && st.recs[st.queue[k]].allocator == Timer
    && TimerCancelled(st, eventId, tasklet) == Cancelled(st, st.queue[k])
  }

  lemma FirstAtIs(s: seq<Storage>, recs: map<Storage, Rec>, eventId: U8, tasklet: int)
    ensures var m := FirstMatch(s, recs, eventId, tasklet);
      if m.None? then !AnyMatch(s, recs, eventId, tasklet)
      else exists k :: FirstAt(s, recs, eventId, tasklet, k) && s[k] == m.value
    ensures forall j, k | FirstAt(s, recs, eventId, tasklet, j) && FirstAt(s, recs, eventId, tasklet, k) :: j == k
  {
    hide FirstMatch, Matches;
    FirstMatchFinds(s, recs, eventId, tasklet);
    var m := FirstMatch(s, recs, eventId, tasklet);
    if m.Some? {
      var k :| 0 <= k < |s| && s[k] == m.value && Matches(recs, s[k], eventId, tasklet)
               && forall j | 0 <= j < k :: !Matches(recs, s[j], eventId, tasklet);
      assert FirstAt(s, recs, eventId, tasklet, k);
    }
  }

  /** Cancelling by id takes the first pending match, or failing any the first queued match if that is a timer's, or nothing. */
  lemma CancelTakesFirst(st: State, eventId: U8, tasklet: I8)
    requires Inv(st)
    ensures CancelResult(st, eventId, tasklet) == 0 <==>
      || (exists k :: FirstAt(st.pending, st.recs, eventId, tasklet, k))
      || (exists k :: FirstAt(st.queue, st.recs, eventId, tasklet % 0x100, k) && st.recs[st.queue[k]].allocator == Timer)
    ensures CancelResult(st, eventId, tasklet) == 0 ==>
      (exists k :: TakesPending(st, eventId, tasklet, k)) || (exists k :: TakesQueued(st, eventId, tasklet, k))
    ensures AnyMatch(st.pending, st.recs, eventId, tasklet) ==> exists k :: TakesPending(st, eventId, tasklet, k)
    ensures CancelResult(st, eventId, tasklet) != 0 ==> CancelResult(st, eventId, tasklet) == -1 && TimerCancelled(st, eventId, tasklet) == st
  {
    hide Inv, FirstMatch, Cancelled, Matches, FirstAt, AnyMatch;
    FirstAtIs(st.pending, st.recs, eventId, tasklet);
    FirstAtIs(st.queue, st.recs, eventId, tasklet % 0x100);
    FirstsMatch(st, eventId, tasklet);
    var p, q := FirstMatch(st.pending, st.recs, eventId, tasklet), FirstMatch(st.queue, st.recs, eventId, tasklet % 0x100);
    if p.Some? {
      var k :| FirstAt(st.pending, st.recs, eventId, tasklet, k) && st.pending[k] == p.value;
      assert TakesPending(st, eventId, tasklet, k);
    } else if q.Some? {
      var k :| FirstAt(st.queue, st.recs, eventId, tasklet % 0x100, k) && st.queue[k] == q.value;
      if st.recs[q.value].allocator == Timer {
        assert TakesQueued(st, eventId, tasklet, k);
      }
    }
  }

  lemma FirstsMatch(st: State, eventId: U8, tasklet: I8)
    ensures forall k | FirstAt(st.pending, st.recs, eventId, tasklet, k) :: AnyMatch(st.pending, st.recs, eventId, tasklet)
    ensures forall k | FirstAt(st.queue, st.recs, eventId, tasklet % 0x100, k) ::
      0 <= k < |st.queue| && st.queue[k] in st.recs && AnyMatch(st.queue, st.recs, eventId, tasklet % 0x100)
    ensures forall k | FirstAt(st.pending, st.recs, eventId, tasklet, k) :: 0 <= k < |st.pending| && st.pending[k] in st.recs
  {
  }

  /**
   Cancelling by id succeeds exactly when a pending timer matches or the first match in the queue is a timer's. It then
   removes exactly one event: the pending match at the least index, which is one with the earliest deadline, or else the
   queued match at the least index. Otherwise nothing changes.
   */
  lemma CancelByIdResult(st: State, eventId: U8, tasklet: I8)
    requires Inv(st)
    ensures CancelResult(st, eventId, tasklet) == 0 <==>
      || AnyMatch(st.pending, st.recs, eventId, tasklet)
      || (exists k :: FirstAt(st.queue, st.recs, eventId, tasklet % 0x100, k) && st.recs[st.queue[k]].allocator == Timer)
    ensures CancelResult(st, eventId, tasklet) == 0 ==>
      (exists k :: TakesPending(st, eventId, tasklet, k)) || (exists k :: TakesQueued(st, eventId, tasklet, k))
    ensures CancelResult(st, eventId, tasklet) != 0 ==> TimerCancelled(st, eventId, tasklet) == st
    ensures forall k | TakesPending(st, eventId, tasklet, k) ::
      && Gone(st, TimerCancelled(st, eventId, tasklet), st.pending[k])
      && forall n | n in st.pending && Matches(st.recs, n, eventId, tasklet) :: st.recs[st.pending[k]].due <= st.recs[n].due
    ensures forall k | TakesQueued(st, eventId, tasklet, k) :: Gone(st, TimerCancelled(st, eventId, tasklet), st.queue[k])
    ensures AnyMatch(st.pending, st.recs, eventId, tasklet) ==> exists k :: TakesPending(st, eventId, tasklet, k)
  {
    hide Minus, Cancelled, Inv, TimerCancelled, Matches, Gone, CancelResult, FirstAt, AnyMatch;
    CancelTakesFirst(st, eventId, tasklet);
    FirstsMatch(st, eventId, tasklet);
    MatchesFirst(st, eventId, tasklet);
    forall k | TakesPending(st, eventId, tasklet, k)
      ensures Gone(st, TimerCancelled(st, eventId, tasklet), st.pending[k])
      ensures forall n | n in st.pending && Matches(st.recs, n, eventId, tasklet) :: n in st.recs && st.recs[st.pending[k]].due <= st.recs[n].due
    {
      OneGone(st, st.pending[k]);
      FirstIsEarliest(st, eventId, tasklet, k);
    }
    forall k | TakesQueued(st, eventId, tasklet, k) ensures Gone(st, TimerCancelled(st, eventId, tasklet), st.queue[k]) {
      OneGone(st, st.queue[k]);
    }
  }

  lemma MatchesFirst(st: State, eventId: U8, tasklet: I8)
    ensures AnyMatch(st.pending, st.recs, eventId, tasklet) <==> exists k :: FirstAt(st.pending, st.recs, eventId, tasklet, k)
  {
    hide FirstMatch;
    FirstAtIs(st.pending, st.recs, eventId, tasklet);
    FirstsMatch(st, eventId, tasklet);
    FirstMatchFinds(st.pending, st.recs, eventId, tasklet);
  }

  /** From `st` to `t` exactly one event has gone: that in storage `n`. */
  ghost predicate Gone(st: State, t: State, n: Storage) {
    && Live(st, n) && t.pending == Minus(st.pending, n) && t.queue == Minus(st.queue, n)
    && |t.pending| + |t.queue| == |st.pending| + |st.queue| - 1
  }

  lemma OneGone(st: State, n: Storage)
    requires Inv(st) && (n in st.pending || n in st.queue) && n in st.recs
    ensures Gone(st, Cancelled(st, n), n)
  {
    hide Minus, Cancelled, Contents, Ordered, TaskletsOk, Placed;
    CancelKeepsOthers(st, n);
    OneFewer(st, n);
  }

  /** The list is by deadline, so the first match has the earliest. */
  lemma FirstIsEarliest(st: State, eventId: U8, tasklet: I8, k: int)
    requires Inv(st) && FirstAt(st.pending, st.recs, eventId, tasklet, k)
    ensures forall n | n in st.pending && Matches(st.recs, n, eventId, tasklet) :: n in st.recs && st.recs[st.pending[k]].due <= st.recs[n].due
  {
    hide Owned, Contents, TaskletsOk, Line, InOrder;
    forall n | n in st.pending && Matches(st.recs, n, eventId, tasklet) ensures n in st.recs && st.recs[st.pending[k]].due <= st.recs[n].due {
      var i :| 0 <= i < |st.pending| && st.pending[i] == n;
      assert k < i ==> Less(TagOf(st.recs, st.pending[k]), TagOf(st.recs, n));
    }
  }

  lemma OneFewer(st: State, n: Storage)
    requires Owned(st, None) && n in st.recs && (n in st.pending || n in st.queue)
    ensures |Minus(st.pending, n)| + |Minus(st.queue, n)| == |st.pending| + |st.queue| - 1
  {
    hide Minus;
    MinusSize(st.pending, n);
    MinusSize(st.queue, n);
    assert Placed(st, n);
  }

  lemma {:induction false} MinusSize(s: seq<Storage>, n: Storage)
    requires Distinct(s)
    ensures |Minus(s, n)| == |s| - (if n in s then 1 else 0)
  {
    if s != [] {
      TailDistinct(s);
      MinusSize(s[1..], n);
    }
  }

  /**
   The documentation promises that a timed event is found by receiver and id. A timer
   already queued is missed exactly when no pending timer matches and some other
   client's event with the same receiver and id is ahead of it in the queue.
   */
  lemma QueuedTimerMissed(st: State, n: Storage, eventId: U8, tasklet: I8)
    requires Inv(st) && 0 <= tasklet && n in st.queue && st.recs[n].allocator == Timer && Matches(st.recs, n, eventId, tasklet)
    ensures CancelResult(st, eventId, tasklet) == -1 <==>
      && !AnyMatch(st.pending, st.recs, eventId, tasklet)
      && exists k | 0 <= k < |st.queue| ::
           && Matches(st.recs, st.queue[k], eventId, tasklet) && st.recs[st.queue[k]].allocator != Timer
           && forall j | 0 <= j < k :: !Matches(st.recs, st.queue[j], eventId, tasklet)
  {
    hide Owned, Contents, Ordered, TaskletsOk, FirstMatch;
    FirstMatchFinds(st.pending, st.recs, eventId, tasklet);
    FirstMatchFinds(st.queue, st.recs, eventId, tasklet);
    var i :| 0 <= i < |st.queue| && st.queue[i] == n;
  }
}
