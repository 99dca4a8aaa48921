/** Timing, priority and delivery order in every reachable state of the event loop. */
module EventOrder {
  import opened Basics
  import opened EventTypes
  import opened EventSpec
  import opened EventInvariants

  /** How far ahead a launch time may lie for 32-bit ticks to tell it from the past. */
  const HORIZON: int := HALF_32 - 1

  // ---------------------------------------------------------------- what is in the lists

  /** A periodic timer is due one period after the last run completed, counted from its request. */
  ghost predicate OnBeat(r: Rec) {
    r.period > 0 ==> r.period < HALF_32 && r.due == Beat(r.base, r.period, r.runs + 1)
  }

  /** A pending timer is due after `since`, within the horizon; a periodic one within its period. */
  ghost predicate Waiting(st: State, n: Storage, since: nat) {
    && n in st.recs
    && var r := st.recs[n];
       && since < r.due <= since + HORIZON && OnBeat(r) && (r.period > 0 ==> r.due - r.period <= st.clock)
       && Registered(st, r.data.receiver) && r.stamp.Some? && r.stamp.value < st.stamps
  }

  /** A queued or running event has a receiver; if it is a timer's, its time has come. */
  ghost predicate Fired(st: State, n: Storage) {
    && n in st.recs
    && var r := st.recs[n];
       && Registered(st, r.data.receiver)
       && (r.allocator == Timer ==> r.due <= st.clock && OnBeat(r))
       && (r.stamp.Some? ==> r.allocator == Timer)
  }

  ghost predicate Contents(st: State, since: nat) {
    && since <= st.clock
    && (forall n | n in st.pending :: Waiting(st, n, since))
    && (forall n | n in st.queue :: Fired(st, n))
    && (st.running.Some? ==> Fired(st, st.running.value))
    && (forall n | n in st.eventFree :: n in st.recs && st.recs[n].stamp.None?)
  }

  ghost predicate TaskletsOk(tasklets: seq<Tasklet>) {
    && Distinct(TaskletIds(tasklets))
    && (forall i | i in TaskletIds(tasklets) :: 0 <= i < 128)
    && (forall j, k | 0 <= j < k < |tasklets| :: tasklets[j].handler != tasklets[k].handler)
  }

  // ---------------------------------------------------------------- in which order

  ghost predicate Sorted(s: seq<Storage>, recs: map<Storage, Rec>, o: Order) {
    forall i, j | 0 <= i < j < |s| :: Key(recs, o, s[i]) <= Key(recs, o, s[j])
  }

  function TagOf(recs: map<Storage, Rec>, n: Storage): Tag {
    if n in recs then Tag(recs[n].data.priority, recs[n].due, recs[n].stamp) else Tag(Low, 0, None)
  }

  /** Earlier deadline, or the same deadline and inserted earlier; both having waited in the pending list. */
  predicate Less(a: Tag, b: Tag) {
    a.stamp.Some? && b.stamp.Some? && (a.due < b.due || (a.due == b.due && a.stamp.value < b.stamp.value))
  }

  ghost predicate PendingOrdered(s: seq<Storage>, recs: map<Storage, Rec>) {
    forall i, j | 0 <= i < j < |s| :: Less(TagOf(recs, s[i]), TagOf(recs, s[j]))
  }

  function Tags(s: seq<Storage>, recs: map<Storage, Rec>): (t: seq<Tag>)
    ensures |t| == |s| && forall k | 0 <= k < |s| :: t[k] == TagOf(recs, s[k])
  {
    if s == [] then [] else [TagOf(recs, s[0])] + Tags(s[1..], recs)
  }

  /** What has been delivered, followed by what is queued. */
  ghost function Line(st: State): (l: seq<Tag>) {
    st.delivered + Tags(st.queue, st.recs)
  }

  /** Among timers of one priority, by deadline and then by insertion into the pending list. */
  ghost predicate InOrder(l: seq<Tag>) {
    forall i, j | 0 <= i < j < |l| :: Tidy(l[i], l[j])
  }

  ghost predicate Tidy(a: Tag, b: Tag) {
    a.priority == b.priority && a.stamp.Some? && b.stamp.Some? ==> Less(a, b)
  }

  ghost predicate Precedes(st: State, t: Tag) {
    t.stamp.Some? ==> t.due <= st.clock && forall n | n in st.pending :: Less(t, TagOf(st.recs, n))
  }

  ghost predicate Ordered(st: State) {
    && Sorted(st.queue, st.recs, ByPriority)
    && PendingOrdered(st.pending, st.recs)
    && InOrder(Line(st))
    && (forall t | t in Line(st) :: Precedes(st, t))
  }

  // ---------------------------------------------------------------- primitive steps

  /** The records of these storages are the same. */
  ghost predicate SameRecs(s: seq<Storage>, r1: map<Storage, Rec>, r2: map<Storage, Rec>) {
    forall n | n in s :: n in r1 && n in r2 && r1[n] == r2[n]
  }

  /** Changing the record of a storage that is in no list matters to no list. */
  lemma ReviseOrdered(st: State, n: Storage, r: Rec)
    requires Ordered(st) && Known(st, st.pending) && Known(st, st.queue) && n !in st.pending && n !in st.queue
    ensures Ordered(Revised(st, n, r)) && Line(Revised(st, n, r)) == Line(st)
  {
    hide Tags;
    var t := Revised(st, n, r);
    assert Tags(t.queue, t.recs) == Tags(st.queue, st.recs);
    forall x | x in Line(t) ensures Precedes(t, x) {
      assert Precedes(st, x);
    }
  }

  lemma ReviseContents(st: State, n: Storage, r: Rec, since: nat)
    requires Contents(st, since) && Unlisted(st, n)
    requires st.running == Some(n) ==> Fired(Revised(st, n, r), n)
    ensures Contents(Revised(st, n, r), since)
  {
    hide TaskletIds;
    var t := Revised(st, n, r);
    forall m | m in t.pending ensures Waiting(t, m, since) {
      assert Waiting(st, m, since);
    }
    forall m | m in t.queue ensures Fired(t, m) {
      assert Fired(st, m);
    }
  }

  lemma InsertSorted(s: seq<Storage>, recs: map<Storage, Rec>, o: Order, n: Storage)
    requires Sorted(s, recs, o)
    ensures Sorted(Insert(s, recs, o, n), recs, o)
  {
    hide Key, Slot;
    var k := Slot(s, recs, o, Key(recs, o, n), 0);
    var r := InsertAt(s, k, n);
    forall j | k <= j < |s| ensures Key(recs, o, n) < Key(recs, o, s[j]) {
      assert j > k ==> Key(recs, o, s[k]) <= Key(recs, o, s[j]);
    }
    forall i, j | 0 <= i < j < |r| ensures Key(recs, o, r[i]) <= Key(recs, o, r[j]) {
      if i != k && j != k {
        assert r[i] == s[if i < k then i else i - 1] && r[j] == s[if j < k then j else j - 1];
      }
    }
  }

  /** Everything that may come before `n`: of its priority, only what is less. */
  ghost predicate Newest(st: State, n: Storage) {
    forall x | x in Line(st) :: Tidy(x, TagOf(st.recs, n))
  }

  lemma WriteContents(st: State, n: Storage, since: nat)
    requires Contents(st, since) && Fired(st, n) && Unlisted(st, n)
    ensures Contents(Write(st, n), since)
  {
    hide TaskletIds, Slot;
    var t := Write(st, n);
    forall m | m in t.pending ensures Waiting(t, m, since) {
      assert Waiting(st, m, since);
    }
    forall m | m in t.queue ensures Fired(t, m) {
      assert m == n || Fired(st, m);
    }
  }

  lemma WriteOrdered(st: State, n: Storage)
    requires Ordered(st) && Known(st, st.pending) && Known(st, st.queue) && n in st.recs && n !in st.pending && n !in st.queue
    requires Newest(st, n) && Precedes(st, TagOf(st.recs, n))
    ensures Ordered(Write(st, n))
  {
    hide Tags, Slot;
    var t := Write(st, n);
    var k := Slot(st.queue, st.recs, ByPriority, Key(st.recs, ByPriority, n), 0);
    InsertSorted(st.queue, st.recs, ByPriority, n);
    WriteLine(st, n);
    WriteInOrder(st, n);
    forall x | x in Line(t) ensures Precedes(t, x) {
      assert x in Line(st) || x == TagOf(st.recs, n);
      assert Precedes(st, x);
    }
  }

  lemma InsertTags(s: seq<Storage>, k: nat, n: Storage, r1: map<Storage, Rec>, r2: map<Storage, Rec>)
    requires k <= |s| && TagOf(r2, n) == TagOf(r1, n) && forall m | m in s :: TagOf(r2, m) == TagOf(r1, m)
    ensures Tags(InsertAt(s, k, n), r2) == Tags(s, r1)[..k] + [TagOf(r1, n)] + Tags(s, r1)[k..]
  {
    hide Tags, TagOf;
    var a, r := Tags(s, r1), InsertAt(s, k, n);
    forall j | 0 <= j < |r| ensures Tags(r, r2)[j] == (a[..k] + [TagOf(r1, n)] + a[k..])[j] {
      assert r[j] == if j < k then s[j] else if j == k then n else s[j - 1];
    }
  }

  /** Queueing `n` puts its tag into the line, at some position in the queue part. */
  lemma WriteLine(st: State, n: Storage)
    requires Known(st, st.queue) && n in st.recs && n !in st.queue
    ensures var k := |st.delivered| + Slot(st.queue, st.recs, ByPriority, Key(st.recs, ByPriority, n), 0);
      k <= |Line(st)| && Line(Write(st, n)) == Line(st)[..k] + [TagOf(st.recs, n)] + Line(st)[k..]
  {
    hide Tags, Slot, Key, InsertAt;
    var t := Write(st, n);
    var k := Slot(st.queue, st.recs, ByPriority, Key(st.recs, ByPriority, n), 0);
    InsertTags(st.queue, k, n, st.recs, t.recs);
  }

  lemma WriteInOrder(st: State, n: Storage)
    requires Ordered(st) && Known(st, st.queue) && n in st.recs && n !in st.queue && Newest(st, n)
    ensures InOrder(Line(Write(st, n)))
  {
    hide Tags, Slot, Tidy;
    WriteLine(st, n);
    var x, s := TagOf(st.recs, n), Slot(st.queue, st.recs, ByPriority, Key(st.recs, ByPriority, n), 0);
    var k := |st.delivered| + s;
    LaterRank(st, n);
    InsertInOrder(Line(st), k, x);
  }

  /** Behind the place `n` takes in the queue there is nothing of its priority. */
  lemma LaterRank(st: State, n: Storage)
    requires Sorted(st.queue, st.recs, ByPriority) && Known(st, st.queue) && n in st.recs
    ensures var k := |st.delivered| + Slot(st.queue, st.recs, ByPriority, Key(st.recs, ByPriority, n), 0);
      forall j | k <= j < |Line(st)| :: Tidy(TagOf(st.recs, n), Line(st)[j])
  {
    hide Tags, Slot, Less;
    var s := Slot(st.queue, st.recs, ByPriority, Key(st.recs, ByPriority, n), 0);
    var d := |st.delivered|;
    forall j | d + s <= j < |Line(st)| ensures Tidy(TagOf(st.recs, n), Line(st)[j]) {
      assert Line(st)[j] == TagOf(st.recs, st.queue[j - d]);
      assert Key(st.recs, ByPriority, st.queue[s]) <= Key(st.recs, ByPriority, st.queue[j - d]);
    }
  }

  lemma InsertInOrder(l: seq<Tag>, k: nat, x: Tag)
    requires InOrder(l) && k <= |l|
    requires forall t | t in l :: Tidy(t, x)
    requires forall j | k <= j < |l| :: Tidy(x, l[j])
    ensures InOrder(l[..k] + [x] + l[k..])
  {
    hide Tidy;
    var m := l[..k] + [x] + l[k..];
    forall i, j | 0 <= i < j < |m| ensures Tidy(m[i], m[j]) {
      if j == k {
        assert m[i] == l[i] && l[i] in l;
      } else if i != k {
        assert Tidy(l[if i < k then i else i - 1], l[if j < k then j else j - 1]);
      }
    }
  }

  /** A timer in hand may join the pending list: it is due later, and within the horizon. */
  ghost predicate Upcoming(st: State, n: Storage) {
    && n in st.recs && Unlisted(st, n) && st.running != Some(n)
    && var r := st.recs[n];
       && st.clock < r.due <= st.clock + HORIZON && OnBeat(r) && (r.period > 0 ==> r.due - r.period <= st.clock)
       && Registered(st, r.data.receiver)
  }

  lemma AddPendingContents(st: State, n: Storage)
    requires Contents(st, st.clock) && Upcoming(st, n)
    ensures Contents(AddPending(st, n), st.clock)
  {
    hide TaskletIds, Slot;
    var t := AddPending(st, n);
    forall m | m in t.pending ensures Waiting(t, m, st.clock) {
      assert m == n || Waiting(st, m, st.clock);
    }
    forall m | m in t.queue ensures Fired(t, m) {
      assert Fired(st, m);
    }
  }

  lemma AddPendingOrdered(st: State, n: Storage)
    requires Contents(st, st.clock) && Ordered(st) && Upcoming(st, n)
    requires Known(st, st.pending) && Known(st, st.queue)
    ensures Ordered(AddPending(st, n))
  {
    hide Tags, Slot, Insert, TaskletIds;
    var s := Revised(st, n, st.recs[n].(stamp := Some(st.stamps)));
    ReviseOrdered(st, n, st.recs[n].(stamp := Some(st.stamps)));
    var t := AddPending(st, n);
    InsertPending(s, n, st.stamps);
    assert Line(t) == Line(s);
    forall x | x in Line(t) ensures Precedes(t, x) {
      assert Precedes(st, x);
      forall m | m in t.pending && x.stamp.Some? ensures Less(x, TagOf(t.recs, m)) {
        if m != n {
          assert Less(x, TagOf(st.recs, m));
        }
      }
    }
  }

  lemma InsertPending(st: State, n: Storage, stamp: nat)
    requires PendingOrdered(st.pending, st.recs) && n in st.recs && st.recs[n].stamp == Some(stamp)
    requires forall m | m in st.pending :: m in st.recs && st.recs[m].stamp.Some? && st.recs[m].stamp.value < stamp
    ensures PendingOrdered(Insert(st.pending, st.recs, ByDue, n), st.recs)
    ensures forall m :: m in Insert(st.pending, st.recs, ByDue, n) <==> m == n || m in st.pending
  {
    hide Slot;
    var s, k := st.pending, Slot(st.pending, st.recs, ByDue, Key(st.recs, ByDue, n), 0);
    var r := InsertAt(s, k, n);
    forall j | 0 <= j < |s| ensures if j < k then Less(TagOf(st.recs, s[j]), TagOf(st.recs, n)) else Less(TagOf(st.recs, n), TagOf(st.recs, s[j])) {
      assert s[j] in s;
      assert j < k ==> Key(st.recs, ByDue, s[j]) <= st.recs[n].due;
      assert j >= k ==> st.recs[n].due < Key(st.recs, ByDue, s[k]);
      assert j > k ==> Less(TagOf(st.recs, s[k]), TagOf(st.recs, s[j]));
    }
    forall i, j | 0 <= i < j < |r| ensures Less(TagOf(st.recs, r[i]), TagOf(st.recs, r[j])) {
      if i != k && j != k {
        assert r[i] == s[if i < k then i else i - 1] && r[j] == s[if j < k then j else j - 1];
      }
    }
  }

  // ---------------------------------------------------------------- taking events out of lists

  /** `r` is `s` with some elements left out. */
  ghost predicate Thinned<T>(s: seq<T>, r: seq<T>, pos: seq<nat>) {
    && |pos| == |r|
    && (forall i | 0 <= i < |pos| :: pos[i] < |s| && r[i] == s[pos[i]])
    && (forall i, j | 0 <= i < j < |pos| :: pos[i] < pos[j])
  }

  lemma {:induction false} MinusThins(s: seq<Storage>, n: Storage) returns (pos: seq<nat>)
    ensures Thinned(s, Minus(s, n), pos)
  {
    if s == [] {
      pos := [];
    } else {
      var p := MinusThins(s[1..], n);
      pos := ThinsLater(s, Minus(s[1..], n), p, s[0] == n);
    }
  }

  lemma ThinsLater(s: seq<Storage>, r: seq<Storage>, p: seq<nat>, drop: bool) returns (pos: seq<nat>)
    requires s != [] && Thinned(s[1..], r, p)
    ensures Thinned(s, (if drop then [] else [s[0]]) + r, pos)
  {
    var q: seq<nat> := seq(|p|, i requires 0 <= i < |p| => p[i] + 1);
    pos := if drop then q else [0] + q;
    forall i | 0 <= i < |r| ensures r[i] == s[q[i]] && 0 < q[i] < |s| {
      assert r[i] == s[1..][p[i]];
    }
  }

  lemma ThinnedOrders(st: State, pending: seq<Storage>, queue: seq<Storage>, p: seq<nat>, q: seq<nat>)
    requires Ordered(st) && Thinned(st.pending, pending, p) && Thinned(st.queue, queue, q)
    ensures Ordered(st.(pending := pending, queue := queue))
  {
    hide Key;
    var t := st.(pending := pending, queue := queue);
    ThinnedLine(st, queue, q);
    forall i, j | 0 <= i < j < |queue| ensures Key(t.recs, ByPriority, queue[i]) <= Key(t.recs, ByPriority, queue[j]) {
      assert Key(st.recs, ByPriority, st.queue[q[i]]) <= Key(st.recs, ByPriority, st.queue[q[j]]);
    }
    forall i, j | 0 <= i < j < |pending| ensures Less(TagOf(t.recs, pending[i]), TagOf(t.recs, pending[j])) {
      assert Less(TagOf(st.recs, st.pending[p[i]]), TagOf(st.recs, st.pending[p[j]]));
    }
    forall x | x in Line(t) ensures Precedes(t, x) {
      assert Precedes(st, x);
      forall m | m in pending && x.stamp.Some? ensures Less(x, TagOf(t.recs, m)) {
        assert m in st.pending;
      }
    }
  }

  lemma ThinnedLine(st: State, queue: seq<Storage>, q: seq<nat>)
    requires InOrder(Line(st)) && Thinned(st.queue, queue, q)
    ensures InOrder(Line(st.(queue := queue)))
    ensures forall x | x in Line(st.(queue := queue)) :: x in Line(st)
  {
    hide Tags;
    var l, m, d := Line(st), Line(st.(queue := queue)), |st.delivered|;
    forall i | 0 <= i < |m| ensures m[i] == l[if i < d then i else d + q[i - d]] {
    }
    forall i, j | 0 <= i < j < |m| ensures Tidy(m[i], m[j]) {
      assert Tidy(l[if i < d then i else d + q[i - d]], l[if j < d then j else d + q[j - d]]);
    }
  }

  lemma UnlinkedOrdered(st: State, n: Storage, pending: seq<Storage>, queue: seq<Storage>)
    requires Ordered(st)
    requires pending == Minus(st.pending, n) || pending == st.pending
    requires queue == Minus(st.queue, n) || queue == st.queue
    ensures Ordered(st.(pending := pending, queue := queue))
  {
    hide Ordered, Minus;
    var p := MinusThins(st.pending, n);
    var q := MinusThins(st.queue, n);
    if pending == st.pending { p := seq(|pending|, i requires 0 <= i < |pending| => i); }
    if queue == st.queue { q := seq(|queue|, i requires 0 <= i < |queue| => i); }
    ThinnedOrders(st, pending, queue, p, q);
  }

  lemma FewerContents(st: State, pending: seq<Storage>, queue: seq<Storage>, since: nat)
    requires Contents(st, since)
    requires forall n | n in pending :: n in st.pending
    requires forall n | n in queue :: n in st.queue
    ensures Contents(st.(pending := pending, queue := queue), since)
  {
    hide TaskletIds;
    var t := st.(pending := pending, queue := queue);
    forall n | n in pending ensures Waiting(t, n, since) {
      assert Waiting(st, n, since);
    }
    forall n | n in queue ensures Fired(t, n) {
      assert Fired(st, n);
    }
  }

  lemma PopPendingOrdered(st: State)
    requires Ordered(st) && st.pending != []
    ensures Ordered(st.(pending := st.pending[1..]))
  {
    hide Ordered;
    var p: seq<nat> := seq(|st.pending| - 1, i requires 0 <= i < |st.pending| - 1 => i + 1);
    var q: seq<nat> := seq(|st.queue|, i requires 0 <= i < |st.queue| => i);
    ThinnedOrders(st, st.pending[1..], st.queue, p, q);
  }
}
