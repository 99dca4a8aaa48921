/** Tick counts in 32 bits: comparisons that survive wrap-around, and conversions to and from milliseconds. */
module Ticks {
  import opened Basics

  /** The low 32 bits of a count. */
  function Low32(x: int): U32 {
    x % TWO_32
  }

  /** A 32-bit value read as a signed one. */
  function Signed(n: U32): (s: I32)
    ensures Low32(s) == n
  {
    if n < HALF_32 then n else n - TWO_32
  }

  function Difference(a: U32, b: U32): I32 {
    Signed(Low32(a - b))
  }

  predicate TicksBefore(a: U32, b: U32) {
    Difference(a, b) < 0
  }

  predicate TicksBeforeOrAt(a: U32, b: U32) {
    Difference(a, b) <= 0
  }

  predicate TicksAfter(a: U32, b: U32) {
    Difference(a, b) > 0
  }

  predicate TicksAfterOrAt(a: U32, b: U32) {
    Difference(a, b) >= 0
  }

  /** Within half the range, the 32-bit difference is the true one. */
  lemma DifferenceIsTrue(x: int, y: int)
    ensures Difference(Low32(x), Low32(y)) == x - y <==> -HALF_32 <= x - y < HALF_32
  {
    var d := Low32(x) - Low32(y);
    assert Low32(d) == Low32(x - y) by {
      var i, j := x / TWO_32, y / TWO_32;
      assert x == TWO_32 * i + Low32(x) && y == TWO_32 * j + Low32(y);
      Shifted(d, i - j);
    }
  }

  lemma {:induction false} Shifted(d: int, k: int)
    ensures Low32(d + TWO_32 * k) == Low32(d)
  {
  }

  /** The comparisons agree with the counts they stand for, as long as these are less than half the range apart. */
  lemma ComparisonsAreTrue(x: int, y: int)
    requires -HALF_32 <= x - y < HALF_32
    ensures TicksBefore(Low32(x), Low32(y)) <==> x < y
    ensures TicksBeforeOrAt(Low32(x), Low32(y)) <==> x <= y
    ensures TicksAfter(Low32(x), Low32(y)) <==> x > y
    ensures TicksAfterOrAt(Low32(x), Low32(y)) <==> x >= y
  {
    DifferenceIsTrue(x, y);
  }

  /** A time up to 2^32 - 1 past is taken for one to come exactly when it is more than half the range past. */
  lemma PastMistakenForFuture(x: int, y: int)
    requires 0 <= y - x < TWO_32
    ensures TicksBeforeOrAt(Low32(x), Low32(y)) <==> y - x <= HALF_32
  {
    if y - x <= HALF_32 {
      DifferenceIsTrue(x, y);
    } else {
      DifferenceIsTrue(x + TWO_32, y);
      Shifted(x, 1);
    }
  }

  /** Wrap-around order is no order on all counts: it is not transitive. */
  lemma BeforeIsNotTransitive()
    ensures TicksBefore(0, 0x7000_0000) && TicksBefore(0x7000_0000, 0xE000_0000) && !TicksBefore(0, 0xE000_0000)
  {
  }

  /** Adding a delay to a tick count, both in 32 bits. */
  lemma SumIsTrue(x: int, d: int)
    ensures Low32(Low32(x) + d) == Low32(x + d) == Low32(Low32(x) + Low32(d))
  {
    assert x == TWO_32 * (x / TWO_32) + Low32(x);
    assert d == TWO_32 * (d / TWO_32) + Low32(d);
    Shifted(Low32(x) + d, x / TWO_32);
    Shifted(Low32(x) + Low32(d), x / TWO_32 + d / TWO_32);
  }

  /** Every 32-bit time is the low half of a count at most half the range away from any given one. */
  lemma NearestCount(x: int, at: U32)
    ensures Low32(x + Difference(at, Low32(x))) == at
  {
    SumIsTrue(x, Difference(at, Low32(x)));
    SumIsTrue(at - Low32(x), Low32(x));
  }

  /** The unsigned 32-bit difference is the true one when that is positive and fits. */
  lemma LowDifference(x: int, y: int)
    requires 0 <= x - y < TWO_32
    ensures Low32(Low32(x) - Low32(y)) == x - y
  {
    SumIsTrue(x - y, y);
    assert x - y == Low32(x) - Low32(y) + TWO_32 * (x / TWO_32 - y / TWO_32);
    Shifted(Low32(x) - Low32(y), x / TWO_32 - y / TWO_32);
  }

  function TicksToMs(ticks: U32): (ms: U32) {
    ticks * 10 % TWO_32
  }

  /** Milliseconds to ticks, rounding up; the rounding addition is in 32 bits. */
  function MsToTicks(ms: U32): (ticks: U32) {
    (ms + 10 - 1) % TWO_32 / 10
  }

  /** The result is the least number of ticks that covers the time, exactly when the addition does not wrap. */
  lemma MsToTicksRoundsUp(ms: U32)
    ensures MsToTicks(ms) < HALF_32
    ensures (MsToTicks(ms) * 10 >= ms && forall t: nat :: t * 10 >= ms ==> MsToTicks(ms) <= t) <==> ms <= 0xFFFF_FFF6
    ensures MsToTicks(ms) == 0 <==> ms == 0 || ms > 0xFFFF_FFF6
  {
    if ms > 0xFFFF_FFF6 {
      assert MsToTicks(ms) == 0;
    }
  }

  lemma MsWraps(ticks: U32)
    ensures Low32(TicksToMs(ticks)) == Low32(10 * ticks)
  {
  }

  /** Milliseconds are 0 only for 0 ticks, even where the multiplication wraps. */
  lemma MsIsZero(d: U32)
    requires 0 < d < HALF_32
    ensures TicksToMs(d) != 0
    ensures d * 10 < TWO_32 ==> TicksToMs(d) == d * 10 && TicksToMs(d) / 10 + 1 == d + 1
  {
    var q := d * 10 / TWO_32;
    assert d * 10 == q * TWO_32 + d * 10 % TWO_32;
    assert 0 <= q < 5;
  }
}
