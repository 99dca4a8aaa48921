/** Option values, the C integer ranges the event loop uses, and lists without repetition. */
module Basics {
  datatype Option<+T> = None | Some(value: T)

  const TWO_16: int := 0x1_0000
  const TWO_32: int := 0x1_0000_0000
  const HALF_32: int := 0x8000_0000

  type U8 = n: int | 0 <= n < 0x100
  type U16 = n: int | 0 <= n < 0x1_0000
  type U32 = n: int | 0 <= n < 0x1_0000_0000
  type I8 = n: int | -0x80 <= n < 0x80
  type I32 = n: int | -0x8000_0000 <= n < 0x8000_0000

  /** No element occurs twice. */
  ghost predicate Distinct<T>(s: seq<T>) {
    forall i, j | 0 <= i < j < |s| :: s[i] != s[j]
  }

  /** Distinct elements of a finite set are no more numerous than the set. */
  lemma {:induction false} DistinctFits<T>(s: seq<T>, bound: set<T>)
    requires Distinct(s)
    requires forall x | x in s :: x in bound
    ensures |s| <= |bound|
  {
    if s != [] {
      DistinctFits(s[1..], bound - {s[0]});
    }
  }

  lemma AppendDistinct<T>(s: seq<T>, x: T)
    requires Distinct(s) && x !in s
    ensures Distinct(s + [x])
  {
  }

  /** A member of a set that is not empty. */
  lemma Pick<T>(s: set<T>) returns (x: T)
    requires s != {}
    ensures x in s
  {
    x :| x in s;
  }

  lemma NoKeys<K, V>(m: map<K, V>)
    requires forall k :: k !in m
    ensures m == map[]
  {
  }

  /** The lowest id from `i` on that is not taken, up to 128. */
  function FreeId(ids: seq<int>, i: nat): (id: nat)
    requires i <= 128
    ensures i <= id <= 128
    ensures id < 128 ==> id !in ids
    ensures forall j | i <= j < id :: j in ids
    decreases 128 - i
  {
    if i == 128 || i !in ids then i else FreeId(ids, i + 1)
  }

  /** The `n`-th beat of the given period from `base` on. */
  ghost function Beat(base: nat, period: nat, n: nat): (t: nat) {
    if n == 0 then base else Beat(base, period, n - 1) + period
  }

  lemma Product(a: nat, b: nat, c: nat)
    requires a <= b
    ensures c * a <= c * b
  {
  }

  lemma {:induction false} BeatIsProduct(base: nat, period: nat, n: nat)
    ensures Beat(base, period, n) == base + period * n
  {
    if n > 0 {
      BeatIsProduct(base, period, n - 1);
      assert period * n == period * (n - 1) + period;
    }
  }

  lemma Quotient(d: nat, period: nat, q: nat)
    requires period > 0 && period * q <= d < period * (q + 1)
    ensures d / period == q
  {
    var k := d / period;
    assert d == period * k + d % period;
    assert period * (k + 1) == period * k + period;
    if q < k {
      Product(q + 1, k, period);
    } else if k < q {
      Product(k + 1, q, period);
    }
  }

  /** Between its n-th and its next beat, n periods have gone by. */
  lemma {:induction false} BeatsSoFar(base: nat, period: nat, n: nat, now: nat)
    requires period > 0 && Beat(base, period, n) <= now < Beat(base, period, n + 1)
    ensures n == (now - base) / period
  {
    BeatIsProduct(base, period, n);
    BeatIsProduct(base, period, n + 1);
    Quotient(now - base, period, n);
  }
}
