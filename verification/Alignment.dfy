/** Rounding addresses to multiples and sizes to powers of two. */
module Alignment {
  import opened Prelude

  function AlignUp(a: nat, n: nat): (r: nat)
    requires n > 0
    ensures r % n == 0 && a <= r < a + n
  {
    if a % n == 0 then a else AlignedNext(a, n); a + (n - a % n)
  }

  lemma AlignedNext(a: nat, n: nat)
    requires n > 0
    ensures (a + (n - a % n)) % n == 0
  {
    var q := a / n;
    assert a + (n - a % n) == n * (q + 1);
    Multiple(n, q + 1);
  }

  function AlignDown(a: nat, n: nat): (r: nat)
    requires n > 0
    ensures r % n == 0 && a - n < r <= a
  {
    assert a - a % n == n * (a / n);
    Multiple(n, a / n);
    a - a % n
  }

  lemma HighestMultiple(x: nat, a: nat, n: nat)
    requires n > 0 && x % n == 0 && x <= a
    ensures x <= AlignDown(a, n)
  {
    var q := a / n;
    assert AlignDown(a, n) == n * q;
    assert x == n * (x / n);
    if x / n > q { MulOrder(n, q + 1, x / n); }
    MulOrder(n, x / n, q);
  }

  predicate PowerOfTwo(n: nat) { n == 1 || (n > 1 && n % 2 == 0 && PowerOfTwo(n / 2)) }

  /** x doubled until it is at least a. */
  function Doubled(x: nat, a: nat): (r: nat)
    requires x > 0
    ensures r >= a && r >= x && (r == x || r < 2 * a)
    decreases a - x
  {
    if x >= a then x else Doubled(2 * x, a)
  }

  lemma {:induction false} DoubledIsPower(x: nat, a: nat)
    requires PowerOfTwo(x)
    ensures PowerOfTwo(Doubled(x, a))
    decreases a - x
  {
    if x < a {
      assert (2 * x) % 2 == 0 && (2 * x) / 2 == x;
      DoubledIsPower(2 * x, a);
    }
  }

  lemma {:induction false} PowersApart(p: nat, q: nat)
    requires PowerOfTwo(p) && PowerOfTwo(q) && p < q
    ensures 2 * p <= q
  {
    if p > 1 { PowersApart(p / 2, q / 2); }
  }

  /** The least power of two that is at least a. */
  lemma DoubledIsLeast(a: nat, p: nat)
    requires a > 0 && PowerOfTwo(p) && a <= p
    ensures PowerOfTwo(Doubled(1, a)) && a <= Doubled(1, a) <= p
  {
    DoubledIsPower(1, a);
    if p < Doubled(1, a) { PowersApart(p, Doubled(1, a)); }
  }
}
