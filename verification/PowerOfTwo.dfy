/** Rounding up to a power of two: the bit smear of the boot allocator and the doubling loop of the pool. */
module PowerOfTwo {

  /** is_pow2: at most one bit set, and not zero. */
  predicate IsPow2(a: bv64) { a != 0 && a & (a - 1) == 0 }

  /** round_up_pow2. */
  function RoundUpPow2(a: bv64): bv64 {
    if a <= 1 then 1 else Smear(a - 1) + 1
  }

  predicate HalfBelow(r: bv64, a: bv64) { r >> 1 < a }

  predicate HalfUpTo(r: bv64, y: bv64) { r >> 1 <= y }

  predicate AtMost(a: bv64, b: bv64) { a <= b }

  /** Every bit below the highest set bit. */
  function Smear(y: bv64): bv64 {
    var y1 := y | (y >> 1);
    var y2 := y1 | (y1 >> 2);
    var y3 := y2 | (y2 >> 4);
    var y4 := y3 | (y3 >> 8);
    var y5 := y4 | (y4 >> 16);
    y5 | (y5 >> 32)
  }

  /** r is the least power of two that is at least a. */
  ghost predicate LeastPow2(r: bv64, a: bv64) {
    IsPow2(r) && AtMost(a, r) && forall p: bv64 :: IsPow2(p) && AtMost(a, p) ==> AtMost(r, p)
  }

  lemma SmearOnes(y: bv64)
    ensures Smear(y) & (Smear(y) + 1) == 0
  {
  }

  lemma SmearBelow(y: bv64)
    requires y < 0x8000_0000_0000_0000
    ensures Smear(y) < 0x8000_0000_0000_0000
  {
  }

  lemma OnesPlusOne(s: bv64)
    requires s & (s + 1) == 0 && s < 0x8000_0000_0000_0000
    ensures IsPow2(s + 1)
  {
  }

  lemma RoundIsPow2(a: bv64)
    requires 1 < a <= 0x8000_0000_0000_0000
    ensures IsPow2(Smear(a - 1) + 1)
  {
    SmearOnes(a - 1);
    SmearBelow(a - 1);
    hide Smear;
    OnesPlusOne(Smear(a - 1));
  }

  lemma RoundAbove(a: bv64)
    requires 1 < a <= 0x8000_0000_0000_0000
    ensures AtMost(a, Smear(a - 1) + 1)
  {
  }

  lemma SmearHalf(a: bv64)
    requires 1 < a <= 0x8000_0000_0000_0000
    ensures HalfUpTo(Smear(a - 1) + 1, a - 1)
  {
  }

  lemma StrictHalf(r: bv64, a: bv64)
    requires 1 < a && HalfUpTo(r, a - 1)
    ensures HalfBelow(r, a)
  {
  }

  lemma RoundHalf(a: bv64)
    requires 1 < a <= 0x8000_0000_0000_0000
    ensures HalfBelow(Smear(a - 1) + 1, a)
  {
    hide *;
    SmearHalf(a);
    StrictHalf(Smear(a - 1) + 1, a);
  }

  /** A power of two whose half is below a is not above any power of two from a on. */
  lemma HalfBelowAll(r: bv64, a: bv64, p: bv64)
    requires IsPow2(r) && IsPow2(p) && AtMost(a, p) && HalfBelow(r, a)
    ensures AtMost(r, p)
  {
  }

  lemma HalfIsLeast(r: bv64, a: bv64)
    requires IsPow2(r) && AtMost(a, r) && HalfBelow(r, a)
    ensures LeastPow2(r, a)
  {
    hide IsPow2, HalfBelow, AtMost;
    forall p: bv64 | IsPow2(p) && AtMost(a, p) ensures AtMost(r, p) { HalfBelowAll(r, a, p); }
  }

  lemma OneIsLeast(a: bv64)
    requires a <= 1
    ensures LeastPow2(1, a)
  {
  }

  /** Up to 2^63, round_up_pow2 gives the least power of two that is at least its argument. */
  lemma RoundIsLeast(a: bv64)
    requires a <= 0x8000_0000_0000_0000
    ensures LeastPow2(RoundUpPow2(a), a)
  {
    hide Smear, LeastPow2, IsPow2, HalfBelow, AtMost;
    if a <= 1 {
      OneIsLeast(a);
    } else {
      RoundIsPow2(a);
      RoundAbove(a);
      RoundHalf(a);
      HalfIsLeast(Smear(a - 1) + 1, a);
    }
  }

  /** Above 2^63 there is no such power, and the smear wraps to zero. */
  lemma RoundWraps(a: bv64)
    requires a > 0x8000_0000_0000_0000
    ensures RoundUpPow2(a) == 0
  {
  }

  // ---- The doubling loop ----

  lemma HalfIsUnique(r: bv64, s: bv64, a: bv64)
    requires IsPow2(r) && IsPow2(s) && AtMost(a, r) && AtMost(a, s) && HalfBelow(r, a) && HalfBelow(s, a)
    ensures r == s
  {
  }

  lemma Doubled(x: bv64, a: bv64)
    requires IsPow2(x) && !AtMost(a, x) && a <= 0x8000_0000_0000_0000
    ensures IsPow2(x << 1) && HalfBelow(x << 1, a) && 0xFFFF_FFFF_FFFF_FFFF - (x << 1) < 0xFFFF_FFFF_FFFF_FFFF - x
  {
  }

  /** clamp_align: at least the alignment of a pointer, and a power of two found by doubling. */
  method ClampAlign(a: bv64) returns (r: bv64)
    requires a <= 0x8000_0000_0000_0000
    ensures r == if a < 8 then 8 else RoundUpPow2(a)
  {
    if a < 8 { return 8; }
    RoundFacts(a);
    hide Smear, IsPow2, HalfBelow, AtMost;
    if IsPow2(a) {
      ItsOwn(a);
      HalfIsUnique(a, Smear(a - 1) + 1, a);
      return a;
    }
    var x: bv64 := 1;
    OneBelow(a);
    while !AtMost(a, x)
      invariant IsPow2(x) && (AtMost(a, x) ==> HalfBelow(x, a))
      decreases 0xFFFF_FFFF_FFFF_FFFF - x
    {
      Doubled(x, a);
      x := x << 1;
    }
    HalfIsUnique(x, Smear(a - 1) + 1, a);
    return x;
  }

  lemma RoundFacts(a: bv64)
    requires 8 <= a <= 0x8000_0000_0000_0000
    ensures RoundUpPow2(a) == Smear(a - 1) + 1 && IsPow2(Smear(a - 1) + 1) && AtMost(a, Smear(a - 1) + 1) && HalfBelow(Smear(a - 1) + 1, a)
  {
    hide Smear, IsPow2, HalfBelow, AtMost;
    RoundIsPow2(a);
    RoundAbove(a);
    RoundHalf(a);
  }

  lemma ItsOwn(a: bv64)
    requires a >= 8
    ensures AtMost(a, a) && HalfBelow(a, a)
  {
  }

  lemma OneBelow(a: bv64)
    requires a >= 8
    ensures IsPow2(1) && !AtMost(a, 1)
  {
  }
}
