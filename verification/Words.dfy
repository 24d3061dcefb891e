/** The number a 64-bit word stands for, and what the word operations of the allocators do to it. */
module Words {
  import opened Prelude
  import opened Alignment
  import Bits = PowerOfTwo

  const WORD: nat := 0x1_0000_0000_0000_0000
  const HALF: nat := 0x8000_0000_0000_0000

  predicate Odd(w: bv64) { w & 1 == 1 }

  function Half(w: bv64): bv64 { w >> 1 }

  function Twice(w: bv64): bv64 { w << 1 }

  function Join(h: bv64, odd: bool): bv64 { (h << 1) | (if odd then 1 else 0) }

  predicate AboveOne(w: bv64) { w > 1 }

  /** The binary value of a word; `Counts` pins it down: 0 is zero and adding one is adding one. */
  function Value(w: bv64): (n: nat)
    ensures n == 0 ==> w == 0
    decreases w
  {
    if w == 0 then 0 else 2 * Value(w >> 1) + if Odd(w) then 1 else 0
  }

  lemma Unfold(w: bv64)
    ensures Value(w) == 2 * Value(Half(w)) + if Odd(w) then 1 else 0
  {
  }

  // ---- Order and range ----

  lemma Joined(x: bv64)
    ensures x == Join(Half(x), Odd(x))
  {
  }

  /** Different words stand for different numbers. */
  lemma {:induction false} Injective(x: bv64, y: bv64)
    requires Value(x) == Value(y)
    ensures x == y
    decreases Value(x)
  {
    Unfold(x);
    Unfold(y);
    hide Value, Half, Odd, Join;
    if Value(x) > 0 {
      Injective(Half(x), Half(y));
      Joined(x);
      Joined(y);
    }
  }

  lemma HalvesInOrder(x: bv64, y: bv64)
    requires Bits.AtMost(x, y)
    ensures Bits.AtMost(Half(x), Half(y))
  {
  }

  lemma OddInOrder(x: bv64, y: bv64)
    requires Bits.AtMost(x, y) && Half(x) == Half(y) && Odd(x)
    ensures Odd(y)
  {
  }

  lemma {:induction false} Rises(x: bv64, y: bv64)
    requires Bits.AtMost(x, y)
    ensures Value(x) <= Value(y)
    decreases Value(x)
  {
    Unfold(x);
    Unfold(y);
    HalvesInOrder(x, y);
    if Odd(x) && Half(x) == Half(y) { OddInOrder(x, y); }
    hide Value, Half, Odd, Bits.AtMost;
    if Value(x) > 0 {
      Rises(Half(x), Half(y));
      if Value(Half(x)) == Value(Half(y)) { Injective(Half(x), Half(y)); }
    }
  }

  lemma Either(x: bv64, y: bv64)
    requires !Bits.AtMost(x, y)
    ensures Bits.AtMost(y, x) && x != y
  {
  }

  /** Words compare as their numbers do. */
  lemma Compares(x: bv64, y: bv64)
    ensures Bits.AtMost(x, y) <==> Value(x) <= Value(y)
  {
    if !Bits.AtMost(x, y) { Either(x, y); }
    hide Value, Bits.AtMost;
    if Bits.AtMost(x, y) {
      Rises(x, y);
    } else {
      Rises(y, x);
      if Value(x) <= Value(y) { Injective(x, y); }
    }
  }

  lemma TwiceHalves(x: bv64)
    requires x < 0x8000_0000_0000_0000
    ensures Half(Twice(x)) == x && !Odd(Twice(x))
  {
  }

  lemma Double(x: bv64)
    requires x < 0x8000_0000_0000_0000
    ensures Value(Twice(x)) == 2 * Value(x)
  {
    TwiceHalves(x);
    Unfold(Twice(x));
    hide Value, Half, Odd, Twice;
  }

  predicate Small(x: bv64) { x < 0x2000_0000_0000_0000 }

  function EightTimes(x: bv64): bv64 { x << 3 }

  lemma TwiceThree(x: bv64)
    requires Small(x)
    ensures Twice(Twice(Twice(x))) == EightTimes(x)
    ensures x < 0x8000_0000_0000_0000 && Twice(x) < 0x8000_0000_0000_0000 && Twice(Twice(x)) < 0x8000_0000_0000_0000
  {
  }

  lemma Eightfold(x: bv64)
    requires Small(x)
    ensures Value(EightTimes(x)) == 8 * Value(x)
  {
    TwiceThree(x);
    hide Value, Twice, EightTimes, Small;
    Double(x);
    Double(Twice(x));
    Double(Twice(Twice(x)));
  }

  function Nine(x: bv64): bv64 { x << 9 }

  lemma ThriceThree(x: bv64)
    requires x < 0x0080_0000_0000_0000
    ensures EightTimes(EightTimes(EightTimes(x))) == Nine(x)
    ensures Small(x) && Small(EightTimes(x)) && Small(EightTimes(EightTimes(x)))
  {
  }

  lemma Times512(x: bv64)
    requires x < 0x0080_0000_0000_0000
    ensures Value(Nine(x)) == 512 * Value(x)
  {
    ThriceThree(x);
    hide Value, EightTimes, Nine, Small;
    Eightfold(x);
    Eightfold(EightTimes(x));
    Eightfold(EightTimes(EightTimes(x)));
  }

  lemma OneIsOne()
    ensures Value(0) == 0 && Value(1) == 1
  {
    assert (1 as bv64) >> 1 == 0;
  }

  lemma Literals()
    ensures Value(0) == 0 && Value(1) == 1 && Value(8) == 8 && Value(16) == 16 && Value(0x8000_0000_0000_0000) == HALF
  {
    OneIsOne();
    hide Value;
    Eightfold(1);
    Double(8);
    Times512(1);
    Times512(0x200);
    Times512(0x4_0000);
    Times512(0x800_0000);
    Times512(0x10_0000_0000);
    Times512(0x2000_0000_0000);
    Times512(0x40_0000_0000_0000);
  }

  lemma HalfIsLow(x: bv64)
    ensures Bits.AtMost(Half(x), 0x7FFF_FFFF_FFFF_FFFF)
  {
  }

  lemma AllButOne()
    ensures Value(0x7FFF_FFFF_FFFF_FFFF) == HALF - 1
  {
    Literals();
    assert (0x7FFF_FFFF_FFFF_FFFF as bv64) + 1 == 0x8000_0000_0000_0000;
    Succ(0x7FFF_FFFF_FFFF_FFFF);
    hide Value;
  }

  lemma AllOnes()
    ensures Value(0xFFFF_FFFF_FFFF_FFFF) == WORD - 1
  {
    AllButOne();
    Unfold(0xFFFF_FFFF_FFFF_FFFF);
    assert Half(0xFFFF_FFFF_FFFF_FFFF) == 0x7FFF_FFFF_FFFF_FFFF && Odd(0xFFFF_FFFF_FFFF_FFFF);
    hide Value;
  }

  lemma Fits(x: bv64)
    ensures Value(x) < WORD
  {
    AllButOne();
    HalfIsLow(x);
    Unfold(x);
    hide Value, Half, Odd, Bits.AtMost;
    Rises(Half(x), 0x7FFF_FFFF_FFFF_FFFF);
  }

  /** Every number below 2^64 is the value of a word. */
  lemma {:induction false} EveryNumber(n: nat) returns (w: bv64)
    requires n < WORD
    ensures Value(w) == n
    decreases n
  {
    if n == 0 {
      w := 0;
    } else {
      var h := EveryNumber(n / 2);
      AllButOne();
      Compares(h, 0x7FFF_FFFF_FFFF_FFFF);
      w := Join(h, n % 2 == 1);
      JoinHalves(h, n % 2 == 1);
      Unfold(w);
    }
  }

  lemma JoinHalves(h: bv64, odd: bool)
    requires Bits.AtMost(h, 0x7FFF_FFFF_FFFF_FFFF)
    ensures Half(Join(h, odd)) == h && Odd(Join(h, odd)) == odd
  {
  }

  // ---- Sums ----

  lemma SuccEven(x: bv64)
    requires !Odd(x)
    ensures Half(x + 1) == Half(x) && Odd(x + 1)
  {
  }

  lemma SuccOdd(x: bv64)
    requires Odd(x) && x != 0xFFFF_FFFF_FFFF_FFFF
    ensures Half(x + 1) == Half(x) + 1 && !Odd(x + 1)
  {
  }

  lemma HalfNotAll(x: bv64)
    ensures Half(x) != 0xFFFF_FFFF_FFFF_FFFF
  {
  }

  lemma {:induction false} Succ(x: bv64)
    requires x != 0xFFFF_FFFF_FFFF_FFFF
    ensures Value(x + 1) == Value(x) + 1
    decreases Value(x)
  {
    if Odd(x) { SuccOdd(x); } else { SuccEven(x); }
    HalfNotAll(x);
    Unfold(x);
    Unfold(x + 1);
    hide Value, Half, Odd;
    if Odd(x) { Succ(Half(x)); }
  }

  function Plus(x: bv64, y: bv64): bv64 { x + y }

  lemma MoveOne(x: bv64, y: bv64)
    ensures Plus(x + 1, y - 1) == Plus(x, y)
  {
  }

  lemma NextValue(x: bv64)
    ensures Value(x + 1) == if x == 0xFFFF_FFFF_FFFF_FFFF then 0 else Value(x) + 1
  {
    if x == 0xFFFF_FFFF_FFFF_FFFF {
      OneIsOne();
      assert x + 1 == 0;
    } else {
      Succ(x);
    }
  }

  lemma Back(y: bv64)
    requires y != 0
    ensures (y - 1) + 1 == y && y - 1 != 0xFFFF_FFFF_FFFF_FFFF
  {
  }

  lemma PrevValue(y: bv64)
    requires y != 0
    ensures Value(y - 1) + 1 == Value(y)
  {
    Back(y);
    hide Value;
    Succ(y - 1);
  }

  lemma PlusZero(x: bv64)
    ensures Plus(x, 0) == x
  {
  }

  /** Addition of words is addition modulo 2^64. */
  lemma {:induction false} Sum(x: bv64, y: bv64)
    ensures Value(Plus(x, y)) == (Value(x) + Value(y)) % WORD
    decreases Value(y)
  {
    Fits(x);
    OneIsOne();
    AllOnes();
    hide Value, Plus;
    if y == 0 {
      PlusZero(x);
    } else {
      MoveOne(x, y);
      PrevValue(y);
      NextValue(x);
      Sum(x + 1, y - 1);
    }
  }

  // ---- Powers of two ----

  lemma PowHalves(x: bv64)
    requires AboveOne(x) && Bits.IsPow2(x)
    ensures !Odd(x) && Bits.IsPow2(Half(x))
  {
  }

  lemma TwicePow(x: bv64)
    requires AboveOne(x) && !Odd(x) && Bits.IsPow2(Half(x))
    ensures Bits.IsPow2(x)
  {
  }

  lemma SmallPow(x: bv64)
    requires !AboveOne(x)
    ensures x == 0 || x == 1
    ensures !Bits.IsPow2(0) && Bits.IsPow2(1)
  {
  }

  lemma AboveOneValue(x: bv64)
    ensures AboveOne(x) <==> Value(x) > 1
  {
    OneIsOne();
    Compares(x, 1);
  }

  /** The bit test for a power of two is right. */
  lemma {:induction false} PowIsPower(x: bv64)
    ensures Bits.IsPow2(x) <==> PowerOfTwo(Value(x))
    decreases Value(x)
  {
    OneIsOne();
    AboveOneValue(x);
    if AboveOne(x) {
      if Bits.IsPow2(x) { PowHalves(x); }
      if !Odd(x) && Bits.IsPow2(Half(x)) { TwicePow(x); }
      Unfold(x);
      hide Value, Half, Odd, Bits.IsPow2, AboveOne;
      PowIsPower(Half(x));
    } else {
      SmallPow(x);
      hide Value, Bits.IsPow2, AboveOne;
    }
  }

  function Masked(x: bv64, a: bv64): bv64 { x & !(a - 1) }

  lemma MaskHalves(x: bv64, a: bv64)
    requires AboveOne(a) && Bits.IsPow2(a)
    ensures Half(Masked(x, a)) == Masked(Half(x), Half(a)) && !Odd(Masked(x, a))
  {
  }

  lemma MaskOne(x: bv64)
    ensures Masked(x, 1) == x
  {
  }

  /** Masking with a power of two takes away the remainder. */
  lemma {:induction false} Mask(x: bv64, a: bv64)
    requires Bits.IsPow2(a)
    ensures Value(a) > 0 && Value(Masked(x, a)) == Value(x) - Value(x) % Value(a)
    decreases Value(a)
  {
    AboveOneValue(a);
    OneIsOne();
    if AboveOne(a) {
      PowHalves(a);
      MaskHalves(x, a);
      Unfold(x);
      Unfold(a);
      Unfold(Masked(x, a));
      hide Value, Half, Odd, Bits.IsPow2, AboveOne, Masked;
      Mask(Half(x), Half(a));
      EvenRemainder(Value(Half(x)), Value(Half(a)), if Odd(x) then 1 else 0);
    } else {
      SmallPow(a);
      MaskOne(x);
      hide Value, Bits.IsPow2, AboveOne, Masked;
    }
  }

  lemma EvenRemainder(h: nat, p: nat, b: nat)
    requires p > 0 && b <= 1
    ensures (2 * h + b) % (2 * p) == 2 * (h % p) + b
  {
    var q, r := h / p, h % p;
    assert h == p * q + r;
    assert 2 * h + b == (2 * p) * q + (2 * r + b);
    DivUnique(2 * p, 2 * h + b, q, 2 * r + b);
  }

  // ---- Rounding ----

  /** The bit smear computes the doubling of numbers up to 2^63, and zero above. */
  lemma SmearIsDoubling(a: bv64)
    ensures Value(Bits.RoundUpPow2(a)) == if Value(a) > HALF then 0 else Doubled(1, Value(a))
  {
    Literals();
    Compares(a, 0x8000_0000_0000_0000);
    AboveOneValue(a);
    if !Bits.AtMost(a, 0x8000_0000_0000_0000) {
      Bits.RoundWraps(a);
      hide Value, Bits.RoundUpPow2;
    } else if AboveOne(a) {
      SmearUpToTop(a);
    } else {
      SmallPow(a);
      assert Bits.RoundUpPow2(a) == 1;
      hide Value, Bits.RoundUpPow2;
    }
  }

  lemma SmearUpToTop(a: bv64)
    requires AboveOne(a) && Bits.AtMost(a, 0x8000_0000_0000_0000)
    ensures Value(Bits.RoundUpPow2(a)) == Doubled(1, Value(a))
  {
    var r := Bits.RoundUpPow2(a);
    RoundedUp(a);
    AboveOneValue(a);
    hide Value, Half, Odd, Bits.IsPow2, Bits.RoundUpPow2, Bits.AtMost, AboveOne;
    Compares(a, r);
    Compares(a, Half(r));
    PowIsPower(r);
    Unfold(r);
    DoubledIsLeast(Value(a), Value(r));
    if Doubled(1, Value(a)) < Value(r) { PowersApart(Doubled(1, Value(a)), Value(r)); }
  }

  lemma RoundedUp(a: bv64)
    requires AboveOne(a) && Bits.AtMost(a, 0x8000_0000_0000_0000)
    ensures var r := Bits.RoundUpPow2(a); Bits.IsPow2(r) && Bits.AtMost(a, r) && !Bits.AtMost(a, Half(r))
  {
    Smeared(a);
    hide Bits.RoundUpPow2, Bits.IsPow2;
    Bits.RoundIsPow2(a);
    Bits.RoundAbove(a);
    Bits.RoundHalf(a);
    hide *;
    NotUpTo(Bits.Smear(a - 1) + 1, a);
  }

  lemma Smeared(a: bv64)
    requires AboveOne(a)
    ensures Bits.RoundUpPow2(a) == Bits.Smear(a - 1) + 1
  {
    hide Bits.Smear;
  }

  lemma NotUpTo(r: bv64, a: bv64)
    requires Bits.HalfBelow(r, a)
    ensures !Bits.AtMost(a, Half(r))
  {
  }
}
