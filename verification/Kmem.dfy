/** The boot bump allocator on 64-bit words: aligned, in range and disjoint as long as no sum wraps. */
module Kmem {
  import opened Prelude
  import opened Alignment
  import opened Words
  import Bits = PowerOfTwo

  datatype State = State(cur: nat, end: nat)

  datatype Request = Request(size: nat, align: nat)

  datatype Block = Block(start: nat, size: nat, align: nat)

  /** The alignment used: at least 16, rounded up to a power of two, zero when that would be 2^64. */
  function Effective(align: nat): nat {
    var a := if align < 16 then 16 else align;
    if PowerOfTwo(a) then a else if a > HALF then 0 else Doubled(1, a)
  }

  /** align_up on words: the sum and the mask wrap, and a zero alignment masks everything. */
  function AlignUpWord(v: nat, a: nat): nat {
    if a == 0 then 0
    else
      var x := (v + a - 1) % WORD;
      x - x % a
  }

  /** kmem_alloc_aligned. */
  function Alloc(s: State, q: Request): (State, Option<nat>) {
    var p := AlignUpWord(s.cur, Effective(q.align));
    var sum := (p + q.size) % WORD;
    if sum > s.end then (s, None) else (s.(cur := sum), Some(p))
  }

  /** Neither the rounding nor the sum reaches 2^64. */
  predicate NoWrap(s: State, q: Request) {
    && Effective(q.align) > 0
    && s.cur + Effective(q.align) - 1 < WORD
    && AlignUpWord(s.cur, Effective(q.align)) + q.size < WORD
  }

  predicate Valid(s: State) { s.cur <= s.end < WORD }

  /** The block granted lies free, aligned, between the allocations so far and the end. */
  predicate Granted(s: State, q: Request, p: nat) {
    Effective(q.align) > 0 && p % Effective(q.align) == 0 && s.cur <= p && p + q.size <= s.end
  }

  lemma AlignUpIs(v: nat, a: nat)
    requires a > 0 && v + a - 1 < WORD
    ensures AlignUpWord(v, a) == AlignUp(v, a)
  {
    var r := AlignUp(v, a);
    HighestMultiple(r, v + a - 1, a);
    var d := AlignDown(v + a - 1, a);
    assert r <= d <= v + a - 1;
    if d > r { NoMultipleBetween(r, d, a); }
  }

  lemma NoMultipleBetween(x: nat, y: nat, a: nat)
    requires a > 0 && x % a == 0 && y % a == 0 && x < y
    ensures x + a <= y
  {
    assert x == a * (x / a) && y == a * (y / a);
    if x / a >= y / a { MulOrder(a, y / a, x / a); }
    MulOrder(a, x / a + 1, y / a);
  }

  /** A grant is good exactly when nothing wrapped. */
  lemma GrantExact(s: State, q: Request)
    requires Valid(s) && q.size < WORD && q.align < WORD && Alloc(s, q).1.Some?
    ensures Granted(s, q, Alloc(s, q).1.value) <==> NoWrap(s, q)
    ensures NoWrap(s, q) ==> Valid(Alloc(s, q).0) && Alloc(s, q).0.cur == Alloc(s, q).1.value + q.size
  {
    var a := Effective(q.align);
    if a == 0 {
    } else if s.cur + a - 1 < WORD {
      AlignUpIs(s.cur, a);
    } else {
      WrappedIsZero(s, a);
    }
  }

  /** Rounding up goes to the first multiple. */
  lemma FirstMultiple(v: nat, a: nat, x: nat)
    requires a > 0 && v <= x && x % a == 0
    ensures AlignUp(v, a) <= x
  {
    if x < AlignUp(v, a) { NoMultipleBetween(x, AlignUp(v, a), a); }
  }

  /**
   * Without wrap-around a call succeeds exactly when some aligned block of the size fits in the free part of
   * the heap, and grants the lowest one. A refusal changes nothing, wrapped or not.
   */
  lemma AllocExact(s: State, q: Request)
    requires Valid(s)
    ensures Alloc(s, q).1.None? ==> Alloc(s, q).0 == s
    ensures NoWrap(s, q) ==> (Alloc(s, q).1.Some? <==> exists x: nat :: Granted(s, q, x))
    ensures NoWrap(s, q) && Alloc(s, q).1.Some? ==>
      var p := Alloc(s, q).1.value;
      Alloc(s, q).0 == State(p + q.size, s.end) && Granted(s, q, p) && forall x: nat :: Granted(s, q, x) ==> p <= x
  {
    if NoWrap(s, q) {
      var a := Effective(q.align);
      AlignUpIs(s.cur, a);
      hide Effective;
      var p := AlignUp(s.cur, a);
      forall x: nat | Granted(s, q, x) ensures p <= x { FirstMultiple(s.cur, a, x); }
      if Alloc(s, q).1.Some? { assert Granted(s, q, p); }
    }
  }

  /** The alignment used is the least power of two that is at least 16 and the one asked for, if a word holds it. */
  lemma EffectiveIsLeast(align: nat)
    requires align < WORD
    ensures var e := Effective(align);
      if align > HALF then e == 0
      else
        && PowerOfTwo(e) && e >= 16 && e >= align
        && forall p: nat :: PowerOfTwo(p) && p >= 16 && p >= align ==> e <= p
  {
    HalfIsPower();
    var a := if align < 16 then 16 else align;
    assert PowerOfTwo(16);
    hide PowerOfTwo;
    if align > HALF {
      if PowerOfTwo(align) { PowersApart(HALF, align); }
    } else {
      DoubledIsLeast(a, HALF);
      forall p: nat | PowerOfTwo(p) && p >= a ensures Effective(align) <= p { DoubledIsLeast(a, p); }
    }
  }

  lemma HalfIsPower()
    ensures PowerOfTwo(HALF)
  {
    Literals();
    PowIsPower(0x8000_0000_0000_0000);
    assert Bits.IsPow2(0x8000_0000_0000_0000);
  }

  lemma WrappedIsZero(s: State, a: nat)
    requires Valid(s) && 0 < a <= WORD && s.cur + a - 1 >= WORD
    ensures AlignUpWord(s.cur, a) == 0 < s.cur
  {
    var x := (s.cur + a - 1) % WORD;
    assert x == s.cur + a - 1 - WORD < a;
    assert x % a == x;
  }

  // ---- Runs ----

  /** The blocks granted by a run of calls. */
  function Blocks(s: State, calls: seq<Request>): seq<Block>
    decreases |calls|
  {
    if calls == [] then []
    else
      var (r, p) := Alloc(s, calls[0]);
      (if p.Some? then [Block(p.value, calls[0].size, Effective(calls[0].align))] else []) + Blocks(r, calls[1..])
  }

  ghost predicate NeverWraps(s: State, calls: seq<Request>)
    decreases |calls|
  {
    calls == [] || (NoWrap(s, calls[0]) && calls[0].align < WORD && NeverWraps(Alloc(s, calls[0]).0, calls[1..]))
  }

  lemma GrantStep(s: State, q: Request)
    requires Valid(s) && NoWrap(s, q) && q.align < WORD
    ensures var (r, p) := Alloc(s, q);
      && Valid(r) && r.end == s.end && s.cur <= r.cur
      && (p.Some? ==> Granted(s, q, p.value) && r.cur == p.value + q.size)
  {
    if Alloc(s, q).1.Some? { GrantExact(s, q); }
  }

  /** A block inside the heap from `from` on, aligned as its request asked. */
  ghost predicate Placed(b: Block, from: nat, end: nat) {
    from <= b.start && b.start + b.size <= end && b.align > 0 && b.start % b.align == 0
  }

  ghost predicate AllPlaced(b: seq<Block>, from: nat, end: nat) {
    forall i :: 0 <= i < |b| ==> Placed(b[i], from, end)
  }

  ghost predicate Apart(b: seq<Block>) {
    forall i, j :: 0 <= i < j < |b| ==> b[i].start + b[i].size <= b[j].start
  }

  lemma OneMore(x: Block, rest: seq<Block>, from: nat, end: nat)
    requires Placed(x, from, end) && AllPlaced(rest, x.start + x.size, end) && Apart(rest)
    ensures AllPlaced([x] + rest, from, end) && Apart([x] + rest)
  {
    var b := [x] + rest;
    assert forall i :: 1 <= i < |b| ==> b[i] == rest[i - 1];
    forall i | 0 <= i < |rest| ensures x.start + x.size <= rest[i].start { assert Placed(rest[i], x.start + x.size, end); }
  }

  /** Without wrap-around every block lies in the heap, aligned, and no two overlap. */
  lemma {:induction false} BlocksApart(s: State, calls: seq<Request>)
    requires Valid(s) && NeverWraps(s, calls)
    ensures AllPlaced(Blocks(s, calls), s.cur, s.end) && Apart(Blocks(s, calls))
    decreases |calls|
  {
    if calls != [] {
      var q := calls[0];
      var (r, p) := Alloc(s, q);
      GrantStep(s, q);
      hide Alloc, NoWrap, Effective, Valid;
      BlocksApart(r, calls[1..]);
      if p.Some? { OneMore(Block(p.value, q.size, Effective(q.align)), Blocks(r, calls[1..]), s.cur, s.end); }
    }
  }

  /** A size near 2^64 wraps past the range check: the call succeeds with a block that is not in the heap. */
  lemma WrapGrantsTooMuch()
    ensures var s, q := State(0x4010_0000, 0x4020_0000), Request(WORD - 0x1000, 16);
      Valid(s) && Alloc(s, q).1 == Some(0x4010_0000) && !NoWrap(s, q) && 0x4010_0000 + q.size > s.end
      && Alloc(s, q).0.cur < s.cur
  {
    assert Effective(16) == 16;
  }

  /** An alignment above 2^63 rounds to zero: a null block is granted, and the heap starts over from there. */
  lemma HugeAlignRewinds(s: State, size: nat, align: nat)
    requires Valid(s) && size <= s.end && HALF < align < WORD
    ensures Alloc(s, Request(size, align)) == (State(size, s.end), Some(0)) && !NoWrap(s, Request(size, align))
  {
    EffectiveIsLeast(align);
  }

  // ---- On 64-bit words ----

  /** The alignment used, as the source computes it. */
  function EffectiveWord(align: bv64): bv64 {
    var a := if align < 16 then 16 else align;
    if Bits.IsPow2(a) then a else Bits.RoundUpPow2(a)
  }

  lemma EffectiveIsWord(align: bv64)
    ensures Value(EffectiveWord(align)) == Effective(Value(align))
  {
    var a := if align < 16 then 16 else align;
    Literals();
    AtLeast16(align);
    hide Value, Bits.IsPow2, Bits.RoundUpPow2;
    PowIsPower(a);
    SmearIsDoubling(a);
  }

  lemma AtLeast16(align: bv64)
    ensures align < 16 <==> Value(align) < 16
  {
    Literals();
    Compares(16, align);
    hide Value;
  }

  lemma EffectiveIsPow(align: bv64)
    ensures EffectiveWord(align) == 0 || Bits.IsPow2(EffectiveWord(align))
  {
    RoundedIsPow(if align < 16 then 16 else align);
    hide Bits.IsPow2, Bits.RoundUpPow2;
  }

  lemma RoundedIsPow(a: bv64)
    ensures Bits.RoundUpPow2(a) == 0 || Bits.IsPow2(Bits.RoundUpPow2(a))
  {
    hide Bits.Smear, Bits.IsPow2, Bits.RoundUpPow2;
    if a <= 0x8000_0000_0000_0000 { Bits.RoundIsLeast(a); } else { Bits.RoundWraps(a); }
  }

  /** align_up. */
  function AlignUpBits(v: bv64, a: bv64): bv64 { Masked(v + a - 1, a) }

  lemma Rounded(v: bv64, a: bv64)
    ensures AlignUpBits(v, a) == Masked(Plus(v, a - 1), a)
  {
  }

  lemma ZeroMasks(v: bv64)
    ensures AlignUpBits(v, 0) == 0
  {
  }

  lemma AlignUpIsMask(v: bv64, a: bv64)
    requires a == 0 || Bits.IsPow2(a)
    ensures Value(AlignUpBits(v, a)) == AlignUpWord(Value(v), Value(a))
  {
    OneIsOne();
    ZeroMasks(v);
    hide Value, AlignUpBits, Masked, Plus, Bits.IsPow2;
    if a != 0 {
      Rounded(v, a);
      PrevValue(a);
      Sum(v, a - 1);
      Mask(Plus(v, a - 1), a);
    }
  }

  /** The allocator's two words. */
  class BootHeap {
    var cur: bv64
    var end: bv64

    ghost function St(): State
      reads this
    {
      State(Value(cur), Value(end))
    }

    /** kmem_init. */
    method KmemInit(start: bv64, limit: bv64)
      modifies this
      ensures St() == State(Value(start), Value(limit))
    {
      cur, end := start, limit;
    }

    method KmemAllocAligned(size: bv64, align: bv64) returns (p: Option<bv64>)
      modifies this`cur
      ensures var (r, granted) := Alloc(old(St()), Request(Value(size), Value(align)));
        St() == r && granted == if p.Some? then Some(Value(p.value)) else None
    {
      EffectiveIsWord(align);
      EffectiveIsPow(align);
      hide Value, AlignUpWord, AlignUpBits, Masked, Plus, Bits.IsPow2, Bits.RoundUpPow2;
      var a := align;
      if a < 16 { a := 16; }
      if !Bits.IsPow2(a) { a := Bits.RoundUpPow2(a); }
      AlignUpIsMask(cur, a);
      var start := AlignUpBits(cur, a);
      Sum(start, size);
      Compares(Plus(start, size), end);
      if !Bits.AtMost(Plus(start, size), end) { return None; }
      cur := Plus(start, size);
      return Some(start);
    }
  }
}
