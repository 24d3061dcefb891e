/**
 * The first-fit heap as it lies in memory: headers inside the heap, found by address arithmetic.
 *
 * Memory is an array of 16-byte granules; any granule can be read as a header. The heap base is
 * 16-aligned, so an address is a granule index. The ghost layout says what the headers spell.
 */
module HeapMemory {
  import opened Prelude
  import opened FirstFit

  const HEAP_MAGIC: bv32 := 0x6d656d31
  const HEAP_FREE: bv32 := 1

  /** 16 bytes read as a header: magic, flags and payload bytes. */
  datatype Granule = Granule(magic: bv32, flags: bv32, size: nat)

  function Header(b: Block): Granule { Granule(HEAP_MAGIC, if b.free then HEAP_FREE else 0, 16 * b.size) }

  /** The header of block i lies at its place. */
  ghost predicate Spelled(mem: seq<Granule>, l: Layout, i: nat)
    requires i < |l|
  {
    Pos(l, i) < |mem| && mem[Pos(l, i)] == Header(l[i])
  }

  ghost predicate Spells(mem: seq<Granule>, l: Layout) {
    l != [] && Total(l) == |mem| && forall i: nat :: i < |l| ==> Spelled(mem, l, i)
  }

  /** heap_next: the header after the block with header b and `size` payload bytes. */
  function HeapNext(b: nat, size: nat): nat { b + 1 + Granules(size) }

  lemma GranulesExact(g: nat)
    ensures Granules(16 * g) == g
  {
  }

  lemma PosLimits(l: Layout, k: nat)
    requires k <= |l|
    ensures Pos(l, k) <= Total(l)
    ensures k < |l| ==> Pos(l, k) + 1 + l[k].size == Pos(l, k + 1) <= Total(l)
    ensures k < |l| <==> Pos(l, k) + 1 <= Total(l)
  {
    if k < |l| {
      PosOrder(l, k, |l|);
      if k + 1 < |l| { PosOrder(l, k + 1, |l|); }
    }
  }

  // ---- Header updates ----

  lemma TakePos(l: Layout, i: nat, g: nat, k: nat)
    requires i < |l| && l[i].size >= g && k <= |Take(l, i, g)|
    ensures k <= i ==> Pos(Take(l, i, g), k) == Pos(l, k)
    ensures g + 2 <= l[i].size && k == i + 1 ==> Pos(Take(l, i, g), k) == Pos(l, i) + 1 + g
    ensures g + 2 <= l[i].size && k > i + 1 ==> Pos(Take(l, i, g), k) == Pos(l, k - 1)
    ensures g + 2 > l[i].size ==> Pos(Take(l, i, g), k) == Pos(l, k)
  {
    var r := Take(l, i, g);
    if g + 2 > l[i].size {
      SameSizes(r, l, k);
    } else {
      if k <= i {
        assert r[..k] == l[..k];
        PosOfPrefix(r, l, k);
      } else {
        assert r[..i] == l[..i];
        PosOfPrefix(r, l, i);
        TakeTail(l, i, g, k);
      }
    }
  }

  lemma {:induction false} TakeTail(l: Layout, i: nat, g: nat, k: nat)
    requires i < |l| && g + 2 <= l[i].size && i < k <= |Take(l, i, g)| && Pos(Take(l, i, g), i) == Pos(l, i)
    ensures k == i + 1 ==> Pos(Take(l, i, g), k) == Pos(l, i) + 1 + g
    ensures k > i + 1 ==> Pos(Take(l, i, g), k) == Pos(l, k - 1)
  {
    var r := Take(l, i, g);
    if k > i + 1 {
      TakeTail(l, i, g, k - 1);
      if k == i + 2 { assert r[i + 1] == Block(true, l[i].size - g - 1); } else { assert r[k - 1] == l[k - 2]; }
    }
  }

  /** Memory after an allocation takes block i. */
  ghost function TakenMem(mem: seq<Granule>, l: Layout, i: nat, g: nat): (r: seq<Granule>)
    requires Spells(mem, l) && i < |l| && Fits(l[i], g)
    ensures |r| == |mem|
  {
    assert Spelled(mem, l, i);
    PosLimits(l, i);
    var h := Pos(l, i);
    if g + 2 <= l[i].size then
      mem[h + 1 + g := Header(Block(true, l[i].size - g - 1))][h := Header(Block(false, g))]
    else mem[h := Header(Block(false, l[i].size))]
  }

  lemma TakeSpells(mem: seq<Granule>, l: Layout, i: nat, g: nat)
    requires Spells(mem, l) && i < |l| && Fits(l[i], g)
    ensures Spells(TakenMem(mem, l, i, g), Take(l, i, g))
  {
    hide Pos;
    var r, m := Take(l, i, g), TakenMem(mem, l, i, g);
    TakeTotal(l, i, g);
    PosLimits(l, i);
    forall k: nat | k < |r| ensures Spelled(m, r, k) {
      TakePos(l, i, g, k);
      var split := g + 2 <= l[i].size;
      if k < i {
        assert Spelled(mem, l, k) && r[k] == l[k];
        PosOrder(l, k, i);
      } else if split && k > i + 1 {
        assert Spelled(mem, l, k - 1) && r[k] == l[k - 1];
        PosOrder(l, i, k - 1);
      } else if !split && k > i {
        assert Spelled(mem, l, k) && r[k] == l[k];
        PosOrder(l, i, k);
      }
    }
  }

  /** Rewriting the header of block i with the same size. */
  lemma MarkSpells(mem: seq<Granule>, l: Layout, i: nat)
    requires Spells(mem, l) && i < |l|
    ensures Pos(l, i) < |mem|
    ensures var b := Block(true, l[i].size); Spells(mem[Pos(l, i) := Header(b)], l[i := b])
  {
    hide Pos;
    var b := Block(true, l[i].size);
    var r := l[i := b];
    assert Spelled(mem, l, i);
    SameSizes(r, l, |l|);
    var m := mem[Pos(l, i) := Header(b)];
    forall k: nat | k < |r| ensures Spelled(m, r, k) {
      SameSizes(r, l, k);
      assert Spelled(mem, l, k);
      if k < i { PosOrder(l, k, i); } else if k > i { PosOrder(l, i, k); }
    }
  }

  /** A write to a granule that holds no header keeps the layout. */
  lemma PayloadWriteSpells(mem: seq<Granule>, l: Layout, g: nat, x: Granule)
    requires Spells(mem, l) && g < |mem| && BlockAt(l, g) == |l|
    ensures Spells(mem[g := x], l)
  {
    var m := mem[g := x];
    forall k: nat | k < |l| ensures Spelled(m, l, k) { assert Spelled(mem, l, k); }
  }

  function Merged(l: Layout, k: nat): Layout
    requires k + 1 < |l|
  {
    l[..k] + [Block(true, l[k].size + 1 + l[k + 1].size)] + l[k + 2..]
  }

  lemma {:induction false} MergedPos(l: Layout, k: nat, i: nat)
    requires k + 1 < |l| && i <= |Merged(l, k)|
    ensures Pos(Merged(l, k), i) == if i <= k then Pos(l, i) else Pos(l, i + 1)
  {
    var r := Merged(l, k);
    if i <= k {
      assert r[..i] == l[..i];
      PosOfPrefix(r, l, i);
    } else {
      MergedPos(l, k, i - 1);
      if i > k + 1 { assert r[i - 1] == l[i]; }
    }
  }

  lemma MergeSpells(mem: seq<Granule>, l: Layout, k: nat)
    requires Spells(mem, l) && k + 1 < |l|
    ensures Pos(l, k) < |mem| && Spells(mem[Pos(l, k) := Header(Merged(l, k)[k])], Merged(l, k))
  {
    hide Pos;
    var r := Merged(l, k);
    assert Spelled(mem, l, k);
    MergedPos(l, k, |r|);
    var m := mem[Pos(l, k) := Header(r[k])];
    forall i: nat | i < |r| ensures Spelled(m, r, i) {
      MergedPos(l, k, i);
      if i < k {
        assert Spelled(mem, l, i);
        PosOrder(l, i, k);
      } else if i > k {
        assert Spelled(mem, l, i + 1) && r[i] == l[i + 1];
        PosOrder(l, k, i + 1);
      }
    }
  }

  class Heap {
    const mem: array<Granule>
    ghost var l: Layout

    ghost predicate Linked()
      reads this, mem
    {
      Spells(mem[..], l)
    }

    ghost predicate Valid()
      reads this, mem
    {
      Linked() && Tiles(l, mem.Length)
    }

    /** heap_init over backing memory of any content. */
    constructor (mem: array<Granule>)
      requires mem.Length > 0
      modifies mem
      ensures Valid() && this.mem == mem && l == Initial(mem.Length)
    {
      this.mem := mem;
      l := Initial(mem.Length);
      new;
      mem[0] := Granule(HEAP_MAGIC, HEAP_FREE, 16 * (mem.Length - 1));
      TotalTwo(l[0], l[0]);
      assert Spelled(mem[..], l, 0);
    }

    /** Reads the header at granule b, which is that of block k. */
    lemma HeaderAt(k: nat)
      requires Linked() && k <= |l|
      ensures l != [] && Total(l) == mem.Length
      ensures k < |l| <==> Pos(l, k) + 1 <= mem.Length
      ensures k < |l| ==> mem[Pos(l, k)] == Header(l[k]) && HeapNext(Pos(l, k), 16 * l[k].size) == Pos(l, k + 1) <= mem.Length
    {
      PosLimits(l, k);
      if k < |l| {
        assert Spelled(mem[..], l, k);
        GranulesExact(l[k].size);
      }
    }

    lemma FlagBits()
      ensures HEAP_FREE & HEAP_FREE != 0 && 0 & HEAP_FREE == 0
      ensures HEAP_FREE & !HEAP_FREE == 0 && HEAP_FREE | HEAP_FREE == HEAP_FREE && 0 | HEAP_FREE == HEAP_FREE
    {
    }

    /** heap_alloc_first_fit: the payload granule of the block taken, and how many blocks were looked at. */
    method HeapAllocFirstFit(req: nat) returns (p: Option<nat>, steps: nat)
      requires Valid()
      modifies this, mem
      ensures Valid() && l == Alloc(old(l), req).0
      ensures p == match Alloc(old(l), req).1 { case None => None case Some(h) => Some(h + 1) }
      ensures req > 0 ==> steps == var i := FirstFitting(old(l), Granules(req)); if i < |old(l)| then i + 1 else i
    {
      hide Pos, Spells, NoAdjacentFree;
      AllocTiles(l, req, mem.Length);
      steps := 0;
      if req == 0 { return None, 0; }
      var g := Granules(req);
      FlagBits();
      var b := 0;
      ghost var k := 0;
      PosZero(l);
      HeaderAt(0);
      while b + 1 <= mem.Length
        invariant Valid() && l == old(l) && k <= |l| && b == Pos(l, k) && steps == k && k <= FirstFitting(l, g)
        invariant k < |l| <==> b + 1 <= mem.Length
        decreases |l| - k
      {
        HeaderAt(k);
        var h := mem[b];
        if h.magic != HEAP_MAGIC { break; }
        steps := steps + 1;
        if h.flags & HEAP_FREE != 0 && h.size >= 16 * g {
          TakeAt(b, k, g);
          return Some(b + 1), steps;
        }
        b := HeapNext(b, h.size);
        k := k + 1;
        HeaderAt(k);
      }
      return None, steps;
    }

    lemma PosZero(l: Layout)
      ensures Pos(l, 0) == 0
    {
    }

    /** Splits block k if the rest can hold a header and a granule, and marks it used. */
    method TakeAt(b: nat, ghost k: nat, g: nat)
      requires Linked() && k < |l| && b == Pos(l, k) && b < mem.Length && mem[b] == Header(l[k]) && Fits(l[k], g)
      modifies this`l, mem
      ensures Linked() && l == Take(old(l), k, g)
    {
      hide Pos, Spells;
      TakeSpells(mem[..], l, k, g);
      HeaderAt(k);
      FlagBits();
      GranulesExact(l[k].size);
      ghost var was, size := mem[..], l[k].size;
      var payload := b + 1;
      var oldEnd := payload + Granules(mem[b].size);
      var newHdr := payload + g;
      var newPayload := newHdr + 1;
      if newPayload + 1 <= oldEnd {
        mem[newHdr] := Granule(HEAP_MAGIC, HEAP_FREE, 16 * (oldEnd - newPayload));
        mem[b] := mem[b].(size := 16 * g);
      }
      mem[b] := mem[b].(flags := mem[b].flags & !HEAP_FREE);
      assert mem[..] == TakenMem(was, l, k, g);
      l := Take(l, k, g);
    }

    /** heap_coalesce. */
    method HeapCoalesce()
      requires Linked()
      modifies this`l, mem
      ensures Linked() && l == Coalesce(old(l))
    {
      hide Pos, Spells;
      FlagBits();
      var b := 0;
      ghost var k := 0;
      PosZero(l);
      HeaderAt(0);
      assert l[..0] == [] && l[0..] == l;
      while b + 1 <= mem.Length
        invariant Linked() && k < |l| && b == Pos(l, k)
        invariant Coalesce(old(l)) == l[..k] + Coalesce(l[k..])
        decreases |l| - k
      {
        HeaderAt(k);
        HeaderAt(k + 1);
        if mem[b].magic != HEAP_MAGIC { break; }
        var n := HeapNext(b, mem[b].size);
        if n + 1 > mem.Length { break; }
        if mem[n].magic != HEAP_MAGIC { break; }
        if mem[b].flags & HEAP_FREE != 0 && mem[n].flags & HEAP_FREE != 0 {
          var gap := 16 * (n + 1) - (16 * (b + 1) + mem[b].size);
          MergeSpells(mem[..], l, k);
          mem[b] := mem[b].(size := mem[b].size + gap + mem[n].size);
          CoalesceMergeStep(l, k);
          MergedPos(l, k, k);
          l := Merged(l, k);
        } else {
          CoalesceSkipStep(l, k);
          b := n;
          k := k + 1;
        }
      }
      HeaderAt(k);
      HeaderAt(k + 1);
      assert |l[k..]| < 2;
      assert l == l[..k] + l[k..];
    }

    /** heap_free of the payload granule p. */
    method HeapFree(p: nat)
      requires Valid()
      modifies this`l, mem
      ensures Valid() && l == if 1 <= p < mem.Length then Free(old(l), p - 1) else old(l)
    {
      hide Pos, Spells, NoAdjacentFree;
      if p < 1 || p >= mem.Length { return; }
      var h := p - 1;
      FreeTiles(l, h, mem.Length);
      ghost var i := BlockAt(l, h);
      HeaderAt(i);
      FlagBits();
      CoalesceIdle(l);
      if mem[h].magic != HEAP_MAGIC { return; }
      ghost var was := mem[..];
      if i < |l| { MarkSpells(was, l, i); } else { PayloadWriteSpells(was, l, h, mem[h].(flags := mem[h].flags | HEAP_FREE)); }
      mem[h] := mem[h].(flags := mem[h].flags | HEAP_FREE);
      if i < |l| { l := l[i := Block(true, l[i].size)]; }
      HeapCoalesce();
    }

    /** heap_stats, in bytes. */
    method HeapStats() returns (totalFree: nat, largestFree: nat, freeBlocks: nat)
      requires Valid()
      ensures totalFree == 16 * TotalFree(l) && largestFree == 16 * LargestFree(l) && freeBlocks == FreeCount(l)
    {
      hide Pos, Spells, NoAdjacentFree;
      FlagBits();
      totalFree, largestFree, freeBlocks := 0, 0, 0;
      var b := 0;
      ghost var k := 0;
      PosZero(l);
      HeaderAt(0);
      assert l[0..] == l;
      while b + 1 <= mem.Length
        invariant k <= |l| && b == Pos(l, k) && (k < |l| <==> b + 1 <= mem.Length)
        invariant totalFree + 16 * TotalFree(l[k..]) == 16 * TotalFree(l)
        invariant Max(largestFree, 16 * LargestFree(l[k..])) == 16 * LargestFree(l)
        invariant freeBlocks + FreeCount(l[k..]) == FreeCount(l)
        decreases |l| - k
      {
        HeaderAt(k);
        var h := mem[b];
        if h.magic != HEAP_MAGIC { break; }
        assert l[k..][0] == l[k] && l[k..][1..] == l[k + 1..];
        if h.flags & HEAP_FREE != 0 {
          totalFree := totalFree + h.size;
          if h.size > largestFree { largestFree := h.size; }
          freeBlocks := freeBlocks + 1;
        }
        b := HeapNext(b, h.size);
        k := k + 1;
        HeaderAt(k);
      }
      assert l[|l|..] == [];
    }
  }

  lemma CoalesceMergeStep(l: Layout, k: nat)
    requires k + 1 < |l| && l[k].free && l[k + 1].free
    ensures l[..k] + Coalesce(l[k..]) == Merged(l, k)[..k] + Coalesce(Merged(l, k)[k..])
  {
    assert l[k..][2..] == l[k + 2..];
    assert Merged(l, k)[k..] == [Block(true, l[k].size + 1 + l[k + 1].size)] + l[k + 2..];
  }

  lemma CoalesceSkipStep(l: Layout, k: nat)
    requires k + 1 < |l| && !(l[k].free && l[k + 1].free)
    ensures l[..k] + Coalesce(l[k..]) == l[..k + 1] + Coalesce(l[k + 1..])
  {
    assert l[k..][1..] == l[k + 1..];
  }
}
