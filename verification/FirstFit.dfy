/**
 * The first-fit heap as a sequence of blocks tiling it, counted in granules of 16 bytes.
 *
 * Every block is one granule of header and `size` granules of payload; a block is named by the granule
 * of its header, and the pointer handed out is the granule after it.
 */
module FirstFit {
  import opened Prelude

  datatype Block = Block(free: bool, size: nat)

  type Layout = seq<Block>

  function Granules(bytes: nat): nat { (bytes + 15) / 16 }

  /** The header granule of block i. */
  function Pos(l: Layout, i: nat): nat
    requires i <= |l|
  {
    if i == 0 then 0 else Pos(l, i - 1) + 1 + l[i - 1].size
  }

  function Total(l: Layout): nat { Pos(l, |l|) }

  ghost predicate NoAdjacentFree(l: Layout) {
    forall i :: 0 <= i < |l| - 1 ==> !(l[i].free && l[i + 1].free)
  }

  /** The blocks tile a heap of n granules and no two neighbours are free. */
  ghost predicate Tiles(l: Layout, n: nat) { l != [] && Total(l) == n && NoAdjacentFree(l) }

  // ---- Operations ----

  /** heap_init. */
  function Initial(n: nat): Layout
    requires n > 0
  {
    [Block(true, n - 1)]
  }

  predicate Fits(b: Block, g: nat) { b.free && b.size >= g }

  /** The lowest free block of at least g granules, or |l|. */
  function FirstFitting(l: Layout, g: nat): (i: nat)
    ensures i <= |l|
    ensures i < |l| ==> Fits(l[i], g)
    ensures forall k :: 0 <= k < i ==> !Fits(l[k], g)
  {
    if l == [] then 0 else if Fits(l[0], g) then 0 else 1 + FirstFitting(l[1..], g)
  }

  /** Block i becomes used; what is left of it splits off if it can hold a header and one granule. */
  function Take(l: Layout, i: nat, g: nat): Layout
    requires i < |l| && l[i].size >= g
  {
    if g + 2 <= l[i].size then l[..i] + [Block(false, g), Block(true, l[i].size - g - 1)] + l[i + 1..]
    else l[i := Block(false, l[i].size)]
  }

  /** heap_alloc_first_fit: the layout after it and the header granule of the block taken. */
  function Alloc(l: Layout, req: nat): (Layout, Option<nat>) {
    var i := FirstFitting(l, Granules(req));
    if req == 0 || i == |l| then (l, None) else (Take(l, i, Granules(req)), Some(Pos(l, i)))
  }

  /** heap_coalesce. */
  function Coalesce(l: Layout): Layout
    decreases |l|
  {
    if |l| < 2 then l
    else if l[0].free && l[1].free then Coalesce([Block(true, l[0].size + 1 + l[1].size)] + l[2..])
    else [l[0]] + Coalesce(l[1..])
  }

  /** The block whose header is granule h, or |l|. */
  function BlockAt(l: Layout, h: nat): (i: nat)
    ensures i <= |l|
    ensures i < |l| ==> Pos(l, i) == h
    ensures forall j :: 0 <= j < i ==> Pos(l, j) != h
  {
    BlockFrom(l, h, 0)
  }

  function BlockFrom(l: Layout, h: nat, k: nat): (i: nat)
    requires k <= |l|
    ensures k <= i <= |l|
    ensures i < |l| ==> Pos(l, i) == h
    ensures forall j :: k <= j < i ==> Pos(l, j) != h
    decreases |l| - k
  {
    if k == |l| || Pos(l, k) == h then k else BlockFrom(l, h, k + 1)
  }

  /** heap_free of the block with header granule h; any other granule changes nothing. */
  function Free(l: Layout, h: nat): Layout {
    var i := BlockAt(l, h);
    if i == |l| then l else Coalesce(l[i := Block(true, l[i].size)])
  }

  // ---- Positions ----

  lemma {:induction false} PosOfPrefix(a: Layout, b: Layout, i: nat)
    requires i <= |a| && i <= |b| && a[..i] == b[..i]
    ensures Pos(a, i) == Pos(b, i)
  {
    if i > 0 {
      assert a[..i - 1] == a[..i][..i - 1] && b[..i - 1] == b[..i][..i - 1];
      assert a[i - 1] == a[..i][i - 1] && b[i - 1] == b[..i][i - 1];
      PosOfPrefix(a, b, i - 1);
    }
  }

  lemma {:induction false} PosConcat(a: Layout, b: Layout, i: nat)
    requires i <= |b|
    ensures Pos(a + b, |a| + i) == Total(a) + Pos(b, i)
  {
    if i == 0 {
      assert (a + b)[..|a|] == a[..|a|];
      PosOfPrefix(a + b, a, |a|);
    } else {
      PosConcat(a, b, i - 1);
    }
  }

  lemma {:induction false} PosOrder(l: Layout, i: nat, j: nat)
    requires i < j <= |l|
    ensures Pos(l, i) + 1 + l[i].size <= Pos(l, j)
  {
    if j > i + 1 { PosOrder(l, i, j - 1); }
  }

  lemma TotalConcat(a: Layout, b: Layout)
    ensures Total(a + b) == Total(a) + Total(b)
  {
    PosConcat(a, b, |b|);
  }

  lemma TotalSplit(l: Layout, i: nat)
    requires i <= |l|
    ensures Total(l) == Total(l[..i]) + Total(l[i..]) && Pos(l, i) == Total(l[..i])
  {
    assert l == l[..i] + l[i..];
    TotalConcat(l[..i], l[i..]);
    PosConcat(l[..i], l[i..], 0);
  }

  lemma TotalTwo(a: Block, b: Block)
    ensures Total([a]) == 1 + a.size && Total([a, b]) == 2 + a.size + b.size
  {
    assert Pos([a], 0) == 0 && Pos([a], 1) == 1 + a.size;
    assert Pos([a, b], 1) == 1 + a.size;
  }

  // ---- Allocation ----

  lemma TakeTotal(l: Layout, i: nat, g: nat)
    requires i < |l| && l[i].size >= g
    ensures Total(Take(l, i, g)) == Total(l)
  {
    TotalSplit(l, i);
    TotalSplit(l[i..], 1);
    assert l[i..][1..] == l[i + 1..] && l[i..][..1] == [l[i]];
    TotalTwo(l[i], l[i]);
    if g + 2 <= l[i].size {
      var a, b := Block(false, g), Block(true, l[i].size - g - 1);
      TotalTwo(a, b);
      TotalConcat(l[..i] + [a, b], l[i + 1..]);
      TotalConcat(l[..i], [a, b]);
    } else {
      var u := Block(false, l[i].size);
      TotalTwo(u, u);
      assert l[i := u] == l[..i] + [u] + l[i + 1..];
      TotalConcat(l[..i] + [u], l[i + 1..]);
      TotalConcat(l[..i], [u]);
    }
  }

  lemma AllocTiles(l: Layout, req: nat, n: nat)
    requires Tiles(l, n)
    ensures Tiles(Alloc(l, req).0, n)
  {
    var g := Granules(req);
    var i := FirstFitting(l, g);
    if req != 0 && i < |l| {
      TakeTotal(l, i, g);
      var r := Take(l, i, g);
      forall k | 0 <= k < |r| - 1 ensures !(r[k].free && r[k + 1].free) {
        if g + 2 <= l[i].size && k > i { assert r[k] == (if k == i + 1 then r[i + 1] else l[k - 1]) && r[k + 1] == l[k]; }
      }
    }
  }

  // ---- Coalescing ----

  lemma {:induction false} CoalesceTotal(l: Layout)
    ensures Total(Coalesce(l)) == Total(l) && (l != [] ==> Coalesce(l) != [])
    decreases |l|
  {
    if |l| >= 2 {
      if l[0].free && l[1].free {
        var m := Block(true, l[0].size + 1 + l[1].size);
        CoalesceTotal([m] + l[2..]);
        TotalConcat([m], l[2..]);
        TotalSplit(l, 2);
        assert l[..2] == [l[0], l[1]];
        TotalTwo(l[0], l[1]);
        TotalTwo(m, m);
      } else {
        CoalesceTotal(l[1..]);
        TotalConcat([l[0]], Coalesce(l[1..]));
        TotalSplit(l, 1);
        assert l[..1] == [l[0]];
      }
    }
  }

  lemma {:induction false} CoalesceSeparates(l: Layout)
    ensures NoAdjacentFree(Coalesce(l))
    ensures l != [] && !l[0].free ==> Coalesce(l) != [] && Coalesce(l)[0] == l[0]
    decreases |l|
  {
    if |l| >= 2 {
      if l[0].free && l[1].free {
        CoalesceSeparates([Block(true, l[0].size + 1 + l[1].size)] + l[2..]);
      } else {
        CoalesceSeparates(l[1..]);
        CoalesceTotal(l[1..]);
        var c := Coalesce(l[1..]);
        if l[0].free { assert l[1..][0] == l[1] && c[0] == l[1]; }
      }
    }
  }

  lemma {:induction false} CoalesceIdle(l: Layout)
    requires NoAdjacentFree(l)
    ensures Coalesce(l) == l
  {
    if |l| >= 2 {
      assert forall i :: 0 <= i < |l[1..]| ==> l[1..][i] == l[i + 1];
      CoalesceIdle(l[1..]);
    }
  }

  lemma FreeTiles(l: Layout, h: nat, n: nat)
    requires Tiles(l, n)
    ensures Tiles(Free(l, h), n)
  {
    var i := BlockAt(l, h);
    if i < |l| {
      var f := l[i := Block(true, l[i].size)];
      SameSizes(l, f, |l|);
      CoalesceTotal(f);
      CoalesceSeparates(f);
    }
  }

  lemma {:induction false} SameSizes(a: Layout, b: Layout, i: nat)
    requires |a| == |b| && i <= |a| && forall k :: 0 <= k < |a| ==> a[k].size == b[k].size
    ensures Pos(a, i) == Pos(b, i)
  {
    if i > 0 { SameSizes(a, b, i - 1); }
  }

  // ---- Live blocks ----

  /** The used blocks of a layout that starts at granule `at`: header and size, in order of address. */
  function Live(l: Layout, at: nat): seq<(nat, nat)> {
    if l == [] then []
    else (if l[0].free then [] else [(at, l[0].size)]) + Live(l[1..], at + 1 + l[0].size)
  }

  /** The live blocks without the one at header h. */
  function Except(u: seq<(nat, nat)>, h: nat): seq<(nat, nat)> {
    if u == [] then [] else (if u[0].0 == h then [] else [u[0]]) + Except(u[1..], h)
  }

  lemma {:induction false} LiveConcat(a: Layout, b: Layout, at: nat)
    ensures Live(a + b, at) == Live(a, at) + Live(b, at + Total(a))
  {
    if a == [] {
      assert a + b == b;
    } else {
      assert (a + b)[1..] == a[1..] + b;
      LiveConcat(a[1..], b, at + 1 + a[0].size);
      TotalSplit(a, 1);
      assert a[..1] == [a[0]];
      TotalTwo(a[0], a[0]);
    }
  }

  function One(x: Block, at: nat): seq<(nat, nat)> { if x.free then [] else [(at, x.size)] }

  lemma LiveParts(a: Layout, x: Block, b: Layout)
    ensures Live(a + [x] + b, 0) == Live(a, 0) + One(x, Total(a)) + Live(b, Total(a) + 1 + x.size)
  {
    hide Pos;
    assert a + [x] + b == a + ([x] + b);
    LiveConcat(a, [x] + b, 0);
    assert ([x] + b)[1..] == b;
  }

  lemma LiveSplit(l: Layout, i: nat)
    requires i < |l|
    ensures Live(l, 0) == Live(l[..i], 0) + One(l[i], Pos(l, i)) + Live(l[i + 1..], Pos(l, i) + 1 + l[i].size)
  {
    hide Pos, Live, One;
    assert l == l[..i] + [l[i]] + l[i + 1..];
    LiveParts(l[..i], l[i], l[i + 1..]);
    TotalSplit(l, i);
  }

  lemma {:induction false} LiveRange(l: Layout, at: nat)
    ensures forall k :: 0 <= k < |Live(l, at)| ==> at <= Live(l, at)[k].0 && Live(l, at)[k].0 + 1 + Live(l, at)[k].1 <= at + Total(l)
    ensures forall j, k :: 0 <= j < k < |Live(l, at)| ==> Live(l, at)[j].0 + 1 + Live(l, at)[j].1 <= Live(l, at)[k].0
  {
    if l != [] {
      LiveRange(l[1..], at + 1 + l[0].size);
      TotalSplit(l, 1);
      assert l[..1] == [l[0]];
      TotalTwo(l[0], l[0]);
    }
  }

  lemma {:induction false} ExceptConcat(a: seq<(nat, nat)>, b: seq<(nat, nat)>, h: nat)
    ensures Except(a + b, h) == Except(a, h) + Except(b, h)
  {
    if a == [] {
      assert a + b == b;
    } else {
      assert (a + b)[1..] == a[1..] + b;
      ExceptConcat(a[1..], b, h);
    }
  }

  lemma {:induction false} ExceptAbsent(u: seq<(nat, nat)>, h: nat)
    requires forall k :: 0 <= k < |u| ==> u[k].0 != h
    ensures Except(u, h) == u
  {
    if u != [] { ExceptAbsent(u[1..], h); }
  }

  lemma {:induction false} CoalesceLive(l: Layout, at: nat)
    ensures Live(Coalesce(l), at) == Live(l, at)
    decreases |l|
  {
    if |l| >= 2 {
      if l[0].free && l[1].free {
        var m := Block(true, l[0].size + 1 + l[1].size);
        CoalesceLive([m] + l[2..], at);
        assert ([m] + l[2..])[1..] == l[2..] && l[1..][1..] == l[2..];
      } else {
        CoalesceLive(l[1..], at + 1 + l[0].size);
        assert ([l[0]] + Coalesce(l[1..]))[1..] == Coalesce(l[1..]);
      }
    }
  }

  /**
   * An allocation adds one live block and moves none. The block holds the bytes asked for with less than a granule
   * to spare, or is the whole free block if what was left could not hold a header and a granule.
   */
  lemma AllocLive(l: Layout, req: nat)
    requires Alloc(l, req).1.Some?
    ensures var (r, h) := Alloc(l, req);
      var i := FirstFitting(l, Granules(req));
      var size := r[i].size;
      && req <= 16 * size && !r[i].free
      && (if 16 * l[i].size < req + 32 then size == l[i].size else 16 * size < req + 16)
      && Live(r, 0) == Live(l[..i], 0) + [(h.value, size)] + Live(l[i + 1..], h.value + 1 + l[i].size)
      && Live(l, 0) == Live(l[..i], 0) + Live(l[i + 1..], h.value + 1 + l[i].size)
  {
    hide Pos, Live;
    var g := Granules(req);
    var i := FirstFitting(l, g);
    var (r, h) := Alloc(l, req);
    LiveSplit(l, i);
    LiveSplit(r, i);
    assert r[..i] == l[..i];
    PosOfPrefix(r, l, i);
    if g + 2 <= l[i].size {
      assert r[i + 1..] == [Block(true, l[i].size - g - 1)] + l[i + 1..];
      LiveOfFree(l[i].size - g - 1, l[i + 1..], h.value + 1 + g);
    } else {
      assert r[i + 1..] == l[i + 1..];
    }
  }

  lemma LiveOfFree(size: nat, b: Layout, at: nat)
    ensures Live([Block(true, size)] + b, at) == Live(b, at + 1 + size)
  {
    assert ([Block(true, size)] + b)[1..] == b;
  }

  /** The live blocks below and above block i. */
  function Before(l: Layout, i: nat): seq<(nat, nat)>
    requires i < |l|
  {
    Live(l[..i], 0)
  }

  function Behind(l: Layout, i: nat): seq<(nat, nat)>
    requires i < |l|
  {
    Live(l[i + 1..], Pos(l, i) + 1 + l[i].size)
  }

  lemma LiveApart(l: Layout, i: nat)
    requires i < |l|
    ensures forall k :: 0 <= k < |Before(l, i)| ==> Before(l, i)[k].0 != Pos(l, i)
    ensures forall k :: 0 <= k < |Behind(l, i)| ==> Behind(l, i)[k].0 != Pos(l, i)
  {
    hide Pos, Live;
    TotalSplit(l, i);
    LiveRange(l[..i], 0);
    LiveRange(l[i + 1..], Pos(l, i) + 1 + l[i].size);
  }

  lemma LiveFreed(l: Layout, i: nat)
    requires i < |l|
    ensures Live(l[i := Block(true, l[i].size)], 0) == Before(l, i) + Behind(l, i)
  {
    hide Pos, Live;
    var f := l[i := Block(true, l[i].size)];
    LiveSplit(f, i);
    assert f[..i] == l[..i] && f[i + 1..] == l[i + 1..];
    PosOfPrefix(f, l, i);
  }

  /** A free removes exactly the live block at that header, if there is one. */
  lemma FreeLive(l: Layout, h: nat)
    ensures Live(Free(l, h), 0) == Except(Live(l, 0), h)
  {
    hide Pos, Live, Before, Behind, Except, Coalesce;
    var i := BlockAt(l, h);
    if i == |l| {
      LiveHeaders(l, 0);
      forall k | 0 <= k < |Live(l, 0)| ensures Live(l, 0)[k].0 != h { assert HasHeader(l, 0, Live(l, 0)[k].0); }
      ExceptAbsent(Live(l, 0), h);
    } else {
      CoalesceLive(l[i := Block(true, l[i].size)], 0);
      LiveFreed(l, i);
      LiveApart(l, i);
      LiveAround(l, i);
      ExceptMiddle(Before(l, i), One(l[i], h), Behind(l, i), h);
    }
  }

  lemma LiveAround(l: Layout, i: nat)
    requires i < |l|
    ensures Live(l, 0) == Before(l, i) + One(l[i], Pos(l, i)) + Behind(l, i)
  {
    hide Pos, Live, One;
    LiveSplit(l, i);
  }

  lemma ExceptMiddle(a: seq<(nat, nat)>, mid: seq<(nat, nat)>, b: seq<(nat, nat)>, h: nat)
    requires forall k :: 0 <= k < |a| ==> a[k].0 != h
    requires forall k :: 0 <= k < |b| ==> b[k].0 != h
    requires mid == [] || (|mid| == 1 && mid[0].0 == h)
    ensures Except(a + mid + b, h) == a + b
  {
    assert mid != [] ==> mid[1..] == [];
    assert Except(mid, h) == [];
    ExceptAbsent(a, h);
    ExceptAbsent(b, h);
    hide Except;
    ExceptConcat(a, mid, h);
    assert a + [] == a;
    ExceptConcat(a + mid, b, h);
  }

  ghost predicate HasHeader(l: Layout, at: nat, h: nat) {
    exists j :: 0 <= j < |l| && at + Pos(l, j) == h
  }

  lemma {:induction false} LiveHeaders(l: Layout, at: nat)
    ensures forall k :: 0 <= k < |Live(l, at)| ==> HasHeader(l, at, Live(l, at)[k].0)
  {
    if l != [] {
      var next := at + 1 + l[0].size;
      LiveHeaders(l[1..], next);
      forall h | HasHeader(l[1..], next, h) ensures HasHeader(l, at, h) {
        var j :| 0 <= j < |l[1..]| && next + Pos(l[1..], j) == h;
        TailPos(l, j);
        assert at + Pos(l, j + 1) == h;
      }
      assert at + Pos(l, 0) == at;
      assert HasHeader(l, at, at);
    }
  }

  lemma TailPos(l: Layout, j: nat)
    requires l != [] && j <= |l[1..]|
    ensures Pos(l, j + 1) == 1 + l[0].size + Pos(l[1..], j)
  {
    assert l == [l[0]] + l[1..];
    PosConcat([l[0]], l[1..], j);
    TotalTwo(l[0], l[0]);
  }

  // ---- What freeing undoes ----

  lemma {:induction false} CoalesceMerges(a: Layout, x: nat, y: nat, b: Layout)
    requires NoAdjacentFree(a + [Block(true, x + 1 + y)] + b)
    ensures Coalesce(a + [Block(true, x), Block(true, y)] + b) == a + [Block(true, x + 1 + y)] + b
    decreases |a|
  {
    var two, m := [Block(true, x), Block(true, y)], Block(true, x + 1 + y);
    var l := a + two + b;
    if a == [] {
      assert l == two + b && l[2..] == b;
      assert a + [m] + b == [m] + b;
      CoalesceIdle([m] + b);
    } else {
      var r := a + [m] + b;
      assert l[1..] == a[1..] + two + b && r[1..] == a[1..] + [m] + b;
      assert !(r[0].free && r[1].free);
      assert l[1].free == r[1].free;
      assert forall i :: 0 <= i < |r[1..]| ==> r[1..][i] == r[i + 1];
      CoalesceMerges(a[1..], x, y, b);
    }
  }

  lemma BlockAtPos(l: Layout, i: nat)
    requires i < |l|
    ensures BlockAt(l, Pos(l, i)) == i
  {
    var j := BlockAt(l, Pos(l, i));
    if j < i { PosOrder(l, j, i); }
  }

  /** Freeing what was just allocated restores the exact layout. */
  lemma FreeUndoesAlloc(l: Layout, req: nat, n: nat)
    requires Tiles(l, n) && Alloc(l, req).1.Some?
    ensures Free(Alloc(l, req).0, Alloc(l, req).1.value) == l
  {
    hide Pos, Total;
    var g := Granules(req);
    var i := FirstFitting(l, g);
    var (r, h) := Alloc(l, req);
    assert r[..i] == l[..i];
    PosOfPrefix(r, l, i);
    BlockAtPos(r, i);
    var f := r[i := Block(true, r[i].size)];
    var a, b := l[..i], l[i + 1..];
    assert l == a + [l[i]] + b && l[i] == Block(true, l[i].size);
    if g + 2 <= l[i].size {
      assert f == a + [Block(true, g), Block(true, l[i].size - g - 1)] + b;
      CoalesceMerges(a, g, l[i].size - g - 1, b);
    } else {
      assert f == l;
      CoalesceIdle(l);
    }
  }

  /** Frees in any order. */
  function FreeAll(l: Layout, hs: seq<nat>): Layout
    decreases |hs|
  {
    if hs == [] then l else FreeAll(Free(l, hs[0]), hs[1..])
  }

  lemma {:induction false} FreeAllTiles(l: Layout, hs: seq<nat>, n: nat)
    requires Tiles(l, n)
    ensures Tiles(FreeAll(l, hs), n)
    decreases |hs|
  {
    if hs != [] {
      FreeTiles(l, hs[0], n);
      FreeAllTiles(Free(l, hs[0]), hs[1..], n);
    }
  }

  lemma {:induction false} ExceptMembers(u: seq<(nat, nat)>, h: nat)
    ensures forall x :: x in Except(u, h) <==> x in u && x.0 != h
  {
    if u != [] {
      ExceptMembers(u[1..], h);
      assert u == [u[0]] + u[1..];
    }
  }

  lemma {:induction false} FreeAllLive(l: Layout, hs: seq<nat>)
    ensures forall x :: x in Live(FreeAll(l, hs), 0) <==> x in Live(l, 0) && x.0 !in hs
    decreases |hs|
  {
    if hs != [] {
      FreeLive(l, hs[0]);
      ExceptMembers(Live(l, 0), hs[0]);
      FreeAllLive(Free(l, hs[0]), hs[1..]);
      assert forall h :: h in hs <==> h == hs[0] || h in hs[1..];
    }
  }

  lemma {:induction false} AllFree(l: Layout, at: nat)
    requires Live(l, at) == []
    ensures forall i :: 0 <= i < |l| ==> l[i].free
  {
    if l != [] {
      AllFree(l[1..], at + 1 + l[0].size);
      assert forall i :: 1 <= i < |l| ==> l[i] == l[1..][i - 1];
    }
  }

  /** Freeing every live block, in any order and with any other frees between, leaves one block of the whole heap. */
  lemma FreeingAllRestores(l: Layout, hs: seq<nat>, n: nat)
    requires Tiles(l, n) && forall x :: x in Live(l, 0) ==> x.0 in hs
    ensures n > 0 && FreeAll(l, hs) == Initial(n)
  {
    var r := FreeAll(l, hs);
    var live := Live(r, 0);
    assert |live| > 0 ==> live[0] in live;
    FreeAllTiles(l, hs, n);
    assert |r| >= 2 ==> !(r[0].free && r[1].free);
    FreeAllLive(l, hs);
    AllFree(r, 0);
    TotalTwo(r[0], r[0]);
    assert r == [r[0]];
  }

  // ---- Statistics ----

  function FreeCount(l: Layout): nat { if l == [] then 0 else (if l[0].free then 1 else 0) + FreeCount(l[1..]) }

  function UsedCount(l: Layout): nat { if l == [] then 0 else (if l[0].free then 0 else 1) + UsedCount(l[1..]) }

  function TotalFree(l: Layout): nat { if l == [] then 0 else (if l[0].free then l[0].size else 0) + TotalFree(l[1..]) }

  function LargestFree(l: Layout): nat {
    if l == [] then 0 else Max(if l[0].free then l[0].size else 0, LargestFree(l[1..]))
  }

  function Payload(l: Layout): nat { if l == [] then 0 else l[0].size + Payload(l[1..]) }

  lemma {:induction false} CountBound(l: Layout)
    ensures FreeCount(l) + UsedCount(l) == |l|
  {
    if l != [] { CountBound(l[1..]); }
  }

  /** Between two free blocks lies a used one. */
  lemma {:induction false} FreeCountBound(l: Layout)
    requires NoAdjacentFree(l)
    ensures 2 * FreeCount(l) <= |l| + 1
    ensures l != [] && !l[0].free ==> 2 * FreeCount(l) <= |l|
  {
    if l != [] {
      assert forall i :: 0 <= i < |l[1..]| ==> l[1..][i] == l[i + 1];
      FreeCountBound(l[1..]);
    }
  }

  lemma {:induction false} TotalBound(l: Layout)
    ensures TotalFree(l) <= LargestFree(l) * FreeCount(l)
  {
    if l != [] {
      TotalBound(l[1..]);
      var largest, rest, count := LargestFree(l), LargestFree(l[1..]), FreeCount(l[1..]);
      MulOrder(count, rest, largest);
      assert largest * (1 + count) == largest + largest * count;
    }
  }

  /** Fragmentation: at most one more free block than used, so the largest free block is not too small. */
  lemma FragmentationBound(l: Layout, n: nat)
    requires Tiles(l, n)
    ensures FreeCount(l) <= UsedCount(l) + 1
    ensures LargestFree(l) * (UsedCount(l) + 1) >= TotalFree(l)
  {
    CountBound(l);
    FreeCountBound(l);
    TotalBound(l);
    MulOrder(LargestFree(l), FreeCount(l), UsedCount(l) + 1);
  }

  lemma {:induction false} LargestDecides(l: Layout, g: nat)
    requires g > 0
    ensures FirstFitting(l, g) == |l| <==> LargestFree(l) < g
  {
    if l != [] { LargestDecides(l[1..], g); }
  }

  /** A request fails exactly when it is empty or the largest free block is too small; otherwise the lowest fit serves it. */
  lemma AllocExact(l: Layout, req: nat)
    ensures Alloc(l, req).1.None? <==> req == 0 || 16 * LargestFree(l) < req
    ensures Alloc(l, req).1.None? ==> Alloc(l, req).0 == l
    ensures var i := FirstFitting(l, Granules(req)); Alloc(l, req).1.Some? ==>
      && i < |l| && Alloc(l, req).1.value == Pos(l, i) && l[i].free && req <= 16 * l[i].size
      && forall k :: 0 <= k < i && l[k].free ==> 16 * l[k].size < req
  {
    if req > 0 { LargestDecides(l, Granules(req)); }
  }

  lemma {:induction false} PayloadSum(l: Layout)
    ensures Payload(l) + |l| == Total(l)
  {
    if l != [] {
      PayloadSum(l[1..]);
      TailPos(l, |l| - 1);
    }
  }

  /** Granules of payload in live blocks. */
  function Sizes(live: seq<(nat, nat)>): nat { if live == [] then 0 else live[0].1 + Sizes(live[1..]) }

  lemma {:induction false} LiveSum(l: Layout, at: nat)
    ensures TotalFree(l) + Sizes(Live(l, at)) == Payload(l) && |Live(l, at)| == UsedCount(l)
  {
    if l != [] {
      LiveSum(l[1..], at + 1 + l[0].size);
      assert (if l[0].free then Live(l, at) else Live(l, at)[1..]) == Live(l[1..], at + 1 + l[0].size);
    }
  }

  /** The free bytes are the heap without 16 bytes for each block and without what is live; the other blocks are free ones. */
  lemma FreeIsRest(l: Layout, n: nat)
    requires Tiles(l, n)
    ensures 16 * TotalFree(l) == 16 * n - 16 * |l| - 16 * Sizes(Live(l, 0))
    ensures FreeCount(l) == |l| - |Live(l, 0)|
  {
    LiveSum(l, 0);
    PayloadSum(l);
    CountBound(l);
  }

  /** Payload bytes and 16 bytes for each block add up to the heap. */
  lemma Conservation(l: Layout, n: nat)
    requires Tiles(l, n)
    ensures 16 * Payload(l) + 16 * |l| == 16 * n
  {
    PayloadSum(l);
  }

  // ---- Runs ----

  datatype Call = AllocCall(req: nat) | FreeCall(h: nat)

  function Step(l: Layout, c: Call): Layout {
    match c
    case AllocCall(req) => Alloc(l, req).0
    case FreeCall(h) => Free(l, h)
  }

  function Run(l: Layout, calls: seq<Call>): Layout
    decreases |calls|
  {
    if calls == [] then l else Run(Step(l, calls[0]), calls[1..])
  }

  lemma {:induction false} RunTiles(l: Layout, calls: seq<Call>, n: nat)
    requires Tiles(l, n)
    ensures Tiles(Run(l, calls), n)
    decreases |calls|
  {
    if calls != [] {
      match calls[0] {
        case AllocCall(req) => AllocTiles(l, req, n);
        case FreeCall(h) => FreeTiles(l, h, n);
      }
      RunTiles(Step(l, calls[0]), calls[1..], n);
    }
  }

  /** After any calls: the blocks tile the heap, no two free ones touch, live payloads are apart, bounds and sums hold. */
  lemma ReachableHeap(calls: seq<Call>, n: nat)
    requires n > 0
    ensures var l := Run(Initial(n), calls);
      && Tiles(l, n)
      && (forall j, k :: 0 <= j < k < |Live(l, 0)| ==> Live(l, 0)[j].0 + 1 + Live(l, 0)[j].1 <= Live(l, 0)[k].0)
      && (forall k :: 0 <= k < |Live(l, 0)| ==> Live(l, 0)[k].0 + 1 + Live(l, 0)[k].1 <= n)
      && FreeCount(l) <= UsedCount(l) + 1
      && LargestFree(l) * (UsedCount(l) + 1) >= TotalFree(l)
      && 16 * TotalFree(l) + 16 * Sizes(Live(l, 0)) + 16 * |l| == 16 * n
  {
    TotalTwo(Initial(n)[0], Initial(n)[0]);
    RunTiles(Initial(n), calls, n);
    var l := Run(Initial(n), calls);
    LiveRange(l, 0);
    FragmentationBound(l, n);
    FreeIsRest(l, n);
  }
}
