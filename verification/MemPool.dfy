/**
 * The fixed-size pool: an intrusive list of free blocks whose links lie in the blocks themselves.
 *
 * Block n of a pool lies at base + n * blockSize; `words` holds the first word of every block. The word
 * of a free block is a list link; the word of a live block belongs to its client.
 */
module MemPool {
  import opened Prelude
  import opened Links
  import opened Alignment

  const WORD: nat := 0x1_0000_0000_0000_0000

  datatype Pool = Pool(base: nat, blockSize: nat, count: nat, words: seq<Link>, freeList: Link, freeCount: nat)

  // ---- Geometry ----

  datatype Geometry = Geometry(base: nat, blockSize: nat, count: nat)

  /** What mem_pool_init makes of the backing memory, or None where it fails; sums beyond 2^64 wrap to a failure. */
  function Carve(backing: nat, size: nat, blockSize: nat): Option<Geometry> {
    if backing == 0 || size == 0 || blockSize == 0 || blockSize < 8 then None
    else if backing + 15 >= WORD || blockSize + 15 >= WORD then None
    else
      var base := AlignUp(backing, 16);
      var lost := base - backing;
      if lost >= size then None
      else
        var block := AlignUp(blockSize, 16);
        var count := (size - lost) / block;
        if count == 0 then None else Some(Geometry(base, block, count))
  }

  /** The blocks are 16-aligned, big enough, and lie in the backing memory. */
  lemma CarveFits(backing: nat, size: nat, blockSize: nat)
    requires Carve(backing, size, blockSize).Some?
    ensures var g := Carve(backing, size, blockSize).value;
      && g.count > 0 && g.base > 0 && g.base % 16 == 0 && g.blockSize % 16 == 0 && g.blockSize >= blockSize
      && backing <= g.base && g.base + g.count * g.blockSize <= backing + size
  {
    var g := Carve(backing, size, blockSize).value;
    var usable := size - (g.base - backing);
    assert g.blockSize * (usable / g.blockSize) <= usable;
  }

  /** The least multiple of 16 that is not below a. */
  ghost predicate LeastMultiple(x: nat, a: nat) {
    x % 16 == 0 && a <= x < a + 16
  }

  /**
   * A pool is made if and only if there is backing memory, a block can hold a pointer, neither rounding wraps, and
   * one block fits behind the alignment gap; it then has every block that fits.
   */
  lemma CarveExact(backing: nat, size: nat, blockSize: nat, base: nat, block: nat)
    requires LeastMultiple(base, backing) && LeastMultiple(block, blockSize)
    ensures Carve(backing, size, blockSize).Some? <==>
      && backing > 0 && blockSize >= 8 && backing + 15 < WORD && blockSize + 15 < WORD
      && base + block <= backing + size
    ensures Carve(backing, size, blockSize).Some? ==>
      var g := Carve(backing, size, blockSize).value;
      g.base == base && g.blockSize == block
      && base + g.count * block <= backing + size < base + (g.count + 1) * block
  {
    if backing > 0 && blockSize >= 8 && base < backing + size {
      assert base == AlignUp(backing, 16) && block == AlignUp(blockSize, 16);
      AsManyAsFit(size - (base - backing), block);
    }
  }

  lemma AsManyAsFit(usable: nat, block: nat)
    requires block > 0
    ensures var count := usable / block; count * block <= usable < (count + 1) * block && (count == 0 <==> usable < block)
  {
    var count := usable / block;
    assert usable == block * count + usable % block;
    assert (count + 1) * block == block * count + block;
    if count > 0 { MulOrder(block, 1, count); }
  }

  function Address(s: Pool, n: nat): nat { s.base + n * s.blockSize }

  /** mem_pool_owns. */
  predicate Owns(s: Pool, p: nat) {
    if s.base == 0 || p == 0 || s.blockSize == 0 then false
    else if p < s.base || p >= s.base + s.count * s.blockSize then false
    else (p - s.base) % s.blockSize == 0
  }

  function Number(s: Pool, p: nat): nat
    requires s.blockSize > 0 && p >= s.base
  {
    (p - s.base) / s.blockSize
  }

  /** mem_pool_owns accepts exactly the block addresses. */
  lemma OwnsExact(s: Pool, p: nat)
    requires s.base > 0 && s.blockSize > 0
    ensures Owns(s, p) ==> Number(s, p) < s.count && p == Address(s, Number(s, p))
    ensures (exists n: nat :: n < s.count && p == Address(s, n)) ==> Owns(s, p)
  {
    if Owns(s, p) {
      var n := Number(s, p);
      assert p - s.base == s.blockSize * n;
      if n >= s.count { MulOrder(s.blockSize, s.count, n); }
    }
    forall n: nat | n < s.count && p == Address(s, n) ensures Owns(s, p) {
      MulOrder(s.blockSize, n + 1, s.count);
      Multiple(s.blockSize, n);
      assert p - s.base == s.blockSize * n;
    }
  }

  // ---- Allocation and free ----

  /** mem_pool_alloc, by block number. */
  function Take(s: Pool): (Pool, Option<nat>) {
    match s.freeList
    case None => (s, None)
    case Some(n) =>
      if n >= |s.words| then (s, None)
      else
        var left := if s.freeCount > 0 then s.freeCount - 1 else 0;
        (s.(freeList := s.words[n], freeCount := left, words := s.words[n := None]), Some(n))
  }

  /** The tests of mem_pool_free that need no walk of the list. */
  predicate Acceptable(s: Pool, p: nat) { p != 0 && Owns(s, p) && s.freeCount < s.count }

  function Push(s: Pool, n: nat): Pool
    requires n < |s.words|
  {
    s.(words := s.words[n := s.freeList], freeList := Some(n), freeCount := s.freeCount + 1)
  }

  /** mem_pool_free: with the debug check, a block already on the free list is refused. */
  function Free(s: Pool, free: seq<nat>, debug: bool, p: nat): (Pool, int)
    requires |s.words| == s.count && s.base > 0 && s.blockSize > 0
  {
    if !Acceptable(s, p) then (s, -1)
    else
      OwnsExact(s, p);
      var n := Number(s, p);
      if debug && n in free then (s, -1) else (Push(s, n), 0)
  }

  // ---- Invariant ----

  /** The links spell `free`; with `live` it partitions the blocks. */
  ghost predicate Good(s: Pool, free: seq<nat>, live: set<nat>) {
    && s.base > 0 && s.blockSize > 0 && |s.words| == s.count
    && Chain(s.words, s.freeList, free) && Distinct(free) && s.freeCount == |free|
    && (forall n: nat :: n < s.count ==> (n in live <==> n !in free))
    && (forall n :: n in live ==> n < s.count)
    && (forall i :: 0 <= i < |free| ==> free[i] < s.count)
  }

  /** The word of a live block is its client's to write. */
  lemma ClientWriteKeeps(s: Pool, free: seq<nat>, live: set<nat>, n: nat, x: Link)
    requires Good(s, free, live) && n in live
    ensures Good(s.(words := s.words[n := x]), free, live)
  {
    ChainFrame(s.words, s.words[n := x], s.freeList, free);
  }

  /** An allocation fails only when no block is free, and otherwise hands out a block that was not live. */
  lemma TakeKeeps(s: Pool, free: seq<nat>, live: set<nat>)
    requires Good(s, free, live)
    ensures Take(s).1.None? <==> free == []
    ensures free == [] ==> Take(s).0 == s
    ensures free != [] ==> Take(s).1 == Some(free[0]) && free[0] !in live && Good(Take(s).0, free[1..], live + {free[0]})
  {
    if free != [] {
      var r, n := Take(s).0, free[0];
      assert n in free && forall x :: x in free[1..] ==> x in free && x != n;
      ChainFrame(s.words, r.words, s.words[n], free[1..]);
      assert forall x :: x in free <==> x == n || x in free[1..];
    }
  }

  lemma PushKeeps(s: Pool, free: seq<nat>, live: set<nat>, n: nat)
    requires Good(s, free, live) && n < s.count && n !in free
    ensures Good(Push(s, n), [n] + free, live - {n})
  {
    var r := Push(s, n);
    ChainFrame(s.words, r.words, s.freeList, free);
    assert ([n] + free)[1..] == free;
  }

  /** With the debug check, any free at all keeps the invariant, and succeeds exactly on live blocks. */
  lemma DebugFreeKeeps(s: Pool, free: seq<nat>, live: set<nat>, p: nat)
    requires Good(s, free, live)
    ensures var (r, code) := Free(s, free, true, p);
      && (code == 0 || code == -1)
      && (code == -1 ==> r == s)
      && (code == 0 ==> Number(s, p) in live && Good(r, [Number(s, p)] + free, live - {Number(s, p)}))
      && (code == 0 <==> exists n :: n in live && p == Address(s, n))
  {
    OwnsExact(s, p);
    if Owns(s, p) {
      var n := Number(s, p);
      if n !in free {
        NotAllFree(s, free, n);
        PushKeeps(s, free, live, n);
        assert n in live && p == Address(s, n);
      } else {
        forall k | k in live ensures p != Address(s, k) { AddressesDistinct(s, n, k); }
      }
    } else {
      forall k | k in live ensures p != Address(s, k) { assert k < s.count; }
    }
  }

  lemma AddressesDistinct(s: Pool, n: nat, k: nat)
    requires s.blockSize > 0
    ensures Address(s, n) == Address(s, k) ==> n == k
  {
    if n < k { MulOrder(s.blockSize, n + 1, k); } else if k < n { MulOrder(s.blockSize, k + 1, n); }
  }

  /** While some block is not free the count of free ones is below the capacity. */
  lemma NotAllFree(s: Pool, free: seq<nat>, n: nat)
    requires Distinct(free) && n < s.count && n !in free && forall i :: 0 <= i < |free| ==> free[i] < s.count
    ensures |free| < s.count
  {
    Pigeonhole([n] + free, s.count);
  }

  // ---- Without the debug check ----

  lemma {:induction false} ChainUnique(next: seq<Link>, head: Link, a: seq<nat>, b: seq<nat>)
    requires Chain(next, head, a) && Chain(next, head, b)
    ensures a == b
    decreases |a|
  {
    if a != [] && b != [] { ChainUnique(next, next[a[0]], a[1..], b[1..]); }
  }

  /** A list that ends never leads back to its own head. */
  lemma HeadNotRevisited(next: seq<Link>, head: nat, q: seq<nat>, k: nat)
    requires Chain(next, Some(head), q) && 0 < k < |q|
    ensures q[k] != head
  {
    ChainAt(next, Some(head), q, k);
    assert q[k..][0] == q[k];
    if q[k] == head { ChainUnique(next, Some(head), q, q[k..]); }
  }

  /** Pushing a block already on the list closes a cycle: no finite list is spelled any more. */
  lemma {:induction false} DoublePushCycles(s: Pool, free: seq<nat>, n: nat, q: seq<nat>)
    requires Chain(s.words, s.freeList, free) && Distinct(free) && n in free && n < |s.words|
    ensures !Chain(Push(s, n).words, Some(n), q)
  {
    var words := Push(s, n).words;
    if Chain(words, Some(n), q) {
      var k :| 0 <= k < |free| && free[k] == n;
      FollowPrefix(s.words, words, s.freeList, free, n, k, q[1..]);
      HeadNotRevisited(words, n, q, k + 1);
    }
  }

  /** Up to the first n the changed links lead where the old ones did. */
  lemma {:induction false} FollowPrefix(was: seq<Link>, now: seq<Link>, head: Link, free: seq<nat>, n: nat, k: nat, q: seq<nat>)
    requires Chain(was, head, free) && Distinct(free) && k < |free| && free[k] == n && n < |was|
    requires |now| == |was| && (forall x :: 0 <= x < |was| && x != n ==> now[x] == was[x])
    requires Chain(now, head, q)
    ensures k < |q| && q[k] == n
    decreases k
  {
    if k > 0 {
      assert free[0] != n;
      FollowPrefix(was, now, was[free[0]], free[1..], n, k - 1, q[1..]);
    }
  }

  /**
   * Without the debug check a free keeps a proper list exactly when it is refused or the block is not free already;
   * refused it changes nothing, and a live block goes back to the head of the list.
   */
  lemma PlainFreeExact(s: Pool, free: seq<nat>, live: set<nat>, p: nat)
    requires Good(s, free, live)
    ensures var r := Free(s, free, false, p).0;
      (exists q, l :: Good(r, q, l)) <==> !Acceptable(s, p) || Number(s, p) !in free
    ensures var (r, code) := Free(s, free, false, p);
      && code == (if Acceptable(s, p) then 0 else -1)
      && (code == -1 ==> r == s)
      && (code == 0 && Number(s, p) !in free ==> Good(r, [Number(s, p)] + free, live - {Number(s, p)}))
  {
    OwnsExact(s, p);
    var r := Free(s, free, false, p).0;
    if !Acceptable(s, p) {
      assert Good(r, free, live);
    } else {
      var n := Number(s, p);
      if n !in free {
        PushKeeps(s, free, live, n);
        assert Good(r, [n] + free, live - {n});
      } else {
        forall q, l ensures !Good(r, q, l) { DoublePushCycles(s, free, n, q); }
      }
    }
  }

  /** Freed twice without the check, a block is handed out twice. */
  lemma DoubleFreeAliases(s: Pool, free: seq<nat>, live: set<nat>, n: nat)
    requires Good(s, free, live) && n in live && s.freeCount + 1 < s.count
    ensures var p := Address(s, n);
      var once := Free(s, free, false, p);
      var twice := Free(once.0, [n] + free, false, p);
      var first := Take(twice.0);
      once.1 == 0 && twice.1 == 0 && first.1 == Some(n) && Take(first.0).1 == Some(n)
  {
    OwnsExact(s, Address(s, n));
    AddressesDistinct(s, Number(s, Address(s, n)), n);
  }

  // ---- Runs with the debug check ----

  datatype Call = AllocCall | FreeCall(p: nat) | ClientWrite(n: nat, x: Link)

  /** A pool in use: the links, the free list they spell, and the blocks clients hold. */
  datatype Use = Use(pool: Pool, free: seq<nat>, live: set<nat>)

  ghost predicate Proper(u: Use) { Good(u.pool, u.free, u.live) }

  /** A client writes only the words of blocks it holds; a free may name any pointer. */
  predicate Allowed(u: Use, c: Call) { c.ClientWrite? ==> c.n in u.live }

  ghost function Step(u: Use, c: Call): Use
    requires Proper(u) && Allowed(u, c)
  {
    match c
    case AllocCall =>
      var (r, n) := Take(u.pool);
      if u.free == [] then u else Use(r, u.free[1..], u.live + {u.free[0]})
    case FreeCall(p) =>
      var (r, code) := Free(u.pool, u.free, true, p);
      if code == 0 then (OwnsExact(u.pool, p); Use(r, [Number(u.pool, p)] + u.free, u.live - {Number(u.pool, p)})) else u
    case ClientWrite(n, x) => Use(u.pool.(words := u.pool.words[n := x]), u.free, u.live)
  }

  lemma StepKeeps(u: Use, c: Call)
    requires Proper(u) && Allowed(u, c)
    ensures Proper(Step(u, c))
  {
    match c
    case AllocCall => TakeKeeps(u.pool, u.free, u.live);
    case FreeCall(p) => DebugFreeKeeps(u.pool, u.free, u.live, p);
    case ClientWrite(n, x) => ClientWriteKeeps(u.pool, u.free, u.live, n, x);
  }

  ghost predicate Runs(u: Use, calls: seq<Call>)
    requires Proper(u)
    decreases |calls|
  {
    calls == [] || (Allowed(u, calls[0]) && (StepKeeps(u, calls[0]); Runs(Step(u, calls[0]), calls[1..])))
  }

  ghost function After(u: Use, calls: seq<Call>): Use
    requires Proper(u) && Runs(u, calls)
    decreases |calls|
  {
    if calls == [] then u else StepKeeps(u, calls[0]); After(Step(u, calls[0]), calls[1..])
  }

  /** Every call sequence, with any wrong or repeated frees: list and live blocks partition the pool, the count is exact. */
  lemma {:induction false} RunKeeps(u: Use, calls: seq<Call>)
    requires Proper(u) && Runs(u, calls)
    ensures var r := After(u, calls);
      && Chain(r.pool.words, r.pool.freeList, r.free) && Distinct(r.free) && r.pool.freeCount == |r.free|
      && (forall n: nat :: n < r.pool.count ==> (n in r.live <==> n !in r.free))
      && Proper(r)
    decreases |calls|
  {
    if calls != [] {
      StepKeeps(u, calls[0]);
      RunKeeps(Step(u, calls[0]), calls[1..]);
    }
  }

  /** The free list mem_pool_init leaves: the last block first. */
  function Descending(n: nat): (q: seq<nat>)
    ensures |q| == n && forall i :: 0 <= i < n ==> q[i] == n - 1 - i
  {
    seq(n, i requires 0 <= i < n => n - 1 - i)
  }

  // ---- In memory ----

  class MemPool {
    const debug: bool
    var base: nat
    var blockSize: nat
    var count: nat
    var words: array<Link>  // the first word of each block of the backing memory
    var freeList: Link
    var freeCount: nat
    ghost var free: seq<nat>
    ghost var live: set<nat>

    function St(): Pool
      reads this, words
    {
      Pool(base, blockSize, count, words[..], freeList, freeCount)
    }

    ghost predicate Valid()
      reads this, words
    {
      Good(St(), free, live)
    }

    constructor (debug: bool)
      ensures this.debug == debug && fresh(words)
    {
      this.debug := debug;
      base, blockSize, count, freeList, freeCount, free, live := 0, 0, 0, None, 0, [], {};
      words := new Link[0];
    }

    method MemPoolInit(backing: nat, size: nat, block: nat) returns (r: int)
      modifies this
      ensures r == if Carve(backing, size, block).Some? then 0 else -1
      ensures r == -1 ==> unchanged(this)
      ensures r == 0 ==> Valid() && fresh(words) && free == Descending(count) && live == {}
      ensures r == 0 ==> Geometry(base, blockSize, count) == Carve(backing, size, block).value
    {
      var g := Carve(backing, size, block);
      if g.None? { return -1; }
      CarveFits(backing, size, block);
      base, blockSize, count, freeCount := g.value.base, g.value.blockSize, g.value.count, g.value.count;
      words := new Link[count];
      var head: Link := None;
      var i := 0;
      while i < count
        invariant i <= count && words.Length == count && fresh(words)
        invariant Chain(words[..], head, Descending(i))
        invariant base == g.value.base && blockSize == g.value.blockSize && count == g.value.count == freeCount
      {
        ghost var was := words[..];
        words[i] := head;
        assert words[..] == was[i := head];
        ChainFrame(was, words[..], head, Descending(i));
        head := Some(i);
        assert Descending(i + 1)[1..] == Descending(i);
        i := i + 1;
      }
      freeList := head;
      free, live := Descending(count), {};
      forall n: nat | n < count ensures n in free { assert free[count - 1 - n] == n; }
      return 0;
    }

    method MemPoolAlloc() returns (p: Option<nat>)
      requires Valid()
      modifies this, words
      ensures Valid() && words == old(words)
      ensures St() == Take(old(St())).0
      ensures p == (if old(free) == [] then None else Some(Address(old(St()), old(free)[0])))
      ensures old(free) == [] ==> free == old(free) && live == old(live)
      ensures old(free) != [] ==> free == old(free)[1..] && live == old(live) + {old(free)[0]} && old(free)[0] !in old(live)
    {
      TakeKeeps(St(), free, live);
      if freeList.None? { return None; }
      var n := freeList.value;
      ghost var was := words[..];
      freeList := words[n];
      if freeCount > 0 { freeCount := freeCount - 1; }
      words[n] := None;
      assert words[..] == was[n := None];
      free, live := free[1..], live + {free[0]};
      return Some(base + n * blockSize);
    }

    /** freelist_contains, by block number. */
    method FreelistContains(n: nat) returns (r: bool)
      requires Valid()
      ensures r == (n in free)
    {
      var it := freeList;
      ghost var k := 0;
      assert free[0..] == free;
      while it.Some?
        invariant k <= |free| && Chain(words[..], it, free[k..]) && n !in free[..k]
        decreases |free| - k
      {
        assert it.value == free[k];
        if it.value == n { return true; }
        assert free[..k + 1] == free[..k] + [free[k]] && free[k..][1..] == free[k + 1..];
        it := words[it.value];
        k := k + 1;
      }
      assert free[..k] == free;
      return false;
    }

    method MemPoolFree(p: nat) returns (r: int)
      requires Valid()
      modifies this, words
      ensures words == old(words)
      ensures (St(), r) == Free(old(St()), old(free), debug, p)
      ensures r == -1 ==> Valid() && free == old(free) && live == old(live)
      ensures r == 0 ==> var n := Number(old(St()), p); free == [n] + old(free) && live == old(live) - {n}
      ensures r == 0 && Number(old(St()), p) !in old(free) ==> Valid()
    {
      OwnsExact(St(), p);
      if p == 0 { return -1; }
      if !Owns(St(), p) { return -1; }
      if freeCount >= count { return -1; }
      var n := (p - base) / blockSize;
      if debug {
        var c := FreelistContains(n);
        if c { return -1; }
      }
      if n !in free { PushKeeps(St(), free, live, n); }
      ghost var was := words[..];
      words[n] := freeList;
      assert words[..] == was[n := freeList];
      freeList := Some(n);
      freeCount := freeCount + 1;
      free, live := [n] + free, live - {n};
      return 0;
    }
  }
}
