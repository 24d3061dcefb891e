/**
 * The table builder and the guard pages as they run: fixed arrays filled and patched in place.
 *
 * Every method is proved to take `Contents()` where the functions of PageTables say.
 */
module Mmu {
  import opened Prelude
  import opened PageTables

  class TranslationTables {
    const cfg: Config
    const l0: array<bv64>
    const l1: array<bv64>
    const l2: array<bv64>
    const l3: seq<array<bv64>>  // g_l3_dma0, g_l3_dma1, then g_l3_extra
    var next: nat               // g_l3_extra_next
    var on: bool                // SCTLR_EL1.M

    ghost predicate Valid()
      reads this
    {
      && l0.Length == 512 && l1.Length == 512 && l2.Length == 512
      && |l3| == 2 + EXTRA_TABLES && |cfg.l3| == 2 + EXTRA_TABLES && next <= EXTRA_TABLES
      && (forall j :: 0 <= j < |l3| ==> l3[j].Length == 512 && l3[j] != l0 && l3[j] != l1 && l3[j] != l2)
      && l0 != l1 && l0 != l2 && l1 != l2
      && (forall i, j :: 0 <= i < j < |l3| ==> l3[i] != l3[j])
    }

    ghost function Contents(): Tables
      reads this, l0, l1, l2, l3
    {
      Tables(l0[..], l1[..], l2[..], seq(|l3|, j requires 0 <= j < |l3| reads l3 => l3[j][..]), next)
    }

    // ---- ensure_l3_for_ram_block and mmu_guard_page ----

    method FillSplit(t: array<bv64>, i: bv64, e: bv64)
      requires t.Length == 512
      modifies t
      ensures t[..] == SplitTable(i, e)
    {
      hide SplitPage;
      var p := 0;
      while p < 512
        invariant p <= 512
        invariant forall k :: 0 <= k < p ==> t[k] == SplitPage(i, e, k as bv64)
      {
        t[p] := SplitPage(i, e, p as bv64);
        p := p + 1;
      }
    }

    method EnsureL3ForRamBlock(i: bv64) returns (a: Option<bv64>)
      requires Valid()
      modifies this, l2, l3
      ensures Valid() && on == old(on)
      ensures (Contents(), a) == EnsureL3(cfg, old(Contents()), i)
    {
      hide SplitTable, PteTable, NextTable;
      if i >= 512 { return None; }
      Entry(i);
      var e := l2[i as nat];
      assert e == At(l2[..], i);
      if e & 3 == 3 { return Some(NextTable(e)); }
      if e & 3 != 1 { return None; }
      if next >= EXTRA_TABLES { return None; }
      ghost var was := Contents();
      var j := 2 + next;
      next := next + 1;
      FillSplit(l3[j], i, e);
      l2[i as nat] := PteTable(cfg.l3[j]);
      assert Contents().l3 == was.l3[j := SplitTable(i, e)];
      assert Contents().l2 == Set(was.l2, i, PteTable(cfg.l3[j]));
      return Some(cfg.l3[j]);
    }

    method MmuGuardPage(addr: bv64) returns (r: int)
      requires Valid()
      modifies this, l2, l3
      ensures Valid() && on == old(on)
      ensures (Contents(), r) == GuardPage(cfg, old(Contents()), on, addr)
    {
      hide EnsureL3, Page, InRam, L2IndexOf, L3IndexOf;
      if addr == 0 { return -1; }
      if !on { return -1; }
      var va := Page(addr);
      if !InRam(va) { return -1; }
      var a := EnsureL3ForRamBlock(L2IndexOf(va));
      if a.None? { return -1; }
      Invalidate(a.value, L3IndexOf(va));
      return 0;
    }

    /** Clears entry p of the level-3 table at address a. */
    method Invalidate(a: bv64, p: bv64)
      requires Valid()
      modifies l3
      ensures Contents() == WriteL3(cfg, old(Contents()), a, p, 0)
    {
      var j := IndexOf(cfg.l3, a);
      if j < |l3| && p as nat < 512 {
        ghost var was := Contents();
        l3[j][p as nat] := 0;
        assert Contents().l3 == was.l3[j := Set(was.l3[j], p, 0)];
      } else {
        assert j < |l3| ==> Contents().l3[j := Set(Contents().l3[j], p, 0)] == Contents().l3;
      }
    }

    // ---- build_identity_map ----

    method Clear(t: array<bv64>)
      requires t.Length == 512
      modifies t
      ensures t[..] == Zeros()
    {
      var i := 0;
      while i < 512
        invariant i <= 512
        invariant forall k :: 0 <= k < i ==> t[k] == 0
      {
        t[i] := 0;
        i := i + 1;
      }
    }

    method ClearAll()
      requires Valid()
      modifies l0, l1, l2, l3
      ensures l0[..] == Zeros() && l1[..] == Zeros() && l2[..] == Zeros()
      ensures forall j :: 0 <= j < |l3| ==> l3[j][..] == Zeros()
    {
      hide Zeros;
      Clear(l0);
      Clear(l1);
      Clear(l2);
      var j := 0;
      while j < |l3|
        invariant j <= |l3|
        invariant l0[..] == Zeros() && l1[..] == Zeros() && l2[..] == Zeros()
        invariant forall k :: 0 <= k < j ==> l3[k][..] == Zeros()
      {
        Clear(l3[j]);
        j := j + 1;
      }
    }

    method FillBlocks()
      requires Valid()
      modifies l2
      ensures l2[..] == Filled(i => PteBlock(BlockBase(i), 0, 3))
    {
      hide PteBlock, BlockBase;
      var i := 0;
      while i < 512
        invariant i <= 512
        invariant forall k :: 0 <= k < i ==> l2[k] == PteBlock(BlockBase(k as bv64), 0, 3)
      {
        l2[i] := PteBlock(BlockBase(i as bv64), 0, 3);
        i := i + 1;
      }
    }

    method FillWindow(t: array<bv64>, base: bv64)
      requires t.Length == 512
      modifies t
      ensures t[..] == CarvedTable(cfg, base)
    {
      hide WindowEntry, PageIn;
      var i := 0;
      while i < 512
        invariant i <= 512
        invariant forall k :: 0 <= k < i ==> t[k] == WindowEntry(cfg, PageIn(base, k as bv64))
      {
        t[i] := WindowEntry(cfg, PageIn(base, i as bv64));
        i := i + 1;
      }
    }

    /** Gives the block of the window at `base` a table of its own; the table is number t. */
    method CarveBlock(t: nat, base: bv64)
      requires Valid() && t < 2 && BlockIndex(base) < 512
      modifies l2, l3
      ensures l2[..] == Set(old(l2[..]), BlockIndex(base), PteTable(cfg.l3[t]))
      ensures l3[t][..] == CarvedTable(cfg, base)
      ensures forall j :: 0 <= j < |l3| && j != t ==> l3[j][..] == old(l3[j][..])
    {
      hide CarvedTable, PteTable, BlockIndex;
      FillWindow(l3[t], base);
      Entry(BlockIndex(base));
      l2[BlockIndex(base) as nat] := PteTable(cfg.l3[t]);
    }

    method FillTop()
      requires Valid() && l0[..] == Zeros() && l1[..] == Zeros()
      modifies l0, l1
      ensures l0[..] == Built(cfg).l0 && l1[..] == Built(cfg).l1
    {
      hide PteTable, DeviceBlock, AliasBlock, BuiltL2, CarvedTable, Zeros;
      l0[0] := PteTable(cfg.l1);
      l1[0] := DeviceBlock();
      l1[1] := PteTable(cfg.l2);
      l1[2] := AliasBlock();
    }

    method CarveWindow()
      requires Valid() && l2[..] == Filled(i => PteBlock(BlockBase(i), 0, 3))
      requires forall j :: 0 <= j < |l3| ==> l3[j][..] == Zeros()
      modifies l2, l3
      ensures l2[..] == BuiltL2(cfg)
      ensures forall j :: 0 <= j < |l3| ==> l3[j][..] == Built(cfg).l3[j]
    {
      hide CarvedTable, PteTable, BlockIndex, Zeros, PteBlock, BlockBase, FirstBlock, LastBlock, WindowInRam, Filled,
        DeviceBlock, AliasBlock;
      if Carves(cfg) {
        WindowEnds(cfg);
        CarveBlock(0, FirstBlock(cfg));
        if FirstBlock(cfg) != LastBlock(cfg) {
          CarveBlock(1, LastBlock(cfg));
        }
      }
    }

    method BuildIdentityMap()
      requires Valid()
      modifies this, l0, l1, l2, l3
      ensures Valid() && on == old(on)
      ensures Contents() == Built(cfg)
    {
      ClearAll();
      next := 0;
      FillTop();
      FillBlocks();
      CarveWindow();
      hide BuiltL2, CarvedTable, Zeros, Carves, PteTable, DeviceBlock, AliasBlock, Set, PteBlock;
      assert Contents().l3 == Built(cfg).l3;
    }

    /** mmu_init: builds the map and turns the MMU on, unless it is on already. */
    method MmuInit(enable: bool)
      requires Valid()
      modifies this, l0, l1, l2, l3
      ensures Valid() && on == (old(on) || enable)
      ensures Contents() == if enable && !old(on) then Built(cfg) else old(Contents())
    {
      if !enable { return; }
      if on { return; }
      BuildIdentityMap();
      on := true;
    }
  }
}
