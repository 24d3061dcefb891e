/**
 * Translation tables: descriptors, the table walk, the map the builder makes and the guard pages.
 *
 * Addresses and descriptors are 64-bit words with the source's own masks and shifts. The walk follows the
 * Arm Architecture Reference Manual for A-profile (ARM DDI 0487), section D8.3, for a 4 KB granule and T0SZ = 16.
 */
module PageTables {
  import opened Prelude

  // Words are written out where they meet bit operations: 0x0000_FFFF_FFFF_F000 is the address mask of a
  // descriptor, 0x4000_0000 and 0x8000_0000 the bounds of RAM, 0x20_0000 a block and 0x1000 a page. Attribute
  // index 0 is Normal write-back, 1 Device-nGnRE and 2 Normal non-cacheable; 0x400 is the access flag.
  const EXTRA_TABLES: nat := 8

  /** Where the tables lie and the DMA window of the build; l3 lists dma0, dma1 and the extra tables. */
  datatype Config = Config(l0: bv64, l1: bv64, l2: bv64, l3: seq<bv64>, dmaStart: bv64, dmaEnd: bv64, nonCacheable: bool)

  datatype Tables = Tables(l0: seq<bv64>, l1: seq<bv64>, l2: seq<bv64>, l3: seq<seq<bv64>>, next: nat)

  // ---- Descriptors ----

  function PteTable(next: bv64): bv64 { (next & 0x0000_FFFF_FFFF_F000) | 0x3 }

  function PtePage(phys: bv64, attr: bv64, sh: bv64): bv64 {
    (phys & 0x0000_FFFF_FFFF_F000) | 0x3 | (attr << 2) | (sh << 8) | 0x400
  }

  function PteBlock(phys: bv64, attr: bv64, sh: bv64): bv64 {
    (phys & 0x0000_FFFF_FFFF_F000) | 0x1 | (attr << 2) | (sh << 8) | 0x400
  }

  /** PXN (bit 53) and UXN (bit 54). */
  function NeverExecute(e: bv64): bv64 { e | 0x0060_0000_0000_0000 }

  // ---- The walk ----

  /** `ap` is AP[2:1]; `other` holds every attribute bit of the leaf that has no field of its own. */
  datatype Walked = Fault | Mapped(pa: bv64, attr: bv64, sh: bv64, pxn: bool, uxn: bool, ap: bv64, other: bv64)

  /** Read and written by EL1 alone (AP = 0b00), global, never executed if xn, and no other attribute set. */
  function Kernel(pa: bv64, attr: bv64, sh: bv64, xn: bool): Walked { Mapped(pa, attr, sh, xn, xn, 0, 0) }

  function Index(level: nat, va: bv64): bv64 {
    if level == 0 then (va >> 39) & 0x1FF
    else if level == 1 then (va >> 30) & 0x1FF
    else if level == 2 then (va >> 21) & 0x1FF
    else (va >> 12) & 0x1FF
  }

  /** The address bits below the output address of a leaf of this level. */
  function OffsetMask(level: nat): bv64 {
    if level == 1 then 0x3FFF_FFFF else if level == 2 then 0x1F_FFFF else 0xFFF
  }

  /** The table at an address, if one of ours lies there. */
  function TableAt(cfg: Config, t: Tables, base: bv64): seq<bv64> {
    if base == cfg.l0 then t.l0
    else if base == cfg.l1 then t.l1
    else if base == cfg.l2 then t.l2
    else
      var j := IndexOf(cfg.l3, base);
      if j < |t.l3| then t.l3[j] else []
  }

  function At(t: seq<bv64>, i: bv64): bv64 {
    if i as nat < |t| then t[i as nat] else 0
  }

  /** A leaf descriptor of this level faults without its access flag. */
  function Leaf(e: bv64, level: nat, va: bv64): Walked {
    if e & 0x400 == 0 then Fault
    else Mapped((e & 0x0000_FFFF_FFFF_F000 & !OffsetMask(level)) | (va & OffsetMask(level)),
                (e >> 2) & 7, (e >> 8) & 3, (e >> 53) & 1 == 1, (e >> 54) & 1 == 1,
                (e >> 6) & 3, e & (0xFF9F_0000_0000_0820 | (OffsetMask(level) & !0xFFF)))
  }

  datatype Kind = Invalid | Table | LeafEntry

  /** Bits [1:0]: 0b11 is a table above level 3 and a page there, 0b01 a block at levels 1 and 2. */
  function KindOf(e: bv64, level: nat): Kind {
    if e & 1 == 0 then Invalid
    else if e & 3 == 3 then if level == 3 then LeafEntry else Table
    else if level == 1 || level == 2 then LeafEntry
    else Invalid
  }

  /** Bits [63:59] of a table entry: NSTable, APTable, UXNTable and PXNTable. */
  predicate Unrestricted(e: bv64) { e >> 59 == 0 }

  /** What a table entry takes away from every mapping below it. */
  function Restrict(w: Walked, e: bv64): Walked {
    if w.Fault? || Unrestricted(e) then w
    else
      w.(pxn := w.pxn || (e >> 59) & 1 == 1, uxn := w.uxn || (e >> 60) & 1 == 1,
         ap := (w.ap | (((e >> 62) & 1) << 1)) & !((e >> 61) & 1), other := w.other | (((e >> 63) & 1) << 5))
  }

  function NextTable(e: bv64): bv64 { e & 0x0000_FFFF_FFFF_F000 }

  function Walk(cfg: Config, t: Tables, base: bv64, level: nat, va: bv64): Walked
    requires level <= 3
    decreases 3 - level
  {
    var e := At(TableAt(cfg, t, base), Index(level, va));
    match KindOf(e, level)
    case Invalid => Fault
    case LeafEntry => Leaf(e, level, va)
    case Table => if level == 3 then Fault else Restrict(Walk(cfg, t, NextTable(e), level + 1, va), e)
  }

  predicate Canonical(va: bv64) { va >> 48 == 0 }

  function Translate(cfg: Config, t: Tables, va: bv64): Walked {
    if !Canonical(va) then Fault else Walk(cfg, t, cfg.l0, 0, va)
  }

  // ---- What build_identity_map makes ----

  function Filled(f: bv64 -> bv64): (r: seq<bv64>)
    ensures |r| == 512
  {
    seq(512, i requires 0 <= i < 512 => f(i as bv64))
  }

  function BlockBase(i: bv64): bv64 { 0x4000_0000 + i * 0x20_0000 }

  function PageIn(block: bv64, p: bv64): bv64 { block + p * 0x1000 }

  function PageBase(i: bv64, p: bv64): bv64 { PageIn(BlockBase(i), p) }

  function BlockOf(a: bv64): bv64 { a & !0x1F_FFFF }

  function BlockIndex(a: bv64): bv64 { (a - 0x4000_0000) / 0x20_0000 }

  /** The window is non-empty and lies in RAM: the condition under which the builder carves it out. */
  predicate Carves(cfg: Config) { WindowInRam(cfg.dmaStart, cfg.dmaEnd) }

  predicate WindowInRam(start: bv64, end: bv64) { start >= 0x4000_0000 && end > start && end <= 0x8000_0000 }

  function FirstBlock(cfg: Config): bv64 { BlockOf(cfg.dmaStart) }

  function LastBlock(cfg: Config): bv64 { BlockOf(cfg.dmaEnd - 1) }

  /** The entry for the page at `va` in a table of the window. */
  function WindowEntry(cfg: Config, va: bv64): bv64 {
    if InWindow(cfg, va) then NeverExecute(PtePage(va, if cfg.nonCacheable then 2 else 0, 3))
    else PtePage(va, 0, 3)
  }

  function CarvedTable(cfg: Config, base: bv64): seq<bv64> {
    Filled(i => WindowEntry(cfg, PageIn(base, i)))
  }

  function Zeros(): seq<bv64> { Filled(i => 0) }

  function BuiltL2(cfg: Config): seq<bv64>
    requires |cfg.l3| >= 2
  {
    var blocks := Filled(i => PteBlock(BlockBase(i), 0, 3));
    if !Carves(cfg) then blocks
    else
      var first := Set(blocks, BlockIndex(FirstBlock(cfg)), PteTable(cfg.l3[0]));
      if FirstBlock(cfg) == LastBlock(cfg) then first
      else Set(first, BlockIndex(LastBlock(cfg)), PteTable(cfg.l3[1]))
  }

  function Set(t: seq<bv64>, i: bv64, e: bv64): (r: seq<bv64>)
    ensures |r| == |t|
  {
    if i as nat < |t| then t[i as nat := e] else t
  }

  /** 0x0000_0000 to 0x3FFF_FFFF: devices, never executable. */
  function DeviceBlock(): bv64 { NeverExecute(PteBlock(0, 1, 0)) }

  /** 0x8000_0000 to 0xBFFF_FFFF: RAM again, non-cacheable and never executable. */
  function AliasBlock(): bv64 { NeverExecute(PteBlock(0x4000_0000, 2, 3)) }

  function Built(cfg: Config): Tables
    requires |cfg.l3| == 2 + EXTRA_TABLES
  {
    Tables(
      Set(Zeros(), 0, PteTable(cfg.l1)),
      Set(Set(Set(Zeros(), 0, DeviceBlock()), 1, PteTable(cfg.l2)), 2, AliasBlock()),
      BuiltL2(cfg),
      seq(2 + EXTRA_TABLES, j =>
        if j == 0 && Carves(cfg) then CarvedTable(cfg, FirstBlock(cfg))
        else if j == 1 && Carves(cfg) && FirstBlock(cfg) != LastBlock(cfg) then CarvedTable(cfg, LastBlock(cfg))
        else Zeros()),
      0)
  }

  // ---- The map it is meant to make ----

  function Page(va: bv64): bv64 { va & !0xFFF }

  predicate InRam(va: bv64) { 0x4000_0000 <= va < 0x8000_0000 }

  /** Page `page` of block `block` begins inside the window and its block got a table of its own. */
  predicate CarvedPage(cfg: Config, block: bv64, page: bv64) {
    Carves(cfg) && InWindow(cfg, page) && IsEndBlock(cfg, block)
  }

  predicate Below(a: bv64, b: bv64) { a < b }

  predicate InWindow(cfg: Config, a: bv64) { Within(cfg.dmaStart, cfg.dmaEnd, a) }

  predicate Within(start: bv64, end: bv64, a: bv64) { !Below(a, start) && Below(a, end) }

  predicate IsEndBlock(cfg: Config, block: bv64) { block == FirstBlock(cfg) || block == LastBlock(cfg) }

  predicate CarvedOut(cfg: Config, va: bv64) { CarvedPage(cfg, BlockOf(va), Page(va)) }

  /** Devices below RAM, RAM at its own address, and a non-cacheable alias of RAM above it. */
  function Intended(cfg: Config, va: bv64): Walked {
    if va < 0x4000_0000 then Kernel(va, 1, 0, true)
    else if va < 0x8000_0000 then
      if CarvedOut(cfg, va) then Kernel(va, if cfg.nonCacheable then 2 else 0, 3, true)
      else Kernel(va, 0, 3, false)
    else if va < 0xC000_0000 then Kernel(va - 0x4000_0000, 2, 3, true)
    else Fault
  }

  /** The linker placed the tables on distinct pages below 2^48. */
  ghost predicate Placed(cfg: Config) {
    && |cfg.l3| == 2 + EXTRA_TABLES
    && Distinct([cfg.l0, cfg.l1, cfg.l2] + cfg.l3)
    && Aligned(cfg.l0) && Aligned(cfg.l1) && Aligned(cfg.l2)
    && (forall j :: 0 <= j < |cfg.l3| ==> Aligned(cfg.l3[j]))
  }

  predicate Aligned(a: bv64) { a & 0x0000_FFFF_FFFF_F000 == a }

  // ---- Bit facts ----

  lemma TableBits(a: bv64)
    requires a & 0x0000_FFFF_FFFF_F000 == a
    ensures var e := (a & 0x0000_FFFF_FFFF_F000) | 0x3; e & 1 == 1 && e & 3 == 3 && e & 0x0000_FFFF_FFFF_F000 == a && e >> 59 == 0
  {
  }

  lemma IndexBelow(va: bv64)
    ensures (va >> 39) & 0x1FF < 512 && (va >> 30) & 0x1FF < 512 && (va >> 21) & 0x1FF < 512 && (va >> 12) & 0x1FF < 512
  {
  }

  lemma Entry(i: bv64)
    requires i < 512
    ensures i as nat < 512 && (i as nat) as bv64 == i
  {
  }

  lemma FilledAt(f: bv64 -> bv64, i: bv64)
    requires i < 512
    ensures |Filled(f)| == 512 && At(Filled(f), i) == f(i)
  {
    Entry(i);
  }

  lemma SetAt(t: seq<bv64>, i: bv64, e: bv64, k: bv64)
    requires |t| == 512 && i < 512 && k < 512
    ensures At(Set(t, i, e), k) == if k == i then e else At(t, k)
  {
    Entry(i);
    Entry(k);
  }

  // ---- Shape ----

  function IntendedPage(cfg: Config, block: bv64, page: bv64): bv64 {
    if CarvedPage(cfg, block, page) then NeverExecute(PtePage(page, if cfg.nonCacheable then 2 else 0, 3))
    else PtePage(page, 0, 3)
  }

  /** The level-3 table of each block of RAM, negative for a block mapped as a whole. */
  type Slots = bv64 -> int

  /** The two top tables never change. */
  ghost predicate TopIsBuilt(cfg: Config, l0: seq<bv64>, l1: seq<bv64>)
    requires |cfg.l3| == 2 + EXTRA_TABLES
  {
    l0 == Built(cfg).l0 && l1 == Built(cfg).l1
  }

  /** Block i is mapped by table slot(i), or by a block descriptor when it has none. */
  ghost predicate BlockShape(cfg: Config, l2: seq<bv64>, slot: Slots, guarded: set<bv64>, i: bv64) {
    if slot(i) >= 0 then slot(i) < |cfg.l3| && At(l2, i) == PteTable(cfg.l3[slot(i)])
    else
      && At(l2, i) == PteBlock(BlockBase(i), 0, 3)
      && (forall p: bv64 :: p < 512 ==> !CarvedPage(cfg, BlockBase(i), PageBase(i, p)) && PageBase(i, p) !in guarded)
  }

  /** Table j spells block i page by page, guarded pages invalid. */
  ghost predicate TableShape(cfg: Config, l3: seq<bv64>, guarded: set<bv64>, i: bv64) {
    forall p: bv64 :: p < 512 ==>
      At(l3, p) == if PageBase(i, p) in guarded then 0 else IntendedPage(cfg, BlockBase(i), PageBase(i, p))
  }

  ghost predicate Sizes(t: Tables) {
    |t.l2| == 512 && |t.l3| == 2 + EXTRA_TABLES && t.next <= EXTRA_TABLES && forall j :: 0 <= j < |t.l3| ==> |t.l3[j]| == 512
  }

  ghost predicate SlotsDistinct(slot: Slots) {
    forall i, k :: slot(i) >= 0 && slot(k) >= 0 && i != k ==> slot(i) != slot(k)
  }

  ghost predicate Shape(cfg: Config, t: Tables, slot: Slots, guarded: set<bv64>) {
    && Placed(cfg) && Sizes(t) && TopIsBuilt(cfg, t.l0, t.l1)
    && SlotsDistinct(slot)
    && (forall i :: slot(i) >= 0 ==> i < 512 && slot(i) < 2 + t.next)
    && (forall i: bv64 :: i < 512 ==> BlockShape(cfg, t.l2, slot, guarded, i))
    && (forall i :: slot(i) >= 0 ==> TableShape(cfg, t.l3[slot(i)], guarded, i))
  }

  // ---- Shape determines the translation ----

  lemma TableFound(cfg: Config, t: Tables)
    requires Placed(cfg) && Sizes(t)
    ensures TableAt(cfg, t, cfg.l0) == t.l0 && TableAt(cfg, t, cfg.l1) == t.l1 && TableAt(cfg, t, cfg.l2) == t.l2
    ensures forall j :: 0 <= j < |t.l3| ==> TableAt(cfg, t, cfg.l3[j]) == t.l3[j]
  {
    var all := [cfg.l0, cfg.l1, cfg.l2] + cfg.l3;
    forall j | 0 <= j < |t.l3| ensures TableAt(cfg, t, cfg.l3[j]) == t.l3[j] {
      assert all[0] == cfg.l0 && all[1] == cfg.l1 && all[2] == cfg.l2 && all[3 + j] == cfg.l3[j];
      assert all[3 + IndexOf(cfg.l3, cfg.l3[j])] == cfg.l3[j];
    }
    assert all[0] == cfg.l0 && all[1] == cfg.l1 && all[2] == cfg.l2;
  }

  lemma TopEntry(cfg: Config, i: bv64)
    requires Placed(cfg) && i < 512
    ensures At(Built(cfg).l0, i) == if i == 0 then PteTable(cfg.l1) else 0
    ensures At(Built(cfg).l1, i) ==
      if i == 0 then DeviceBlock() else if i == 1 then PteTable(cfg.l2) else if i == 2 then AliasBlock() else 0
  {
    hide PteTable, DeviceBlock, AliasBlock, At, Set, Filled, BuiltL2, CarvedTable, Distinct, Aligned;
    var zero := Zeros();
    FilledAt(i => 0, i);
    SetAt(zero, 0, PteTable(cfg.l1), i);
    SetAt(zero, 0, DeviceBlock(), i);
    var one := Set(zero, 0, DeviceBlock());
    SetAt(one, 1, PteTable(cfg.l2), i);
    SetAt(Set(one, 1, PteTable(cfg.l2)), 2, AliasBlock(), i);
  }

  lemma TableEntry(a: bv64, level: nat)
    requires Aligned(a) && level < 3
    ensures KindOf(PteTable(a), level) == Table && NextTable(PteTable(a)) == a && Unrestricted(PteTable(a))
  {
    TableBits(a);
  }

  lemma BelowRam(va: bv64)
    requires va < 0x4000_0000
    ensures va >> 48 == 0 && (va >> 39) & 0x1FF == 0 && (va >> 30) & 0x1FF == 0
    ensures va & 0x3FFF_FFFF == va
  {
  }

  lemma InAlias(va: bv64)
    requires 0x8000_0000 <= va < 0xC000_0000
    ensures va >> 48 == 0 && (va >> 39) & 0x1FF == 0 && (va >> 30) & 0x1FF == 2
    ensures 0x4000_0000 | (va & 0x3FFF_FFFF) == va - 0x4000_0000
  {
  }

  lemma AboveAlias(va: bv64)
    requires va >= 0xC000_0000 && va >> 48 == 0
    ensures (va >> 39) & 0x1FF != 0 || (va >> 30) & 0x1FF > 2
  {
  }

  lemma DeviceLeaf(va: bv64)
    requires va < 0x4000_0000
    ensures Canonical(va) && Index(0, va) == 0 && Index(1, va) == 0
    ensures var e := DeviceBlock(); KindOf(e, 1) == LeafEntry && Leaf(e, 1, va) == Kernel(va, 1, 0, true)
  {
    BelowRam(va);
  }

  lemma AliasLeaf(va: bv64)
    requires 0x8000_0000 <= va < 0xC000_0000
    ensures Canonical(va) && Index(0, va) == 0 && Index(1, va) == 2
    ensures var e := AliasBlock();
      KindOf(e, 1) == LeafEntry && Leaf(e, 1, va) == Kernel(va - 0x4000_0000, 2, 3, true)
  {
    InAlias(va);
  }

  lemma Nowhere(va: bv64)
    requires va >= 0xC000_0000 && Canonical(va)
    ensures Index(0, va) != 0 || Index(1, va) > 2
    ensures Index(0, va) < 512 && Index(1, va) < 512 && KindOf(0, 0) == Invalid && KindOf(0, 1) == Invalid
  {
    AboveAlias(va);
    IndexBelow(va);
  }

  /** One hop of the walk, from the table at `base` holding `e` for va. */
  lemma Hop(cfg: Config, t: Tables, base: bv64, level: nat, va: bv64, e: bv64)
    requires level < 3 && At(TableAt(cfg, t, base), Index(level, va)) == e
    ensures KindOf(e, level) == Table && Unrestricted(e) ==>
      Walk(cfg, t, base, level, va) == Walk(cfg, t, NextTable(e), level + 1, va)
    ensures KindOf(e, level) == LeafEntry ==> Walk(cfg, t, base, level, va) == Leaf(e, level, va)
    ensures KindOf(e, level) == Invalid ==> Walk(cfg, t, base, level, va) == Fault
  {
  }

  /** The level-0 entry leads to l1 for the first 512 GB and faults elsewhere. */
  lemma FirstHop(cfg: Config, t: Tables, va: bv64)
    requires Placed(cfg) && Sizes(t) && TopIsBuilt(cfg, t.l0, t.l1)
    ensures Canonical(va) && Index(0, va) == 0 ==> Translate(cfg, t, va) == Walk(cfg, t, cfg.l1, 1, va)
    ensures Index(0, va) != 0 ==> Translate(cfg, t, va) == Fault
  {
    TableFound(cfg, t);
    TableEntry(cfg.l1, 0);
    IndexBelow(va);
    TopEntry(cfg, Index(0, va));
    Hop(cfg, t, cfg.l0, 0, va, At(t.l0, Index(0, va)));
    hide Walk, TableAt, Built, At, Sizes, Leaf, PteTable, NextTable, Canonical, Placed;
  }

  lemma SecondHop(cfg: Config, t: Tables, va: bv64)
    requires Placed(cfg) && Sizes(t) && TopIsBuilt(cfg, t.l0, t.l1)
    ensures TableAt(cfg, t, cfg.l1) == t.l1
    ensures Index(1, va) < 512 && At(t.l1, Index(1, va)) ==
      if Index(1, va) == 0 then DeviceBlock() else if Index(1, va) == 1 then PteTable(cfg.l2)
      else if Index(1, va) == 2 then AliasBlock() else 0
  {
    TableFound(cfg, t);
    IndexBelow(va);
    TopEntry(cfg, Index(1, va));
    hide Walk, TableAt, Built, At, Sizes, PteTable, Canonical, Placed, DeviceBlock, AliasBlock;
  }

  /** Outside RAM the walk ends at level 0 or 1. */
  lemma OutsideRam(cfg: Config, t: Tables, va: bv64)
    requires Placed(cfg) && Sizes(t) && TopIsBuilt(cfg, t.l0, t.l1) && !InRam(va)
    ensures Translate(cfg, t, va) == Intended(cfg, va)
  {
    hide TableAt, Built, At, Sizes, KindOf, NextTable, Leaf, Index, PteTable, Canonical, Placed, CarvedOut,
      DeviceBlock, AliasBlock, Walk;
    FirstHop(cfg, t, va);
    SecondHop(cfg, t, va);
    Hop(cfg, t, cfg.l1, 1, va, At(t.l1, Index(1, va)));
    if va < 0x4000_0000 { DeviceLeaf(va); }
    else if va < 0xC000_0000 { AliasLeaf(va); }
    else if Canonical(va) { Nowhere(va); }
  }

  lemma RamTop(va: bv64)
    requires InRam(va)
    ensures Canonical(va) && Index(0, va) == 0 && Index(1, va) == 1
  {
  }

  lemma RamBlock(va: bv64)
    requires InRam(va)
    ensures Index(2, va) < 512 && BlockBase(Index(2, va)) == BlockOf(va)
  {
  }

  lemma RamPage(va: bv64)
    requires InRam(va)
    ensures Index(3, va) < 512 && PageBase(Index(2, va), Index(3, va)) == Page(va)
  {
  }

  lemma RamIndices(va: bv64)
    requires InRam(va)
    ensures Canonical(va) && Index(0, va) == 0 && Index(1, va) == 1 && Index(2, va) < 512 && Index(3, va) < 512
    ensures BlockBase(Index(2, va)) == BlockOf(va) && PageBase(Index(2, va), Index(3, va)) == Page(va)
  {
    hide *;
    RamTop(va);
    RamBlock(va);
    RamPage(va);
  }

  lemma BlockLeaf(va: bv64)
    requires InRam(va)
    ensures var e := PteBlock(BlockOf(va), 0, 3); KindOf(e, 2) == LeafEntry && Leaf(e, 2, va) == Kernel(va, 0, 3, false)
  {
  }

  lemma PageLeaf(va: bv64, attr: bv64)
    requires InRam(va) && attr <= 2
    ensures var e := PtePage(Page(va), attr, 3); KindOf(e, 3) == LeafEntry && Leaf(e, 3, va) == Kernel(va, attr, 3, false)
  {
  }

  lemma XnPageLeaf(va: bv64, attr: bv64)
    requires InRam(va) && attr <= 2
    ensures var e := NeverExecute(PtePage(Page(va), attr, 3));
      KindOf(e, 3) == LeafEntry && Leaf(e, 3, va) == Kernel(va, attr, 3, true)
  {
  }

  lemma IntendedLeaf(cfg: Config, va: bv64)
    requires InRam(va)
    ensures var e := IntendedPage(cfg, BlockOf(va), Page(va)); KindOf(e, 3) == LeafEntry && Leaf(e, 3, va) == Intended(cfg, va)
  {
    hide KindOf, Leaf, PtePage, Page, BlockOf, CarvedPage, NeverExecute;
    XnPageLeaf(va, if cfg.nonCacheable then 2 else 0);
    PageLeaf(va, 0);
  }

  lemma ThirdHop(cfg: Config, t: Tables, va: bv64)
    requires Placed(cfg) && Sizes(t) && TopIsBuilt(cfg, t.l0, t.l1) && InRam(va)
    ensures Translate(cfg, t, va) == Walk(cfg, t, cfg.l2, 2, va) && TableAt(cfg, t, cfg.l2) == t.l2
  {
    hide TableAt, Built, At, Sizes, KindOf, NextTable, Leaf, Index, PteTable, Canonical, CarvedOut, DeviceBlock,
      AliasBlock, Walk;
    RamIndices(va);
    TableFound(cfg, t);
    FirstHop(cfg, t, va);
    SecondHop(cfg, t, va);
    Hop(cfg, t, cfg.l1, 1, va, At(t.l1, Index(1, va)));
    TableEntry(cfg.l2, 1);
  }

  /** In RAM the walk gives the intended map, guarded pages apart. */
  lemma InsideRam(cfg: Config, t: Tables, slot: Slots, guarded: set<bv64>, va: bv64)
    requires Shape(cfg, t, slot, guarded) && InRam(va)
    ensures Translate(cfg, t, va) == if Page(va) in guarded then Fault else Intended(cfg, va)
  {
    hide TableAt, Built, At, KindOf, NextTable, Leaf, Index, PteTable, PteBlock, Canonical, CarvedOut, CarvedPage,
      Walk, IntendedPage,
      BlockBase, PageBase, BlockOf, Page, TopIsBuilt, Distinct, InRam, Translate, Intended;
    ThirdHop(cfg, t, va);
    RamIndices(va);
    var i, p := Index(2, va), Index(3, va);
    assert BlockShape(cfg, t.l2, slot, guarded, i);
    Hop(cfg, t, cfg.l2, 2, va, At(t.l2, i));
    if slot(i) >= 0 {
      TableEntry(cfg.l3[slot(i)], 2);
      TableFound(cfg, t);
      assert TableShape(cfg, t.l3[slot(i)], guarded, i);
      LastHop(cfg, t, cfg.l3[slot(i)], va, At(t.l3[slot(i)], p));
      IntendedLeaf(cfg, va);
    } else {
      BlockLeaf(va);
      UncarvedRam(cfg, va);
    }
  }

  lemma LastHop(cfg: Config, t: Tables, base: bv64, va: bv64, e: bv64)
    requires At(TableAt(cfg, t, base), Index(3, va)) == e
    ensures KindOf(e, 3) == LeafEntry ==> Walk(cfg, t, base, 3, va) == Leaf(e, 3, va)
    ensures e == 0 ==> Walk(cfg, t, base, 3, va) == Fault
  {
  }

  lemma UncarvedRam(cfg: Config, va: bv64)
    requires InRam(va) && !CarvedPage(cfg, BlockOf(va), Page(va))
    ensures Intended(cfg, va) == Kernel(va, 0, 3, false)
  {
    hide CarvedPage, Page, BlockOf;
  }

  /** What the tables mean: the intended map with exactly the guarded pages faulting. */
  lemma ShapeTranslates(cfg: Config, t: Tables, slot: Slots, guarded: set<bv64>, va: bv64)
    requires Shape(cfg, t, slot, guarded) && forall a :: a in guarded ==> InRam(a)
    ensures Translate(cfg, t, va) == if Page(va) in guarded then Fault else Intended(cfg, va)
  {
    if InRam(va) {
      InsideRam(cfg, t, slot, guarded, va);
    } else {
      OutsideRam(cfg, t, va);
      PageStaysOutside(va);
      assert Page(va) !in guarded;
    }
    hide Shape, Page, Intended, Translate, InRam;
  }

  lemma PageStaysOutside(va: bv64)
    requires !InRam(va)
    ensures !InRam(Page(va))
  {
  }

  // ---- The built tables ----

  /** The tables the builder hands to the blocks at the two ends of the window. */
  function BuiltSlot(cfg: Config): Slots {
    (i: bv64) =>
      if !Carves(cfg) then -1
      else if i == BlockIndex(FirstBlock(cfg)) then 0
      else if i == BlockIndex(LastBlock(cfg)) then 1
      else -1
  }

  lemma IndexOfBlock(i: bv64)
    requires i < 512
    ensures BlockIndex(BlockBase(i)) == i
  {
  }

  lemma BlockOfIndex(a: bv64)
    requires InRam(a)
    ensures BlockIndex(BlockOf(a)) < 512 && BlockBase(BlockIndex(BlockOf(a))) == BlockOf(a)
  {
  }

  lemma WindowEnds(cfg: Config)
    requires Carves(cfg)
    ensures BlockIndex(FirstBlock(cfg)) < 512 && BlockBase(BlockIndex(FirstBlock(cfg))) == FirstBlock(cfg)
    ensures BlockIndex(LastBlock(cfg)) < 512 && BlockBase(BlockIndex(LastBlock(cfg))) == LastBlock(cfg)
  {
    BlockOfIndex(cfg.dmaStart);
    BlockOfIndex(cfg.dmaEnd - 1);
    hide BlockIndex, BlockBase, BlockOf;
  }

  lemma BuiltSizes(cfg: Config)
    requires Placed(cfg)
    ensures Sizes(Built(cfg))
  {
    hide DeviceBlock, AliasBlock, PteTable, PteBlock, Carves, FirstBlock, LastBlock, Filled, WindowEntry, BlockIndex,
      Distinct, Aligned;
    var t := Built(cfg);
    assert |Zeros()| == 512 && |CarvedTable(cfg, FirstBlock(cfg))| == 512 && |CarvedTable(cfg, LastBlock(cfg))| == 512;
    forall j | 0 <= j < |t.l3| ensures |t.l3[j]| == 512 {
      hide CarvedTable, Zeros;
    }
  }

  lemma BuiltBlock(cfg: Config, i: bv64)
    requires Placed(cfg) && i < 512
    ensures BlockShape(cfg, Built(cfg).l2, BuiltSlot(cfg), {}, i)
  {
    hide BlockIndex, BlockBase, PageBase, FirstBlock, LastBlock, Carves, PteBlock, PteTable, Filled, At, Set,
      Distinct, Aligned, InRam,
      BuiltL2;
    BuiltEntry(cfg, i);
    IndexOfBlock(i);
    if Carves(cfg) { WindowEnds(cfg); }
  }

  lemma BuiltEntry(cfg: Config, i: bv64)
    requires Placed(cfg) && i < 512
    ensures At(BuiltL2(cfg), i) ==
      if BuiltSlot(cfg)(i) >= 0 then PteTable(cfg.l3[BuiltSlot(cfg)(i)]) else PteBlock(BlockBase(i), 0, 3)
  {
    hide BlockIndex, BlockBase, FirstBlock, LastBlock, Carves, PteBlock, PteTable, Filled, At, Set, Distinct,
      Aligned, InRam;
    var blocks := Filled(i => PteBlock(BlockBase(i), 0, 3));
    FilledAt(i => PteBlock(BlockBase(i), 0, 3), i);
    if Carves(cfg) {
      WindowEnds(cfg);
      var f, l := BlockIndex(FirstBlock(cfg)), BlockIndex(LastBlock(cfg));
      SetAt(blocks, f, PteTable(cfg.l3[0]), i);
      SetAt(Set(blocks, f, PteTable(cfg.l3[0])), l, PteTable(cfg.l3[1]), i);
    }
  }

  lemma EntryAgrees(cfg: Config, block: bv64, page: bv64)
    requires Carves(cfg) && (block == FirstBlock(cfg) || block == LastBlock(cfg))
    ensures WindowEntry(cfg, page) == IntendedPage(cfg, block, page)
  {
    hide FirstBlock, LastBlock, NeverExecute, PtePage, Carves;
  }

  lemma CarvedTableShape(cfg: Config, i: bv64)
    requires Carves(cfg) && (BlockBase(i) == FirstBlock(cfg) || BlockBase(i) == LastBlock(cfg))
    ensures TableShape(cfg, CarvedTable(cfg, BlockBase(i)), {}, i)
  {
    hide FirstBlock, LastBlock, Carves, WindowEntry, IntendedPage, Filled, At, PageIn, BlockBase;
    forall p: bv64 | p < 512
      ensures At(CarvedTable(cfg, BlockBase(i)), p) == IntendedPage(cfg, BlockBase(i), PageBase(i, p))
    {
      FilledAt(i' => WindowEntry(cfg, PageIn(BlockBase(i), i')), p);
      EntryAgrees(cfg, BlockBase(i), PageBase(i, p));
    }
  }

  lemma BuiltTable(cfg: Config, i: bv64)
    requires Placed(cfg) && BuiltSlot(cfg)(i) >= 0
    ensures i < 512 && BuiltSlot(cfg)(i) < 2 && TableShape(cfg, Built(cfg).l3[BuiltSlot(cfg)(i)], {}, i)
  {
    hide BlockIndex, BlockBase, FirstBlock, LastBlock, Filled, At, Set, Distinct, Aligned, CarvedTable, Carves, BuiltL2,
      DeviceBlock, AliasBlock, PteTable, TableShape;
    WindowEnds(cfg);
    CarvedTableShape(cfg, i);
  }

  /** The builder's tables have the shape, so they translate as intended. */
  lemma BuiltShape(cfg: Config)
    requires Placed(cfg)
    ensures Shape(cfg, Built(cfg), BuiltSlot(cfg), {})
  {
    hide BlockIndex, BlockBase, FirstBlock, LastBlock, Sizes, Distinct, Aligned, BlockShape, TableShape, Carves;
    BuiltSizes(cfg);
    forall i: bv64 | i < 512 ensures BlockShape(cfg, Built(cfg).l2, BuiltSlot(cfg), {}, i) { BuiltBlock(cfg, i); }
    forall i: bv64 | BuiltSlot(cfg)(i) >= 0
      ensures i < 512 && 0 <= BuiltSlot(cfg)(i) < 2 && TableShape(cfg, Built(cfg).l3[BuiltSlot(cfg)(i)], {}, i)
    {
      BuiltTable(cfg, i);
    }
    if Carves(cfg) && FirstBlock(cfg) != LastBlock(cfg) { WindowEnds(cfg); }
  }

  lemma InitialMap(cfg: Config, va: bv64)
    requires Placed(cfg)
    ensures Translate(cfg, Built(cfg), va) == Intended(cfg, va)
  {
    BuiltShape(cfg);
    ShapeTranslates(cfg, Built(cfg), BuiltSlot(cfg), {}, va);
    hide *;
  }

  // ---- Guard pages ----

  /** Page p of a whole block, with the attributes read back from the block's descriptor e. */
  function SplitPage(i: bv64, e: bv64, p: bv64): bv64 {
    PtePage(PageBase(i, p), (e >> 2) & 7, (e >> 8) & 3) | (e & 0x0060_0000_0000_0000)
  }

  function SplitTable(i: bv64, e: bv64): (r: seq<bv64>)
    ensures |r| == 512
  {
    Filled(p => SplitPage(i, e, p))
  }

  /** ensure_l3_for_ram_block: the level-3 table of block i, split off the block descriptor if it has none yet. */
  function EnsureL3(cfg: Config, t: Tables, i: bv64): (Tables, Option<bv64>) {
    if i >= 512 then (t, None)
    else
      var e := At(t.l2, i);
      if e & 3 == 3 then (t, Some(NextTable(e)))
      else if e & 3 != 1 then (t, None)
      else if t.next >= EXTRA_TABLES || 2 + t.next >= |t.l3| || |cfg.l3| != |t.l3| then (t, None)
      else
        var j := 2 + t.next;
        (t.(l3 := t.l3[j := SplitTable(i, e)], next := t.next + 1, l2 := Set(t.l2, i, PteTable(cfg.l3[j]))), Some(cfg.l3[j]))
  }

  /** Writes an entry of the level-3 table at address a. */
  function WriteL3(cfg: Config, t: Tables, a: bv64, p: bv64, e: bv64): Tables {
    var j := IndexOf(cfg.l3, a);
    if j < |t.l3| then t.(l3 := t.l3[j := Set(t.l3[j], p, e)]) else t
  }

  function L2IndexOf(va: bv64): bv64 { (va - 0x4000_0000) / 0x20_0000 }

  function L3IndexOf(va: bv64): bv64 { ((va - 0x4000_0000) % 0x20_0000) / 0x1000 }

  /** mmu_guard_page. */
  function GuardPage(cfg: Config, t: Tables, mmuOn: bool, addr: bv64): (Tables, int) {
    if addr == 0 || !mmuOn then (t, -1)
    else
      var va := Page(addr);
      if !InRam(va) then (t, -1)
      else
        match EnsureL3(cfg, t, L2IndexOf(va))
        case (t1, None) => (t1, -1)
        case (t1, Some(l3)) => (WriteL3(cfg, t1, l3, L3IndexOf(va), 0), 0)
  }

  lemma GuardIndices(va: bv64)
    requires InRam(va)
    ensures L2IndexOf(va) == Index(2, va) && L3IndexOf(va) == Index(3, va)
  {
  }

  lemma EntryKinds(a: bv64, b: bv64)
    requires Aligned(a)
    ensures PteTable(a) & 3 == 3 && PteBlock(b, 0, 3) & 3 == 1 && NextTable(PteTable(a)) == a
  {
  }

  lemma BlockAttributes(b: bv64)
    ensures var e := PteBlock(b, 0, 3); (e >> 2) & 7 == 0 && (e >> 8) & 3 == 3 && e & 0x0060_0000_0000_0000 == 0
  {
  }

  lemma PlainBits(e: bv64)
    ensures e | 0 == e
  {
  }

  lemma SplitPageKeeps(i: bv64, p: bv64)
    ensures SplitPage(i, PteBlock(BlockBase(i), 0, 3), p) == PtePage(PageBase(i, p), 0, 3)
  {
    BlockAttributes(BlockBase(i));
    PlainBits(PtePage(PageBase(i, p), 0, 3));
    hide PtePage, PteBlock, PageBase, BlockBase;
  }

  lemma PagesDistinct(i: bv64, p: bv64, k: bv64, q: bv64)
    requires i < 512 && p < 512 && k < 512 && q < 512 && PageBase(i, p) == PageBase(k, q)
    ensures i == k && p == q
  {
  }

  /** Splitting a block: the new table spells the same pages. */
  lemma SplitShape(cfg: Config, i: bv64, guarded: set<bv64>)
    requires forall p: bv64 :: p < 512 ==> !CarvedPage(cfg, BlockBase(i), PageBase(i, p)) && PageBase(i, p) !in guarded
    ensures TableShape(cfg, SplitTable(i, PteBlock(BlockBase(i), 0, 3)), guarded, i)
  {
    hide CarvedPage, PtePage, PteBlock, PageBase, BlockBase, SplitPage, Filled, At, NeverExecute;
    var e := PteBlock(BlockBase(i), 0, 3);
    forall p: bv64 | p < 512
      ensures At(SplitTable(i, e), p) == IntendedPage(cfg, BlockBase(i), PageBase(i, p))
    {
      FilledAt(p => SplitPage(i, e, p), p);
      SplitPageKeeps(i, p);
    }
  }

  function Assign(slot: Slots, i: bv64, j: int): Slots {
    (k: bv64) => if k == i then j else slot(k)
  }

  /** The state once block i is split into the next spare table. */
  function SplitOff(cfg: Config, t: Tables, i: bv64): Tables
    requires 2 + t.next < |t.l3| == |cfg.l3|
  {
    var j := 2 + t.next;
    t.(l3 := t.l3[j := SplitTable(i, At(t.l2, i))], next := t.next + 1, l2 := Set(t.l2, i, PteTable(cfg.l3[j])))
  }

  /** ensure_l3_for_ram_block on a block mapped as a whole splits it, unless the spare tables are used up. */
  lemma EnsureSplits(cfg: Config, t: Tables, slot: Slots, guarded: set<bv64>, i: bv64)
    requires Shape(cfg, t, slot, guarded) && i < 512 && slot(i) < 0
    ensures t.next < EXTRA_TABLES ==> EnsureL3(cfg, t, i) == (SplitOff(cfg, t, i), Some(cfg.l3[2 + t.next]))
    ensures t.next == EXTRA_TABLES ==> EnsureL3(cfg, t, i) == (t, None)
  {
    hide CarvedPage, PtePage, PteBlock, PteTable, PageBase, BlockBase, SplitTable, Set, At, Distinct, Aligned,
      TopIsBuilt, TableShape;
    assert BlockShape(cfg, t.l2, slot, guarded, i);
    EntryKinds(cfg.l3[0], BlockBase(i));
  }

  /** On a block that has a table it returns that table and changes nothing. */
  lemma EnsureFinds(cfg: Config, t: Tables, slot: Slots, guarded: set<bv64>, i: bv64)
    requires Shape(cfg, t, slot, guarded) && i < 512 && slot(i) >= 0
    ensures slot(i) < |cfg.l3| && EnsureL3(cfg, t, i) == (t, Some(cfg.l3[slot(i)]))
  {
    hide CarvedPage, PtePage, PteBlock, PteTable, PageBase, BlockBase, Set, At, Distinct, Aligned, TopIsBuilt,
      TableShape, NextTable;
    assert BlockShape(cfg, t.l2, slot, guarded, i);
    EntryKinds(cfg.l3[slot(i)], 0);
  }

  lemma SplitBlockShape(cfg: Config, t: Tables, slot: Slots, guarded: set<bv64>, i: bv64, k: bv64)
    requires Sizes(t) && |cfg.l3| == |t.l3| && t.next < EXTRA_TABLES && BlockShape(cfg, t.l2, slot, guarded, k) && i < 512 && k < 512
    ensures BlockShape(cfg, SplitOff(cfg, t, i).l2, Assign(slot, i, 2 + t.next), guarded, k)
  {
    hide CarvedPage, PteBlock, PteTable, PageBase, BlockBase, Set, At, SplitTable;
    SetAt(t.l2, i, PteTable(cfg.l3[2 + t.next]), k);
  }

  /** A split keeps the shape: the same pages, spelled by a table of their own. */
  lemma SplitKeeps(cfg: Config, t: Tables, slot: Slots, guarded: set<bv64>, i: bv64)
    requires Shape(cfg, t, slot, guarded) && i < 512 && slot(i) < 0 && t.next < EXTRA_TABLES
    ensures Shape(cfg, SplitOff(cfg, t, i), Assign(slot, i, 2 + t.next), guarded)
  {
    hide Distinct, Aligned, TopIsBuilt, TableShape, BlockShape, SlotsDistinct, Assign, SplitOff, Sizes;
    var slot' := Assign(slot, i, 2 + t.next);
    SlotBounds(cfg, t, slot, guarded);
    SplitSizes(cfg, t, i);
    var r := SplitOff(cfg, t, i);
    AssignFresh(slot, i, 2 + t.next);
    assert BlockShape(cfg, t.l2, slot, guarded, i);
    SplitOffTable(cfg, t, slot, guarded, i);
    forall k: bv64 | k < 512 ensures BlockShape(cfg, r.l2, slot', guarded, k) { SplitBlockShape(cfg, t, slot, guarded, i, k); }
    forall k: bv64 | slot'(k) >= 0 ensures TableShape(cfg, r.l3[slot'(k)], guarded, k) {
      if k != i { assert r.l3[slot(k)] == t.l3[slot(k)]; }
    }
  }

  lemma SplitSizes(cfg: Config, t: Tables, i: bv64)
    requires Sizes(t) && |cfg.l3| == |t.l3| && t.next < EXTRA_TABLES
    ensures |t.l3| == 2 + EXTRA_TABLES
    ensures var r := SplitOff(cfg, t, i);
      Sizes(r) && r.l0 == t.l0 && r.l1 == t.l1 && r.next == t.next + 1 && r.l3 == t.l3[2 + t.next := SplitTable(i, At(t.l2, i))]
  {
    hide PteTable, SplitTable, At;
  }

  lemma SplitOffTable(cfg: Config, t: Tables, slot: Slots, guarded: set<bv64>, i: bv64)
    requires BlockShape(cfg, t.l2, slot, guarded, i) && slot(i) < 0
    ensures TableShape(cfg, SplitTable(i, At(t.l2, i)), guarded, i)
  {
    SplitShape(cfg, i, guarded);
    hide TableShape, SplitTable;
  }

  lemma AssignFresh(slot: Slots, i: bv64, j: nat)
    requires SlotsDistinct(slot) && forall k :: slot(k) < j
    ensures SlotsDistinct(Assign(slot, i, j)) && forall k :: Assign(slot, i, j)(k) == if k == i then j else slot(k)
  {
  }

  lemma WrittenTable(cfg: Config, l3: seq<bv64>, guarded: set<bv64>, i: bv64, p: bv64)
    requires |l3| == 512 && TableShape(cfg, l3, guarded, i) && i < 512 && p < 512
    ensures TableShape(cfg, Set(l3, p, 0), guarded + {PageBase(i, p)}, i)
  {
    hide PageBase, BlockBase, Set, At, IntendedPage;
    forall q: bv64 | q < 512
      ensures At(Set(l3, p, 0), q) ==
        if PageBase(i, q) in guarded + {PageBase(i, p)} then 0 else IntendedPage(cfg, BlockBase(i), PageBase(i, q))
    {
      if PageBase(i, q) == PageBase(i, p) { PagesDistinct(i, q, i, p); }
      SetAt(l3, p, 0, q);
    }
  }

  lemma OtherTable(cfg: Config, l3: seq<bv64>, guarded: set<bv64>, k: bv64, i: bv64, p: bv64)
    requires TableShape(cfg, l3, guarded, k) && k < 512 && i < 512 && p < 512 && k != i
    ensures TableShape(cfg, l3, guarded + {PageBase(i, p)}, k)
  {
    hide PageBase, BlockBase, At, IntendedPage;
    forall q: bv64 | q < 512 ensures PageBase(k, q) in guarded + {PageBase(i, p)} <==> PageBase(k, q) in guarded {
      if PageBase(k, q) == PageBase(i, p) { PagesDistinct(k, q, i, p); }
    }
  }

  lemma OtherBlock(cfg: Config, l2: seq<bv64>, slot: Slots, guarded: set<bv64>, k: bv64, i: bv64, p: bv64)
    requires BlockShape(cfg, l2, slot, guarded, k) && k < 512 && i < 512 && p < 512 && slot(i) >= 0
    ensures BlockShape(cfg, l2, slot, guarded + {PageBase(i, p)}, k)
  {
    hide PageBase, BlockBase, At, CarvedPage, PteTable, PteBlock;
    if slot(k) < 0 {
      forall q: bv64 | q < 512 ensures PageBase(k, q) != PageBase(i, p) {
        if PageBase(k, q) == PageBase(i, p) { PagesDistinct(k, q, i, p); }
      }
    }
  }

  /** Invalidating one page of a block that has its own table. */
  lemma WriteKeeps(cfg: Config, t: Tables, slot: Slots, guarded: set<bv64>, i: bv64, p: bv64)
    requires Shape(cfg, t, slot, guarded) && i < 512 && p < 512 && slot(i) >= 0
    ensures slot(i) < |cfg.l3| && Shape(cfg, WriteL3(cfg, t, cfg.l3[slot(i)], p, 0), slot, guarded + {PageBase(i, p)})
  {
    hide PageBase, Set, At, Aligned, TopIsBuilt, Built, BlockShape, TableShape, Distinct;
    var j := slot(i);
    var g := guarded + {PageBase(i, p)};
    FirstIndex(cfg, j);
    var r := WriteL3(cfg, t, cfg.l3[j], p, 0);
    assert r == t.(l3 := t.l3[j := Set(t.l3[j], p, 0)]);
    forall k: bv64 | k < 512 ensures BlockShape(cfg, r.l2, slot, g, k) { OtherBlock(cfg, t.l2, slot, guarded, k, i, p); }
    forall k: bv64 | slot(k) >= 0 ensures TableShape(cfg, r.l3[slot(k)], g, k) {
      if k == i { WrittenTable(cfg, t.l3[j], guarded, i, p); } else { OtherTable(cfg, t.l3[slot(k)], guarded, k, i, p); }
    }
  }

  lemma FirstIndex(cfg: Config, j: nat)
    requires Placed(cfg) && j < |cfg.l3|
    ensures IndexOf(cfg.l3, cfg.l3[j]) == j
  {
    var all := [cfg.l0, cfg.l1, cfg.l2] + cfg.l3;
    assert all[3 + j] == cfg.l3[j] && all[3 + IndexOf(cfg.l3, cfg.l3[j])] == cfg.l3[j];
  }

  // ---- Runs of guard calls ----

  /** A call of mmu_guard_page, with the MMU on or off. */
  datatype Call = Call(addr: bv64, on: bool)

  function After(cfg: Config, calls: seq<Call>): Tables
    requires |cfg.l3| == 2 + EXTRA_TABLES
  {
    if calls == [] then Built(cfg)
    else
      var c := calls[|calls| - 1];
      GuardPage(cfg, After(cfg, calls[..|calls| - 1]), c.on, c.addr).0
  }

  predicate Succeeds(cfg: Config, calls: seq<Call>, c: Call)
    requires |cfg.l3| == 2 + EXTRA_TABLES
  {
    GuardPage(cfg, After(cfg, calls), c.on, c.addr).1 == 0
  }

  /** The pages guarded with success. */
  function Guarded(cfg: Config, calls: seq<Call>): set<bv64>
    requires |cfg.l3| == 2 + EXTRA_TABLES
  {
    if calls == [] then {}
    else
      var front, c := calls[..|calls| - 1], calls[|calls| - 1];
      Guarded(cfg, front) + if Succeeds(cfg, front, c) then {Page(c.addr)} else {}
  }

  /** The blocks those calls had to split: all but the blocks the builder split for the window. */
  function SplitBlocks(cfg: Config, calls: seq<Call>): set<bv64>
    requires |cfg.l3| == 2 + EXTRA_TABLES
  {
    if calls == [] then {}
    else
      var front, c := calls[..|calls| - 1], calls[|calls| - 1];
      SplitBlocks(cfg, front)
      + if Succeeds(cfg, front, c) && BuiltSlot(cfg)(Index(2, c.addr)) < 0 then {Index(2, c.addr)} else {}
  }

  /** The slots in use: the builder's two and one for each block split since. */
  ghost predicate SlotsUsed(cfg: Config, slot: Slots, split: set<bv64>, next: nat) {
    && (forall i :: slot(i) >= 2 <==> i in split)
    && (forall i :: BuiltSlot(cfg)(i) >= 0 <==> 0 <= slot(i) < 2)
    && |split| == next
  }

  lemma PageIndices(addr: bv64)
    ensures InRam(addr) <==> InRam(Page(addr))
    ensures InRam(addr) ==> Index(2, Page(addr)) == Index(2, addr) && Index(3, Page(addr)) == Index(3, addr)
  {
  }

  /** mmu_guard_page by its argument: the two indices are those of the walk. */
  lemma GuardUnfolds(cfg: Config, t: Tables, on: bool, addr: bv64)
    ensures addr == 0 || !on || !InRam(addr) ==> GuardPage(cfg, t, on, addr) == (t, -1)
    ensures addr != 0 && on && InRam(addr) ==>
      var r := EnsureL3(cfg, t, Index(2, addr));
      GuardPage(cfg, t, on, addr) == if r.1.None? then (r.0, -1) else (WriteL3(cfg, r.0, r.1.value, Index(3, addr), 0), 0)
  {
    hide Index, EnsureL3, WriteL3, InRam, Page, L2IndexOf, L3IndexOf;
    PageIndices(addr);
    if InRam(addr) { GuardIndices(Page(addr)); }
  }

  /** A guarding call either fails and changes nothing, or makes exactly its page invalid. */
  lemma GuardStep(cfg: Config, t: Tables, slot: Slots, guarded: set<bv64>, c: Call) returns (slot': Slots)
    requires Shape(cfg, t, slot, guarded)
    ensures var r := GuardPage(cfg, t, c.on, c.addr);
      && (r.1 == 0 || r.1 == -1)
      && (r.1 == -1 <==> c.addr == 0 || !c.on || !InRam(c.addr) || (slot(Index(2, c.addr)) < 0 && t.next == EXTRA_TABLES))
      && (r.1 == -1 ==> r.0 == t && slot' == slot)
      && (r.1 == 0 ==> Shape(cfg, r.0, slot', guarded + {Page(c.addr)}))
      && (r.1 == 0 && slot(Index(2, c.addr)) >= 0 ==> slot' == slot && r.0.next == t.next)
      && (r.1 == 0 && slot(Index(2, c.addr)) < 0 ==> slot' == Assign(slot, Index(2, c.addr), 2 + t.next) && r.0.next == t.next + 1)
  {
    hide Shape, EnsureL3, SplitOff, Assign, Page, Index, InRam, PageBase, BlockBase, BlockOf, GuardPage, WriteL3;
    slot' := slot;
    GuardUnfolds(cfg, t, c.on, c.addr);
    if c.addr != 0 && c.on && InRam(c.addr) {
      RamIndices(c.addr);
      var i, p := Index(2, c.addr), Index(3, c.addr);
      SlotBounds(cfg, t, slot, guarded);
      if slot(i) >= 0 {
        EnsureFinds(cfg, t, slot, guarded, i);
        WriteKeeps(cfg, t, slot, guarded, i, p);
        WriteNext(cfg, t, cfg.l3[slot(i)], p);
      } else {
        EnsureSplits(cfg, t, slot, guarded, i);
        if t.next < EXTRA_TABLES {
          SplitKeeps(cfg, t, slot, guarded, i);
          slot' := Assign(slot, i, 2 + t.next);
          AssignAt(slot, i, 2 + t.next);
          WriteKeeps(cfg, SplitOff(cfg, t, i), slot', guarded, i, p);
          WriteNext(cfg, SplitOff(cfg, t, i), cfg.l3[2 + t.next], p);
          SplitNext(cfg, t, i);
        }
      }
    }
  }

  lemma SlotBounds(cfg: Config, t: Tables, slot: Slots, guarded: set<bv64>)
    requires Shape(cfg, t, slot, guarded)
    ensures t.next <= EXTRA_TABLES && |cfg.l3| == |t.l3| == 2 + EXTRA_TABLES && forall i :: slot(i) < 2 + t.next
  {
    hide BlockShape, TableShape, TopIsBuilt, SlotsDistinct;
  }

  lemma WriteNext(cfg: Config, t: Tables, a: bv64, p: bv64)
    ensures WriteL3(cfg, t, a, p, 0).next == t.next
  {
  }

  lemma SplitNext(cfg: Config, t: Tables, i: bv64)
    requires 2 + t.next < |t.l3| == |cfg.l3|
    ensures SplitOff(cfg, t, i).next == t.next + 1
  {
  }

  lemma AssignAt(slot: Slots, i: bv64, j: int)
    ensures forall k :: Assign(slot, i, j)(k) == if k == i then j else slot(k)
  {
  }

  /** Every state reached by guard calls has the shape, with one slot used for each block split. */
  lemma {:induction false} Reached(cfg: Config, calls: seq<Call>) returns (slot: Slots)
    requires Placed(cfg)
    ensures Shape(cfg, After(cfg, calls), slot, Guarded(cfg, calls))
    ensures SlotsUsed(cfg, slot, SplitBlocks(cfg, calls), After(cfg, calls).next)
    ensures forall a :: a in Guarded(cfg, calls) ==> InRam(a)
    decreases |calls|
  {
    hide Shape, Assign, Page, Index, InRam, GuardPage, Built, BuiltSlot;
    if calls == [] {
      BuiltShape(cfg);
      BuiltSlots(cfg);
      slot := BuiltSlot(cfg);
    } else {
      var front, c := calls[..|calls| - 1], calls[|calls| - 1];
      var was := Reached(cfg, front);
      slot := GuardStep(cfg, After(cfg, front), was, Guarded(cfg, front), c);
      PageIndices(c.addr);
      if Succeeds(cfg, front, c) {
        SlotBounds(cfg, After(cfg, front), was, Guarded(cfg, front));
        UsedStep(cfg, was, SplitBlocks(cfg, front), After(cfg, front).next, Index(2, c.addr));
      } else {
        assert Guarded(cfg, calls) == Guarded(cfg, front) && SplitBlocks(cfg, calls) == SplitBlocks(cfg, front);
      }
    }
  }

  lemma BuiltSlots(cfg: Config)
    requires Placed(cfg)
    ensures SlotsUsed(cfg, BuiltSlot(cfg), {}, Built(cfg).next)
  {
    hide BlockIndex, FirstBlock, LastBlock, Carves;
  }

  lemma UsedStep(cfg: Config, slot: Slots, split: set<bv64>, next: nat, i: bv64)
    requires SlotsUsed(cfg, slot, split, next)
    ensures slot(i) < 0 ==> i !in split && BuiltSlot(cfg)(i) < 0 && SlotsUsed(cfg, Assign(slot, i, 2 + next), split + {i}, next + 1)
    ensures slot(i) >= 0 ==> SlotsUsed(cfg, slot, split + (if BuiltSlot(cfg)(i) < 0 then {i} else {}), next)
  {
    hide BuiltSlot;
    if slot(i) >= 0 && BuiltSlot(cfg)(i) < 0 { assert split + {i} == split; }
  }

  /** Guarding preserves meaning: after any calls, exactly the pages guarded with success fault. */
  lemma GuardsPreserveMeaning(cfg: Config, calls: seq<Call>, va: bv64)
    requires Placed(cfg)
    ensures Translate(cfg, After(cfg, calls), va) ==
      if Page(va) in Guarded(cfg, calls) then Fault else Translate(cfg, Built(cfg), va)
  {
    hide Shape, Translate, Page, Built, SlotsUsed, After, Guarded, Intended, InRam;
    var slot := Reached(cfg, calls);
    ShapeTranslates(cfg, After(cfg, calls), slot, Guarded(cfg, calls), va);
    InitialMap(cfg, va);
  }

  /** When a call fails: bad argument, MMU off, or a ninth block to split. It then changes nothing. */
  lemma GuardFailure(cfg: Config, calls: seq<Call>, c: Call)
    requires Placed(cfg)
    ensures var r := GuardPage(cfg, After(cfg, calls), c.on, c.addr);
      && (r.1 == -1 ==> r.0 == After(cfg, calls))
      && (r.1 == 0 || r.1 == -1)
      && (r.1 == -1 <==>
          || c.addr == 0 || !c.on || !InRam(c.addr)
          || (|SplitBlocks(cfg, calls)| == EXTRA_TABLES && Index(2, c.addr) !in SplitBlocks(cfg, calls)
              && BuiltSlot(cfg)(Index(2, c.addr)) < 0))
  {
    hide Shape, Index, InRam, GuardPage, Built, BuiltSlot, After, SplitBlocks, Guarded;
    var slot := Reached(cfg, calls);
    var slot' := GuardStep(cfg, After(cfg, calls), slot, Guarded(cfg, calls), c);
  }

  /** No two blocks share a level-3 table, and splits themselves are invisible. */
  lemma TablesNotShared(cfg: Config, calls: seq<Call>, i: bv64, k: bv64)
    requires Placed(cfg) && i < 512 && k < 512 && i != k
    requires var l2 := After(cfg, calls).l2; At(l2, i) & 3 == 3 && At(l2, k) & 3 == 3
    ensures var l2 := After(cfg, calls).l2; NextTable(At(l2, i)) != NextTable(At(l2, k))
  {
    var slot := Reached(cfg, calls);
    var l2 := After(cfg, calls).l2;
    hide PteTable, PteBlock, TableShape, TopIsBuilt, CarvedPage, PageBase, BlockBase, NextTable, After, Guarded, At;
    assert BlockShape(cfg, l2, slot, Guarded(cfg, calls), i) && BlockShape(cfg, l2, slot, Guarded(cfg, calls), k);
    EntryKinds(cfg.l3[0], BlockBase(i));
    EntryKinds(cfg.l3[0], BlockBase(k));
    EntryKinds(cfg.l3[slot(i)], 0);
    EntryKinds(cfg.l3[slot(k)], 0);
    var all := [cfg.l0, cfg.l1, cfg.l2] + cfg.l3;
    assert all[3 + slot(i)] == cfg.l3[slot(i)] && all[3 + slot(k)] == cfg.l3[slot(k)];
  }
}
