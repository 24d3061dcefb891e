/**
 * The address policy of the DMA code against the map: which ranges get cache maintenance, the window's
 * non-cacheable alias, and the address the device uses.
 */
module DmaPolicy {
  import opened Prelude
  import opened PageTables

  // ---- Memory types ----

  /** MAIR_EL1 as the kernel sets it: write-back at index 0, Device-nGnRE at 1, non-cacheable at 2. */
  function Mair(): bv64 { (0xFF << 0) | (0x04 << 8) | (0x44 << 16) }

  function MemoryAttribute(attr: bv64): bv64 {
    if attr == 0 then Mair() & 0xFF else if attr == 1 then (Mair() >> 8) & 0xFF else if attr == 2 then (Mair() >> 16) & 0xFF else 0
  }

  predicate WriteBack(w: Walked) { w.Mapped? && MemoryAttribute(w.attr) == 0xFF }

  predicate NonCacheable(w: Walked) { w.Mapped? && MemoryAttribute(w.attr) == 0x44 }

  lemma Attributes()
    ensures MemoryAttribute(0) == 0xFF && MemoryAttribute(1) == 0x04 && MemoryAttribute(2) == 0x44
  {
  }

  // ---- The window ----

  lemma AlignedBound(end: bv64, a: bv64)
    requires PageAligned(end)
    ensures Below(a, end) ==> Below(Page(a), end)
  {
  }

  lemma AlignedBoundBack(end: bv64, a: bv64)
    requires PageAligned(end)
    ensures Below(Page(a), end) ==> Below(a, end)
  {
  }

  predicate PageAligned(a: bv64) { a & 0xFFF == 0 }

  lemma PageInWindow(cfg: Config, a: bv64)
    requires PageAligned(cfg.dmaStart) && PageAligned(cfg.dmaEnd)
    ensures InWindow(cfg, Page(a)) <==> InWindow(cfg, a)
  {
    hide Page, Below, PageAligned;
    AlignedBound(cfg.dmaStart, a);
    AlignedBoundBack(cfg.dmaStart, a);
    AlignedBound(cfg.dmaEnd, a);
    AlignedBoundBack(cfg.dmaEnd, a);
  }

  /** Block number. */
  function Number(a: bv64): bv64 { a >> 21 }

  lemma NumberOfBlock(a: bv64, b: bv64)
    ensures Number(a) == Number(b) ==> BlockOf(a) == BlockOf(b)
  {
  }

  /** The window lies in one block or two neighbours: all that two tables can carve. */
  predicate TwoBlocks(start: bv64, end: bv64) { ((end - 1) >> 21) - (start >> 21) <= 1 }

  predicate AtAnEnd(start: bv64, end: bv64, a: bv64) { Number(a) == Number(start) || Number(a) == Number(end - 1) }

  lemma EndNumbers(start: bv64, end: bv64, a: bv64)
    requires WindowInRam(start, end) && Within(start, end, a) && TwoBlocks(start, end)
    ensures AtAnEnd(start, end, a)
  {
    assert a < end;
    assert start <= a;
    assert ((end - 1) >> 21) - (start >> 21) <= 1;
  }

  lemma EndBlock(start: bv64, end: bv64, a: bv64)
    requires AtAnEnd(start, end, a)
    ensures BlockOf(a) == BlockOf(start) || BlockOf(a) == BlockOf(end - 1)
  {
    hide Number, BlockOf;
    NumberOfBlock(a, start);
    NumberOfBlock(a, end - 1);
  }

  /** Page-aligned and within two blocks: the carve-out is then exactly the window. */
  lemma CarvedIsWindow(cfg: Config, a: bv64)
    requires Carves(cfg) && PageAligned(cfg.dmaStart) && PageAligned(cfg.dmaEnd) && TwoBlocks(cfg.dmaStart, cfg.dmaEnd)
    ensures CarvedOut(cfg, a) <==> InWindow(cfg, a)
  {
    hide WindowInRam, TwoBlocks, BlockOf, Page, Within, PageAligned, AtAnEnd;
    PageInWindow(cfg, a);
    if InWindow(cfg, a) {
      EndNumbers(cfg.dmaStart, cfg.dmaEnd, a);
      EndBlock(cfg.dmaStart, cfg.dmaEnd, a);
    }
  }

  // ---- When the carve-out is not the window ----

  lemma UnalignedStart(start: bv64, end: bv64)
    requires WindowInRam(start, end) && !PageAligned(start)
    ensures Within(start, end, start) && !Within(start, end, Page(start))
  {
  }

  lemma PageOfUnaligned(a: bv64)
    requires !PageAligned(a)
    ensures Below(Page(a), a)
  {
  }

  lemma EndAfterStart(start: bv64, end: bv64)
    requires WindowInRam(start, end)
    ensures !Below(end, start) && !Below(end, end)
  {
  }

  lemma UnalignedEnd(start: bv64, end: bv64)
    requires WindowInRam(start, end) && PageAligned(start) && !PageAligned(end)
    ensures !Within(start, end, end) && Within(start, end, Page(end))
  {
    hide Page, Below, PageAligned, WindowInRam;
    PageOfUnaligned(end);
    EndAfterStart(start, end);
    AlignedBoundBack(start, end);
  }

  lemma LastBlockOfEnd(end: bv64)
    requires !PageAligned(end)
    ensures BlockOf(end) == BlockOf(end - 1)
  {
  }

  /** The first byte of the block after the first. */
  function Middle(start: bv64): bv64 { (start & !0x1F_FFFF) + 0x20_0000 }

  lemma MiddleAfter(start: bv64, end: bv64)
    requires WindowInRam(start, end)
    ensures !Below(Middle(start), start)
  {
  }

  lemma MiddleBefore(start: bv64, end: bv64)
    requires WindowInRam(start, end) && !TwoBlocks(start, end)
    ensures Below(Middle(start), end)
  {
    assert ((end - 1) >> 21) - (start >> 21) > 1;
  }

  lemma MiddleBlockBase(start: bv64, end: bv64)
    requires WindowInRam(start, end) && !TwoBlocks(start, end)
    ensures BlockOf(Middle(start)) != BlockOf(start) && BlockOf(Middle(start)) != BlockOf(end - 1)
  {
  }

  /** The carve-out is the window if and only if both ends are page-aligned and the window spans at most two blocks. */
  lemma CarveOutExact(cfg: Config)
    requires Carves(cfg)
    ensures (forall a :: CarvedOut(cfg, a) <==> InWindow(cfg, a))
      <==> PageAligned(cfg.dmaStart) && PageAligned(cfg.dmaEnd) && TwoBlocks(cfg.dmaStart, cfg.dmaEnd)
  {
    hide WindowInRam, TwoBlocks, BlockOf, Page, Below, PageAligned, Middle;
    if !PageAligned(cfg.dmaStart) {
      UnalignedStart(cfg.dmaStart, cfg.dmaEnd);
      assert CarvedOut(cfg, cfg.dmaStart) != InWindow(cfg, cfg.dmaStart);
    } else if !PageAligned(cfg.dmaEnd) {
      UnalignedEnd(cfg.dmaStart, cfg.dmaEnd);
      LastBlockOfEnd(cfg.dmaEnd);
      assert CarvedOut(cfg, cfg.dmaEnd) != InWindow(cfg, cfg.dmaEnd);
    } else if !TwoBlocks(cfg.dmaStart, cfg.dmaEnd) {
      MiddleAfter(cfg.dmaStart, cfg.dmaEnd);
      MiddleBefore(cfg.dmaStart, cfg.dmaEnd);
      MiddleBlockBase(cfg.dmaStart, cfg.dmaEnd);
      assert CarvedOut(cfg, Middle(cfg.dmaStart)) != InWindow(cfg, Middle(cfg.dmaStart));
    } else {
      forall a ensures CarvedOut(cfg, a) <==> InWindow(cfg, a) { CarvedIsWindow(cfg, a); }
    }
  }

  // ---- Order ----

  lemma AtLeastTrans(a: bv64, b: bv64, c: bv64)
    ensures !Below(b, a) && !Below(c, b) ==> !Below(c, a)
  {
  }

  lemma BelowTrans(a: bv64, b: bv64, c: bv64)
    ensures Below(a, b) && !Below(c, b) ==> Below(a, c)
  {
  }

  lemma AtMostBelow(a: bv64, b: bv64, c: bv64)
    ensures !Below(b, a) && Below(b, c) ==> Below(a, c)
  {
    hide Below;
    AtLeastTrans(c, a, b);
  }

  lemma BelowOrder(a: bv64, b: bv64)
    ensures !Below(a, a) && (Below(a, b) ==> !Below(b, a))
  {
  }

  lemma RamBounds(a: bv64)
    ensures InRam(a) ==> !Below(a, 0x4000_0000)
  {
  }

  lemma RamLimit(a: bv64)
    ensures InRam(a) ==> Below(a, 0x8000_0000)
  {
  }

  lemma RamFrom(a: bv64)
    ensures !Below(a, 0x4000_0000) && Below(a, 0x8000_0000) ==> InRam(a)
  {
  }

  lemma TopAddress(a: bv64)
    ensures !Below(0xFFFF_FFFF_FFFF_FFFF, a) && !InRam(0xFFFF_FFFF_FFFF_FFFF)
  {
  }

  // ---- Cache maintenance ----

  function LastByte(buf: bv64, len: bv64): bv64 { buf + (len - 1) }

  /** dma_cache_maint_allowed; a >= b is written !Below(a, b). */
  predicate MaintenanceAllowed(cfg: Config, buf: bv64, len: bv64) {
    if buf == 0 || len == 0 then false
    else
      var start, end := buf, LastByte(buf, len);
      if Below(end, start) then false
      else if !Below(start, 0x8000_0000) && Below(end, 0xC000_0000) then false
      else if !(!Below(start, 0x4000_0000) && Below(end, 0x8000_0000)) then false
      else if cfg.nonCacheable && !Below(end, cfg.dmaStart) && Below(start, cfg.dmaEnd) then false
      else true
  }

  /** a is one of the len bytes from buf on, counting modulo 2^64. */
  predicate InRange(buf: bv64, len: bv64, a: bv64) {
    var last := LastByte(buf, len);
    if Below(last, buf) then !Below(a, buf) || !Below(last, a) else !Below(a, buf) && !Below(last, a)
  }

  predicate SmallWindow(start: bv64, end: bv64) { end - start <= 0x20_0000 }

  lemma SmallSpan(start: bv64, end: bv64)
    requires 0x4000_0000 <= start < end <= 0x8000_0000 && end - start <= 0x20_0000
    ensures ((end - 1) >> 21) - (start >> 21) <= 1
  {
  }

  lemma SmallIsTwoBlocks(start: bv64, end: bv64)
    requires WindowInRam(start, end) && SmallWindow(start, end)
    ensures TwoBlocks(start, end)
  {
    SmallSpan(start, end);
  }

  /** Page-aligned, within RAM and at most 2 MB. */
  predicate RightWindow(cfg: Config) {
    Carves(cfg) && PageAligned(cfg.dmaStart) && PageAligned(cfg.dmaEnd) && SmallWindow(cfg.dmaStart, cfg.dmaEnd)
  }

  /** Write-back addresses: RAM, without the window when its policy is non-cacheable. */
  predicate CacheableAt(cfg: Config, a: bv64) { InRam(a) && !(cfg.nonCacheable && InWindow(cfg, a)) }

  lemma WriteBackAddresses(cfg: Config, a: bv64)
    requires Placed(cfg) && RightWindow(cfg)
    ensures WriteBack(Translate(cfg, Built(cfg), a)) <==> CacheableAt(cfg, a)
  {
    hide Translate, Built, Intended, CarvedOut, Within, InRam, MemoryAttribute, WindowInRam, TwoBlocks, Placed,
      PageAligned, SmallWindow;
    InitialMap(cfg, a);
    SmallIsTwoBlocks(cfg.dmaStart, cfg.dmaEnd);
    CarvedIsWindow(cfg, a);
    Attributes();
    if InRam(a) { InsideTypes(cfg, a); } else { OutsideTypes(cfg, a); }
  }

  lemma OutsideTypes(cfg: Config, a: bv64)
    requires !InRam(a)
    ensures var w := Intended(cfg, a); w.Mapped? ==> w.attr == 1 || w.attr == 2
  {
    hide CarvedOut;
  }

  lemma InsideTypes(cfg: Config, a: bv64)
    requires InRam(a)
    ensures var w := Intended(cfg, a); w.Mapped? && w.attr == if CarvedOut(cfg, a) && cfg.nonCacheable then 2 else 0
  {
    hide CarvedOut;
  }

  lemma AllowedCacheable(cfg: Config, buf: bv64, len: bv64, a: bv64)
    requires MaintenanceAllowed(cfg, buf, len) && InRange(buf, len, a)
    ensures CacheableAt(cfg, a)
  {
    hide Below, InRam, LastByte;
    var last := LastByte(buf, len);
    AtLeastTrans(0x4000_0000, buf, a);
    AtLeastTrans(0x8000_0000, a, last);
    RamFrom(a);
    BelowTrans(last, cfg.dmaStart, a);
    AtLeastTrans(cfg.dmaStart, a, last);
    AtLeastTrans(cfg.dmaEnd, buf, a);
  }

  lemma CacheableAllowed(cfg: Config, buf: bv64, len: bv64)
    requires Carves(cfg) && buf != 0 && len != 0 && forall a :: InRange(buf, len, a) ==> CacheableAt(cfg, a)
    ensures MaintenanceAllowed(cfg, buf, len)
  {
    hide Below, InRam, LastByte, WindowInRam;
    var last := LastByte(buf, len);
    TopAddress(buf);
    BelowOrder(buf, buf);
    BelowOrder(last, last);
    assert InRange(buf, len, buf) ==> CacheableAt(cfg, buf);
    assert InRange(buf, len, last) ==> CacheableAt(cfg, last);
    assert InRange(buf, len, 0xFFFF_FFFF_FFFF_FFFF) ==> CacheableAt(cfg, 0xFFFF_FFFF_FFFF_FFFF);
    assert InRange(buf, len, cfg.dmaStart) ==> CacheableAt(cfg, cfg.dmaStart);
    RamBounds(buf);
    RamLimit(buf);
    RamLimit(last);
    BelowOrder(buf, cfg.dmaStart);
    BelowOrder(cfg.dmaStart, cfg.dmaStart);
    StartBelowEnd(cfg);
  }

  lemma StartBelowEnd(cfg: Config)
    requires Carves(cfg)
    ensures Below(cfg.dmaStart, cfg.dmaEnd)
  {
  }

  /** Before any guard page, maintenance is allowed on exactly the non-null, non-empty, all write-back ranges. */
  lemma PolicyAgreesWithWalk(cfg: Config, buf: bv64, len: bv64)
    requires Placed(cfg) && RightWindow(cfg)
    ensures MaintenanceAllowed(cfg, buf, len)
      <==> buf != 0 && len != 0 && forall a :: InRange(buf, len, a) ==> WriteBack(Translate(cfg, Built(cfg), a))
  {
    hide Below, InRam, LastByte, WindowInRam, Translate, WriteBack, CacheableAt, InRange, Built, SmallWindow,
      PageAligned;
    forall a ensures WriteBack(Translate(cfg, Built(cfg), a)) <==> CacheableAt(cfg, a) { WriteBackAddresses(cfg, a); }
    if MaintenanceAllowed(cfg, buf, len) {
      forall a | InRange(buf, len, a) ensures CacheableAt(cfg, a) { AllowedCacheable(cfg, buf, len, a); }
    } else if buf != 0 && len != 0 && forall a :: InRange(buf, len, a) ==> CacheableAt(cfg, a) {
      CacheableAllowed(cfg, buf, len);
    }
  }

  // ---- Alias and device view ----

  /** A RAM address to its alias, and back. */
  function Up(p: bv64): bv64 { p + 0x4000_0000 }

  function Down(p: bv64): bv64 { p - 0x4000_0000 }

  /** dma_window_contains_range. */
  predicate WindowContains(cfg: Config, p: bv64, len: bv64) {
    if p == 0 || len == 0 then false
    else
      var start, end := p, LastByte(p, len);
      if Below(end, start) then false
      else !Below(start, cfg.dmaStart) && Below(end, cfg.dmaEnd)
  }

  lemma TopOutside(start: bv64, end: bv64)
    requires WindowInRam(start, end)
    ensures !Within(start, end, 0xFFFF_FFFF_FFFF_FFFF)
  {
  }

  /** The first and the last byte of a range are in it, and a range that wraps reaches the top address. */
  lemma RangeEnds(buf: bv64, len: bv64)
    ensures InRange(buf, len, buf) && InRange(buf, len, LastByte(buf, len))
    ensures Below(LastByte(buf, len), buf) ==> InRange(buf, len, 0xFFFF_FFFF_FFFF_FFFF)
  {
    hide Below, LastByte;
    BelowOrder(buf, buf);
    BelowOrder(LastByte(buf, len), LastByte(buf, len));
    TopAddress(buf);
  }

  /** A range is contained exactly when it is non-null and non-empty and every byte of it is in the window. */
  lemma ContainedExact(cfg: Config, p: bv64, len: bv64)
    requires Carves(cfg)
    ensures WindowContains(cfg, p, len)
      <==> p != 0 && len != 0 && forall a :: InRange(p, len, a) ==> InWindow(cfg, a)
  {
    var last := LastByte(p, len);
    hide Below, InRam, LastByte, WindowInRam;
    if WindowContains(cfg, p, len) {
      forall a | InRange(p, len, a) ensures InWindow(cfg, a) {
        AtLeastTrans(cfg.dmaStart, p, a);
        AtMostBelow(a, last, cfg.dmaEnd);
      }
    } else if p != 0 && len != 0 && forall a :: InRange(p, len, a) ==> InWindow(cfg, a) {
      BytesContained(cfg, p, len);
    }
  }

  lemma BytesContained(cfg: Config, p: bv64, len: bv64)
    requires Carves(cfg) && p != 0 && len != 0 && forall a :: InRange(p, len, a) ==> InWindow(cfg, a)
    ensures WindowContains(cfg, p, len)
  {
    var last := LastByte(p, len);
    hide Below, LastByte, WindowInRam;
    RangeEnds(p, len);
    TopOutside(cfg.dmaStart, cfg.dmaEnd);
    assert InRange(p, len, p) ==> InWindow(cfg, p);
    assert InRange(p, len, last) ==> InWindow(cfg, last);
    assert InRange(p, len, 0xFFFF_FFFF_FFFF_FFFF) ==> InWindow(cfg, 0xFFFF_FFFF_FFFF_FFFF);
  }

  /** dma_window_to_nocache_alias; a null pointer is 0. */
  function ToAlias(cfg: Config, p: bv64, len: bv64): bv64 {
    if !WindowContains(cfg, p, len) then 0 else Up(p)
  }

  /** dma_window_from_nocache_alias. */
  function FromAlias(cfg: Config, p: bv64, len: bv64): bv64 {
    if p == 0 || len == 0 then 0
    else
      var base := Down(p);
      if Below(p, base) then 0
      else if WindowContains(cfg, base, len) then base else 0
  }

  /** dma_device_view. */
  function DeviceView(on: bool, buf: bv64, len: bv64): bv64 {
    if buf == 0 || len == 0 then buf
    else if !on then buf
    else
      var start, end := buf, LastByte(buf, len);
      if Below(end, start) then buf
      else if !Below(start, 0x8000_0000) && Below(end, 0xC000_0000) then buf
      else if !Below(start, 0x4000_0000) && Below(end, 0x8000_0000) then Up(start)
      else buf
  }

  lemma Shifted(p: bv64)
    requires InRam(p)
    ensures Up(p) != 0 && Down(Up(p)) == p && !Below(Up(p), p)
    ensures !Below(Up(p), 0x8000_0000) && Below(Up(p), 0xC000_0000)
  {
  }

  lemma ShiftedWalk(cfg: Config, p: bv64)
    requires InRam(p)
    ensures Intended(cfg, Up(p)) == Kernel(p, 2, 3, true)
  {
  }

  lemma WindowStartInRam(cfg: Config, p: bv64, len: bv64)
    requires Carves(cfg) && WindowContains(cfg, p, len)
    ensures InRam(p)
  {
    hide Below, InRam, LastByte;
    RangeStartInRam(cfg.dmaStart, cfg.dmaEnd, p, LastByte(p, len));
  }

  lemma RangeStartInRam(start: bv64, end: bv64, p: bv64, last: bv64)
    requires WindowInRam(start, end) && !Below(last, p) && !Below(p, start) && Below(last, end)
    ensures InRam(p)
  {
    WindowEdges(start, end);
    hide Below, InRam, WindowInRam;
    AtLeastTrans(0x4000_0000, start, p);
    AtLeastTrans(0x8000_0000, p, last);
    BelowTrans(last, end, 0x8000_0000);
    RamFrom(p);
  }

  lemma WindowEdges(start: bv64, end: bv64)
    requires WindowInRam(start, end)
    ensures !Below(start, 0x4000_0000) && !Below(0x8000_0000, end)
  {
  }

  /** Alias conversion succeeds exactly inside the window and is undone by its inverse. */
  lemma AliasRoundTrip(cfg: Config, p: bv64, len: bv64)
    requires Carves(cfg)
    ensures ToAlias(cfg, p, len) != 0 <==> WindowContains(cfg, p, len)
    ensures ToAlias(cfg, p, len) != 0 ==> FromAlias(cfg, ToAlias(cfg, p, len), len) == p
    ensures FromAlias(cfg, p, len) != 0 ==> ToAlias(cfg, FromAlias(cfg, p, len), len) == p
  {
    hide Below, InRam, LastByte, WindowInRam, Up, Down;
    if WindowContains(cfg, p, len) {
      WindowStartInRam(cfg, p, len);
      Shifted(p);
    }
    BackAndForth(p);
  }

  lemma BackAndForth(p: bv64)
    ensures Up(Down(p)) == p
  {
  }

  /** A RAM address and its alias translate to the same byte, the alias non-cacheable. */
  lemma AliasSameByte(cfg: Config, a: bv64)
    requires Placed(cfg) && InRam(a)
    ensures var primary, shadow := Translate(cfg, Built(cfg), a), Translate(cfg, Built(cfg), Up(a));
      primary.Mapped? && shadow.Mapped? && primary.pa == shadow.pa == a && NonCacheable(shadow)
  {
    hide Translate, Built, CarvedOut, InRam, MemoryAttribute, Placed, Intended, Up;
    InitialMap(cfg, a);
    InitialMap(cfg, Up(a));
    ShiftedWalk(cfg, a);
    OwnAddress(cfg, a);
    Attributes();
  }

  lemma OwnAddress(cfg: Config, a: bv64)
    requires InRam(a)
    ensures Intended(cfg, a).Mapped? && Intended(cfg, a).pa == a
  {
    hide CarvedOut;
  }

  lemma UpMoves(p: bv64)
    ensures Up(p) != p
  {
  }

  /** With the MMU on, the device reaches a range that lies in RAM through its alias and any other at its own address. */
  lemma DeviceUsesAlias(cfg: Config, buf: bv64, len: bv64)
    ensures var inRam := buf != 0 && len != 0 && forall a :: InRange(buf, len, a) ==> InRam(a);
      && DeviceView(true, buf, len) == (if inRam then Up(buf) else buf)
      && (MaintenanceAllowed(cfg, buf, len) ==> inRam)
    ensures DeviceView(false, buf, len) == buf && Up(buf) != buf
  {
    UpMoves(buf);
    var last := LastByte(buf, len);
    hide Below, InRam, LastByte, Up;
    RangeEnds(buf, len);
    TopAddress(buf);
    RamBounds(buf);
    RamLimit(buf);
    RamLimit(last);
    AtLeastTrans(0x8000_0000, buf, last);
    if buf != 0 && len != 0 && !Below(last, buf) && !Below(buf, 0x4000_0000) && Below(last, 0x8000_0000) {
      BelowTrans(last, 0x8000_0000, buf);
      forall a | InRange(buf, len, a) ensures InRam(a) {
        AtLeastTrans(0x4000_0000, buf, a);
        AtMostBelow(a, last, 0x8000_0000);
        RamFrom(a);
      }
    }
  }
}
