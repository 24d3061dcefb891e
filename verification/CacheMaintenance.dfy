/**
 * The driver's loops over cache lines and bytes, run on the machine of Coherency without interruption.
 *
 * The range check decides by addresses; here it is tied to the lines the mapping leaves uncached.
 */
module CacheMaintenance {
  import opened Prelude
  import opened Coherency

  class Driver {
    var m: Machine
    const windowStart: nat
    const windowEnd: nat
    const nonCacheable: bool

    /** The lines of the window, and only those, are uncached, and only under the non-cacheable policy. */
    ghost predicate Valid()
      reads this
    {
      && Sound(m) && windowStart < windowEnd && LineAligned(m.line, windowStart, windowEnd - windowStart)
      && (forall pa: nat :: LineAt(m.line, pa) in m.uncached <==> nonCacheable && windowStart <= pa < windowEnd)
    }

    /** dma_cache_maint_allowed on a RAM range. */
    predicate Allowed(p: nat, len: nat)
      reads this
    {
      if len == 0 then false
      else if nonCacheable && p + len - 1 >= windowStart && p < windowEnd then false
      else true
    }

    /** The check by addresses allows exactly the non-empty ranges without an uncached byte. */
    lemma AllowedIsMaintained(p: nat, len: nat)
      requires Valid() && len > 0
      ensures Allowed(p, len) <==> Maintained(m.line, m.uncached, p, len)
    {
      var pa := if p < windowStart then windowStart else p;
      assert !Allowed(p, len) ==> In(p, len, pa) && LineAt(m.line, pa) in m.uncached;
    }

    method Do(e: Event)
      requires Valid() && Enabled(m, e)
      modifies this`m
      ensures Valid() && m == Next(old(m), e)
    {
      m := Next(m, e);
    }

    /** dc_range_common: one cache operation for each line from p aligned down to p + len aligned up. */
    method DcRangeCommon(p: nat, len: nat, clean: bool)
      requires Valid() && len > 0
      modifies this`m
      ensures Valid() && m.line == old(m).line
      ensures var l := old(m).line;
        var ops := if clean then Cleans(FirstLine(l, p), EndLine(l, p, len)) else Invalidates(FirstLine(l, p), EndLine(l, p, len));
        Runs(old(m), ops) && m == After(old(m), ops)
    {
      var line := m.line;
      ghost var was := m;
      var start := p - p % line;
      var end := (p + len + line - 1) - (p + len + line - 1) % line;
      var addr := start;
      ghost var first, last := FirstLine(line, p), EndLine(line, p, len);
      ghost var k := first;
      AlignedBounds(line, p, len);
      ghost var ops := if clean then Cleans(first, last) else Invalidates(first, last);
      assert ops[..0] == [];
      while addr < end
        invariant first <= k <= last && addr == line * k && end == line * last
        invariant m.line == line && Valid()
        invariant Runs(was, ops[..k - first]) && m == After(was, ops[..k - first])
        decreases last - k
      {
        OneMoreLine(line, k, last);
        var e := if clean then CleanLine(addr / line) else InvalidateLine(addr / line);
        assert ops[k - first] == e && ops[..k - first + 1] == ops[..k - first] + [e];
        RunOneMore(was, ops[..k - first], e);
        Do(e);
        addr := addr + line;
        k := k + 1;
      }
      LoopDone(line, k, last);
      assert ops[..k - first] == ops;
    }

    /** dma_memcpy as the device: byte by byte, in memory. */
    method DeviceMemcpy(dst: nat, src: nat, len: nat)
      requires Valid() && dst + len <= |m.mem| && src + len <= |m.mem|
      modifies this`m
      ensures Valid() && Runs(old(m), Copies(dst, src, len)) && m == After(old(m), Copies(dst, src, len))
    {
      ghost var was := m;
      ghost var ops := Copies(dst, src, len);
      var i := 0;
      assert ops[..0] == [];
      while i < len
        invariant i <= len && Valid() && |m.mem| == |was.mem|
        invariant Runs(was, ops[..i]) && m == After(was, ops[..i])
      {
        var e := DeviceCopy(dst + i, src + i);
        assert ops[..i + 1] == ops[..i] + [e];
        RunOneMore(was, ops[..i], e);
        Do(e);
        i := i + 1;
      }
      assert ops[..len] == ops;
    }

    /** dma_prepare_to_device on the source, as dma_submit_memcpy calls it. */
    method PrepareSource(src: nat, len: nat)
      requires Valid() && len > 0
      modifies this`m
      ensures Valid() && var ops := SubmitProgram(old(m), src, len); Runs(old(m), ops) && m == After(old(m), ops)
    {
      AllowedIsMaintained(src, len);
      if Allowed(src, len) {
        DcRangeCommon(src, len, true);
      }
    }

    /** The copy and completion of one descriptor in dma_poll_complete, the device using the alias. */
    method CopyAndComplete(dst: nat, src: nat, len: nat)
      requires Valid() && len > 0 && dst + len <= |m.mem| && src + len <= |m.mem|
      modifies this`m
      ensures Valid() && var ops := PollProgram(old(m), dst, src, len); Runs(old(m), ops) && m == After(old(m), ops)
    {
      ghost var was := m;
      ghost var copies := Copies(dst, src, len);
      DeviceMemcpy(dst, src, len);
      ghost var mid := m;
      AllowedIsMaintained(dst, len);
      ghost var rest := if Maintained(was.line, was.uncached, dst, len)
        then Invalidates(FirstLine(was.line, dst), EndLine(was.line, dst, len)) else [];
      if Allowed(dst, len) {
        DcRangeCommon(dst, len, false);
      }
      AfterConcat(was, copies, rest);
    }
  }

  lemma AlignedBounds(line: nat, p: nat, len: nat)
    requires line > 0 && len > 0
    ensures p - p % line == line * FirstLine(line, p)
    ensures (p + len + line - 1) - (p + len + line - 1) % line == line * EndLine(line, p, len)
    ensures FirstLine(line, p) <= EndLine(line, p, len)
  {
    Covered(line, p, len, p);
  }

  lemma OneMoreLine(line: nat, k: nat, last: nat)
    requires line > 0 && line * k < line * last
    ensures k < last && (line * k) / line == k && line * k + line == line * (k + 1)
  {
    if k >= last { MulOrder(line, last, k); }
    DivUnique(line, line * k, k, 0);
  }

  lemma LoopDone(line: nat, k: nat, last: nat)
    requires line > 0 && line * k >= line * last && k <= last
    ensures k == last
  {
    if k < last { MulOrder(line, k + 1, last); }
  }

  lemma RunOneMore(m: Machine, es: seq<Event>, e: Event)
    requires Sound(m) && Runs(m, es) && Enabled(After(m, es), e)
    ensures Runs(m, es + [e]) && After(m, es + [e]) == Next(After(m, es), e)
  {
    AfterConcat(m, es, [e]);
    assert [e][1..] == [];
  }
}
