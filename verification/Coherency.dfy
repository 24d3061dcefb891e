/**
 * Memory, a write-back cache of whole lines, and a device that bypasses the cache.
 *
 * Addresses are offsets into RAM. The CPU reads and writes through the cache except on non-cacheable
 * lines; the device reads and writes memory. Fills and evictions may happen at any time.
 */
module Coherency {
  import opened Prelude

  type Byte = bv8

  /** `data` holds the cached bytes of the valid lines; `uncached` are the lines mapped non-cacheable. */
  datatype Machine = Machine(line: nat, mem: seq<Byte>, data: seq<Byte>, valid: set<nat>, dirty: set<nat>, uncached: set<nat>)

  datatype Event =
    | Fill(l: nat) | Evict(l: nat) | Write(pa: nat, b: Byte)
    | CleanLine(l: nat) | InvalidateLine(l: nat) | DeviceCopy(d: nat, s: nat)

  ghost predicate Sound(m: Machine) {
    && m.line > 0 && |m.data| == |m.mem| && m.dirty <= m.valid
    && (forall l :: l in m.valid ==> l !in m.uncached)
  }

  function LineAt(line: nat, pa: nat): nat
    requires line > 0
  {
    pa / line
  }

  function LineOf(m: Machine, pa: nat): nat
    requires m.line > 0
  {
    LineAt(m.line, pa)
  }

  /** What the CPU reads. */
  function View(m: Machine, pa: nat): Byte
    requires m.line > 0 && pa < |m.mem| == |m.data|
  {
    if LineOf(m, pa) in m.valid then m.data[pa] else m.mem[pa]
  }

  /** Memory holds what the CPU reads. */
  predicate Synced(m: Machine, pa: nat)
    requires m.line > 0 && pa < |m.mem| == |m.data|
  {
    View(m, pa) == m.mem[pa]
  }

  /** The bytes of `to`, with line l taken from `from`. */
  function CopyLine(m: Machine, to: seq<Byte>, from: seq<Byte>, l: nat): (r: seq<Byte>)
    requires m.line > 0 && |to| == |from|
    ensures |r| == |to|
  {
    seq(|to|, i requires 0 <= i < |to| => if LineOf(m, i) == l then from[i] else to[i])
  }

  predicate Enabled(m: Machine, e: Event) {
    match e
    case Fill(l) => l !in m.valid && l !in m.uncached
    case Evict(l) => l in m.valid
    case Write(pa, _) => pa < |m.mem|
    case DeviceCopy(d, s) => d < |m.mem| && s < |m.mem|
    case _ => true
  }

  function WriteBack(m: Machine, l: nat): Machine
    requires m.line > 0 && |m.data| == |m.mem|
  {
    m.(mem := if l in m.dirty then CopyLine(m, m.mem, m.data, l) else m.mem, dirty := m.dirty - {l})
  }

  function Filled(m: Machine, l: nat): Machine
    requires m.line > 0 && |m.data| == |m.mem|
  {
    m.(valid := m.valid + {l}, data := CopyLine(m, m.data, m.mem, l))
  }

  function Next(m: Machine, e: Event): (r: Machine)
    requires Sound(m) && Enabled(m, e)
    ensures Sound(r) && r.line == m.line && |r.mem| == |m.mem| && r.uncached == m.uncached
  {
    match e
    case Fill(l) => Filled(m, l)
    case Evict(l) =>
      var w := WriteBack(m, l);
      w.(valid := m.valid - {l})
    case Write(pa, b) =>
      var l := LineOf(m, pa);
      if l in m.uncached then m.(mem := m.mem[pa := b])
      else
        var f := if l in m.valid then m else Filled(m, l);
        f.(data := f.data[pa := b], dirty := f.dirty + {l})
    case CleanLine(l) => WriteBack(m, l)
    case InvalidateLine(l) => m.(valid := m.valid - {l}, dirty := m.dirty - {l})
    case DeviceCopy(d, s) => m.(mem := m.mem[d := m.mem[s]])
  }

  ghost predicate Runs(m: Machine, es: seq<Event>)
    requires Sound(m)
    decreases |es|
  {
    es == [] || (Enabled(m, es[0]) && Runs(Next(m, es[0]), es[1..]))
  }

  ghost function After(m: Machine, es: seq<Event>): (r: Machine)
    requires Sound(m) && Runs(m, es)
    ensures Sound(r) && r.line == m.line && |r.mem| == |m.mem| && r.uncached == m.uncached
    decreases |es|
  {
    if es == [] then m else After(Next(m, es[0]), es[1..])
  }

  // ---- One step, one address ----

  /** The event writes pa, by CPU or device. */
  predicate Writes(e: Event, pa: nat) { (e.Write? && e.pa == pa) || (e.DeviceCopy? && e.d == pa) }

  /** A cached copy of pa that is not dirty agrees with memory; false only where a device wrote underneath. */
  predicate Settled(m: Machine, pa: nat)
    requires m.line > 0 && pa < |m.mem| == |m.data|
  {
    LineOf(m, pa) in m.dirty || Synced(m, pa)
  }

  /** At a settled address only a write changes what the CPU reads, or an invalidation if memory differs. */
  lemma ViewStep(m: Machine, e: Event, pa: nat)
    requires Sound(m) && Enabled(m, e) && pa < |m.mem| && !Writes(e, pa) && Settled(m, pa)
    requires e == InvalidateLine(LineOf(m, pa)) ==> Synced(m, pa)
    ensures View(Next(m, e), pa) == View(m, pa) && Settled(Next(m, e), pa)
    ensures Synced(m, pa) || e == CleanLine(LineOf(m, pa)) ==> Synced(Next(m, e), pa)
  {
  }

  lemma WriteStep(m: Machine, pa: nat, b: Byte)
    requires Sound(m) && pa < |m.mem|
    ensures View(Next(m, Write(pa, b)), pa) == b && Settled(Next(m, Write(pa, b)), pa)
  {
  }

  /** If the cached copy of pa may still be written back, it is v. */
  predicate Carries(m: Machine, pa: nat, v: Byte)
    requires m.line > 0 && pa < |m.data|
  {
    LineOf(m, pa) in m.dirty ==> m.data[pa] == v
  }

  /** Without a write, what may be written back stays, and so does v in memory; an invalidation shows it to the CPU. */
  lemma MemoryStep(m: Machine, e: Event, pa: nat, v: Byte)
    requires Sound(m) && Enabled(m, e) && pa < |m.mem| && Carries(m, pa, v)
    requires e.Write? && e.pa < |m.mem| ==> LineOf(m, e.pa) != LineOf(m, pa)
    ensures Carries(Next(m, e), pa, v)
    ensures m.mem[pa] == v && !Writes(e, pa) ==> Next(m, e).mem[pa] == v
    ensures m.mem[pa] == v && !Writes(e, pa) && e == InvalidateLine(LineOf(m, pa)) ==> Synced(Next(m, e), pa)
    ensures m.mem[pa] == v && !Writes(e, pa) && Synced(m, pa) ==> Synced(Next(m, e), pa)
  {
  }

  /** Invalidating a line keeps the CPU's view of its bytes exactly where memory already agrees. */
  lemma InvalidateExact(m: Machine, l: nat, pa: nat)
    requires Sound(m) && pa < |m.mem|
    ensures View(Next(m, InvalidateLine(l)), pa) == View(m, pa) <==> LineOf(m, pa) != l || Synced(m, pa)
  {
  }

  // ---- Runs ----

  /** The value last written by the CPU to pa, v if none. */
  function LastWritten(es: seq<Event>, pa: nat, v: Byte): Byte {
    if es == [] then v
    else LastWritten(es[1..], pa, if es[0].Write? && es[0].pa == pa then es[0].b else v)
  }

  /** No event writes pa by device or drops its line. */
  ghost predicate Untouched(line: nat, es: seq<Event>, pa: nat)
    requires line > 0
  {
    forall i :: 0 <= i < |es| ==> !(es[i].DeviceCopy? && es[i].d == pa) && es[i] != InvalidateLine(LineAt(line, pa))
  }

  /** Outside the device's reach, the CPU reads what it last wrote, whatever is cached, cleaned or evicted. */
  lemma {:induction false} ViewRun(m: Machine, es: seq<Event>, pa: nat)
    requires Sound(m) && Runs(m, es) && pa < |m.mem| && Settled(m, pa) && Untouched(m.line, es, pa)
    ensures var r := After(m, es); View(r, pa) == LastWritten(es, pa, View(m, pa)) && Settled(r, pa)
    decreases |es|
  {
    if es != [] {
      var e := es[0];
      if e.Write? && e.pa == pa { WriteStep(m, pa, e.b); } else { ViewStep(m, e, pa); }
      assert forall i :: 0 <= i < |es[1..]| ==> es[1..][i] == es[i + 1];
      ViewRun(Next(m, e), es[1..], pa);
    }
  }

  ghost predicate NotWritten(es: seq<Event>, pa: nat) {
    forall i :: 0 <= i < |es| ==> !(es[i].Write? && es[i].pa == pa)
  }

  /** Once cleaned, memory keeps holding what the CPU reads as long as nobody writes. */
  lemma {:induction false} SyncedRun(m: Machine, es: seq<Event>, pa: nat)
    requires Sound(m) && Runs(m, es) && pa < |m.mem| && Settled(m, pa) && Untouched(m.line, es, pa) && NotWritten(es, pa)
    requires Synced(m, pa) || CleanLine(LineOf(m, pa)) in es
    ensures var r := After(m, es); View(r, pa) == View(m, pa) && Synced(r, pa)
    decreases |es|
  {
    if es != [] {
      var e := es[0];
      ViewStep(m, e, pa);
      assert forall i :: 0 <= i < |es[1..]| ==> es[1..][i] == es[i + 1];
      assert es == [e] + es[1..];
      SyncedRun(Next(m, e), es[1..], pa);
    }
  }

  /** The CPU writes nothing on the line of pa. */
  ghost predicate LineNotWritten(line: nat, es: seq<Event>, pa: nat)
    requires line > 0
  {
    forall i :: 0 <= i < |es| ==> !(es[i].Write? && LineAt(line, es[i].pa) == LineAt(line, pa))
  }

  ghost predicate NoDevice(es: seq<Event>, pa: nat) {
    forall i :: 0 <= i < |es| ==> !(es[i].DeviceCopy? && es[i].d == pa)
  }

  /**
   * A device's byte survives in memory unless the line holds another value to be written back, and the CPU
   * sees it once the line is invalidated.
   */
  lemma {:induction false} MemoryRun(m: Machine, es: seq<Event>, pa: nat)
    requires Sound(m) && Runs(m, es) && pa < |m.mem| && Carries(m, pa, m.mem[pa])
    requires LineNotWritten(m.line, es, pa) && NoDevice(es, pa)
    ensures var r := After(m, es); r.mem[pa] == m.mem[pa] && Carries(r, pa, m.mem[pa])
    ensures Synced(m, pa) || InvalidateLine(LineOf(m, pa)) in es ==> Synced(After(m, es), pa)
    decreases |es|
  {
    if es != [] {
      var e := es[0];
      assert !Writes(e, pa);
      MemoryStep(m, e, pa, m.mem[pa]);
      assert forall i :: 0 <= i < |es[1..]| ==> es[1..][i] == es[i + 1];
      assert es == [e] + es[1..];
      MemoryRun(Next(m, e), es[1..], pa);
    }
  }

  // ---- The driver's programs ----

  /** Steps at memory behind the cache, and steps that drop cached bytes. */
  predicate IsDevice(e: Event) { e.InvalidateLine? || e.DeviceCopy? }

  /** The device steps of a run, in order. Cleaning is left out: it never hurts. */
  function Device(es: seq<Event>): seq<Event> {
    if es == [] then [] else (if IsDevice(es[0]) then [es[0]] else []) + Device(es[1..])
  }

  /** Lines first, first + 1, ... below last. */
  function Cleans(first: nat, last: nat): seq<Event> {
    seq(if first < last then last - first else 0, i requires i >= 0 => CleanLine(first + i))
  }

  function Invalidates(first: nat, last: nat): seq<Event> {
    seq(if first < last then last - first else 0, i requires i >= 0 => InvalidateLine(first + i))
  }

  function Copies(dst: nat, src: nat, len: nat): seq<Event> {
    seq(len, i requires 0 <= i < len => DeviceCopy(dst + i, src + i))
  }

  /** The lines dc_range_common visits: from p aligned down to p + len aligned up. */
  function FirstLine(line: nat, p: nat): nat
    requires line > 0
  {
    p / line
  }

  function EndLine(line: nat, p: nat, len: nat): nat
    requires line > 0
  {
    (p + len + line - 1) / line
  }

  ghost predicate In(p: nat, len: nat, pa: nat) { p <= pa < p + len }

  /** Source, destination and length of a copy between RAM buffers. */
  datatype Job = Job(dst: nat, src: nat, len: nat)

  /** A copy into the destination of j or an invalidation of one of its lines. */
  ghost predicate Own(line: nat, j: Job, e: Event)
    requires line > 0
  {
    || (e.DeviceCopy? && In(j.dst, j.len, e.d))
    || (e.InvalidateLine? && FirstLine(line, j.dst) <= e.l < EndLine(line, j.dst, j.len))
  }

  /** The steps of a run that belong to j, in order. */
  ghost function Owned(line: nat, j: Job, es: seq<Event>): seq<Event>
    requires line > 0
  {
    if es == [] then [] else (if Own(line, j, es[0]) then [es[0]] else []) + Owned(line, j, es[1..])
  }

  lemma {:induction false} OwnedMembers(line: nat, j: Job, es: seq<Event>)
    requires line > 0
    ensures forall e :: e in Owned(line, j, es) <==> e in es && Own(line, j, e)
  {
    if es != [] {
      OwnedMembers(line, j, es[1..]);
      assert es == [es[0]] + es[1..];
    }
  }

  /** The i-th step of j in a run, and what is left before and after it. */
  lemma {:induction false} Locate(line: nat, j: Job, es: seq<Event>, i: nat) returns (x: seq<Event>, y: seq<Event>)
    requires line > 0 && i < |Owned(line, j, es)|
    ensures es == x + [Owned(line, j, es)[i]] + y && Owned(line, j, y) == Owned(line, j, es)[i + 1..]
  {
    hide Own;
    var e, rest := es[0], es[1..];
    if Own(line, j, e) && i == 0 {
      x, y := [], rest;
    } else {
      x, y := Locate(line, j, rest, if Own(line, j, e) then i - 1 else i);
      x := [e] + x;
    }
  }

  lemma {:induction false} AfterConcat(m: Machine, a: seq<Event>, b: seq<Event>)
    requires Sound(m)
    ensures Runs(m, a + b) <==> Runs(m, a) && Runs(After(m, a), b)
    ensures Runs(m, a + b) ==> After(m, a + b) == After(After(m, a), b)
    decreases |a|
  {
    if a == [] {
      assert a + b == b;
    } else {
      assert (a + b)[1..] == a[1..] + b;
      if Enabled(m, a[0]) { AfterConcat(Next(m, a[0]), a[1..], b); }
    }
  }

  // ---- The copy, end to end ----

  /** Maintenance happens on ranges without a non-cacheable byte. */
  ghost predicate Maintained(line: nat, uncached: set<nat>, p: nat, len: nat)
    requires line > 0
  {
    forall pa :: In(p, len, pa) ==> LineAt(line, pa) !in uncached
  }

  /** The range does not straddle the edge of a non-cacheable mapping. */
  ghost predicate Uniform(line: nat, uncached: set<nat>, p: nat, len: nat)
    requires line > 0
  {
    Maintained(line, uncached, p, len) || forall pa :: In(p, len, pa) ==> LineAt(line, pa) in uncached
  }

  /** What dma_submit_memcpy does to the source. */
  ghost function SubmitProgram(m: Machine, src: nat, len: nat): seq<Event>
    requires m.line > 0
  {
    if Maintained(m.line, m.uncached, src, len) then Cleans(FirstLine(m.line, src), EndLine(m.line, src, len)) else []
  }

  /** What dma_poll_complete does for one descriptor before its callback. */
  ghost function PollProgram(m: Machine, dst: nat, src: nat, len: nat): seq<Event>
    requires m.line > 0
  {
    Copies(dst, src, len)
    + if Maintained(m.line, m.uncached, dst, len) then Invalidates(FirstLine(m.line, dst), EndLine(m.line, dst, len)) else []
  }

  lemma Covered(line: nat, p: nat, len: nat, pa: nat)
    requires line > 0 && p <= pa < p + len
    ensures FirstLine(line, p) <= LineAt(line, pa) < EndLine(line, p, len)
  {
    DivOrder(line, p, pa);
    DivOrder(line, pa + line, p + len + line - 1);
    DivNext(line, pa);
  }

  lemma DivOrder(line: nat, a: nat, b: nat)
    requires line > 0 && a <= b
    ensures a / line <= b / line
  {
    if a / line > b / line { MulOrder(line, b / line + 1, a / line); }
  }

  lemma DivNext(line: nat, a: nat)
    requires line > 0
    ensures (a + line) / line == a / line + 1
  {
    assert line * (a / line + 1) == line * (a / line) + line;
    DivUnique(line, a + line, a / line + 1, a % line);
  }

  lemma AlignedEnd(line: nat, p: nat, len: nat, a: nat, b: nat)
    requires line > 0 && p == line * a && len == line * b
    ensures FirstLine(line, p) == a && EndLine(line, p, len) == a + b && p + len == line * (a + b)
  {
    assert line * (a + b) == line * a + line * b;
    DivUnique(line, p, a, 0);
    DivUnique(line, p + len + line - 1, a + b, line - 1);
  }

  predicate LineAligned(line: nat, p: nat, len: nat)
    requires line > 0
  {
    p % line == 0 && len % line == 0
  }

  /** A line-aligned range shares no line with the rest. */
  lemma OwnLines(line: nat, p: nat, len: nat, pa: nat)
    requires line > 0 && LineAligned(line, p, len)
    requires FirstLine(line, p) <= LineAt(line, pa) < EndLine(line, p, len)
    ensures p <= pa < p + len
  {
    var a, b := p / line, len / line;
    AlignedEnd(line, p, len, a, b);
    MulOrder(line, a, pa / line);
    MulOrder(line, pa / line + 1, a + b);
  }

  /** Both buffers in memory and apart, the destination on lines of its own, neither straddling a mapping. */
  ghost predicate Proper(m: Machine, j: Job) {
    && Sound(m) && j.len > 0 && j.src + j.len <= |m.mem| && j.dst + j.len <= |m.mem|
    && (j.src + j.len <= j.dst || j.dst + j.len <= j.src)
    && LineAligned(m.line, j.dst, j.len)
    && Uniform(m.line, m.uncached, j.src, j.len) && Uniform(m.line, m.uncached, j.dst, j.len)
  }

  /** The event changes memory under pa by device, or drops the cached copy of pa. */
  predicate Disturbs(line: nat, e: Event, pa: nat)
    requires line > 0
  {
    (e.DeviceCopy? && e.d == pa) || e == InvalidateLine(LineAt(line, pa))
  }

  /** Other requests' copies and invalidations stay away from pa. */
  ghost predicate Spared(line: nat, es: seq<Event>, j: Job, pa: nat)
    requires line > 0
  {
    forall i :: 0 <= i < |es| && Disturbs(line, es[i], pa) ==> Own(line, j, es[i])
  }

  /** Steps of j itself never touch an address outside its destination. */
  lemma OutsideUntouched(m: Machine, j: Job, es: seq<Event>, pa: nat)
    requires Proper(m, j) && !In(j.dst, j.len, pa) && Spared(m.line, es, j, pa)
    ensures Untouched(m.line, es, pa)
  {
    hide Uniform, LineAligned;
    forall i | 0 <= i < |es| ensures !Disturbs(m.line, es[i], pa) {
      if Disturbs(m.line, es[i], pa) && es[i].InvalidateLine? { OwnLines(m.line, j.dst, j.len, pa); }
    }
  }

  /** Every step of the submit's program is taken, in whatever order and company. */
  ghost predicate Submitted(m: Machine, es: seq<Event>, j: Job)
    requires m.line > 0
  {
    forall e :: e in SubmitProgram(m, j.src, j.len) ==> e in es
  }

  /** After the submit, memory holds what the CPU read at every source byte, and goes on holding it. */
  lemma SourceReady(m: Machine, submit: seq<Event>, j: Job, pa: nat)
    requires Proper(m, j) && Runs(m, submit) && Submitted(m, submit, j)
    requires In(j.src, j.len, pa) && Settled(m, pa) && NotWritten(submit, pa) && Spared(m.line, submit, j, pa)
    ensures var r := After(m, submit); View(r, pa) == View(m, pa) && Synced(r, pa)
  {
    OutsideUntouched(m, j, submit, pa);
    if Maintained(m.line, m.uncached, j.src, j.len) {
      Covered(m.line, j.src, j.len, pa);
      var k := LineOf(m, pa) - FirstLine(m.line, j.src);
      assert SubmitProgram(m, j.src, j.len)[k] == CleanLine(LineOf(m, pa));
    }
    SyncedRun(m, submit, pa);
  }

  /** The i-th copy of a poll and the steps around it. */
  lemma CopyAt(m: Machine, poll: seq<Event>, j: Job, i: nat) returns (x: seq<Event>, y: seq<Event>)
    requires m.line > 0 && Owned(m.line, j, poll) == PollProgram(m, j.dst, j.src, j.len) && i < j.len
    ensures poll == x + [DeviceCopy(j.dst + i, j.src + i)] + y
    ensures NoDevice(y, j.dst + i)
    ensures Maintained(m.line, m.uncached, j.dst, j.len) ==> InvalidateLine(LineOf(m, j.dst + i)) in y
  {
    var p := PollProgram(m, j.dst, j.src, j.len);
    x, y := Locate(m.line, j, poll, i);
    assert p[i] == DeviceCopy(j.dst + i, j.src + i);
    OwnedMembers(m.line, j, y);
    forall k | 0 <= k < |y| ensures !(y[k].DeviceCopy? && y[k].d == j.dst + i) {
      if y[k].DeviceCopy? && In(j.dst, j.len, y[k].d) {
        assert y[k] in Owned(m.line, j, y);
        var n :| 0 <= n < |p[i + 1..]| && p[i + 1..][n] == y[k];
        assert p[i + 1 + n] == y[k];
      }
    }
    if Maintained(m.line, m.uncached, j.dst, j.len) {
      Covered(m.line, j.dst, j.len, j.dst + i);
      var n := j.len + (LineOf(m, j.dst + i) - FirstLine(m.line, j.dst));
      assert p[n] == InvalidateLine(LineOf(m, j.dst + i));
      assert p[i + 1..][n - i - 1] == p[n];
    }
  }

  /** Between the submit and the copy nothing new waits to be written back over pa if the CPU leaves its line alone. */
  lemma {:induction false} CarriesRun(m: Machine, es: seq<Event>, pa: nat, v: Byte)
    requires Sound(m) && Runs(m, es) && pa < |m.mem| && Carries(m, pa, v) && LineNotWritten(m.line, es, pa)
    ensures Carries(After(m, es), pa, v)
    decreases |es|
  {
    if es != [] {
      assert forall i :: 0 <= i < |es[1..]| ==> es[1..][i] == es[i + 1];
      MemoryStep(m, es[0], pa, v);
      CarriesRun(Next(m, es[0]), es[1..], pa, v);
    }
  }

  lemma PartNotWritten(x: seq<Event>, e: Event, y: seq<Event>, pa: nat, line: nat, j: Job)
    requires line > 0
    ensures NotWritten(x + [e] + y, pa) ==> NotWritten(x, pa)
    ensures LineNotWritten(line, x + [e] + y, pa) ==> LineNotWritten(line, x, pa) && LineNotWritten(line, y, pa)
    ensures Spared(line, x + [e] + y, j, pa) ==> Spared(line, x, j, pa)
  {
    hide Own, Disturbs;
    var all := x + [e] + y;
    assert forall i :: 0 <= i < |x| ==> all[i] == x[i];
    assert forall i :: 0 <= i < |y| ==> all[|x| + 1 + i] == y[i];
  }

  /** One byte of the copy: after the poll the CPU reads at dst + i what memory held at src + i. */
  lemma ByteCopied(m: Machine, poll: seq<Event>, j: Job, i: nat)
    requires Proper(m, j) && Runs(m, poll) && Owned(m.line, j, poll) == PollProgram(m, j.dst, j.src, j.len) && i < j.len
    requires Synced(m, j.src + i) && NotWritten(poll, j.src + i) && Spared(m.line, poll, j, j.src + i)
    requires Carries(m, j.dst + i, View(m, j.src + i)) && LineNotWritten(m.line, poll, j.dst + i)
    ensures var r := After(m, poll); View(r, j.dst + i) == View(m, j.src + i) && Settled(r, j.dst + i)
  {
    var d, s := j.dst + i, j.src + i;
    var x, y := CopyAt(m, poll, j, i);
    var e := DeviceCopy(d, s);
    AfterConcat(m, x + [e], y);
    AfterConcat(m, x, [e]);
    PartNotWritten(x, e, y, s, m.line, j);
    PartNotWritten(x, e, y, d, m.line, j);
    OutsideUntouched(m, j, x, s);
    SyncedRun(m, x, s);
    CarriesRun(m, x, d, View(m, s));
    var before := After(m, x);
    assert After(before, [e]) == Next(before, e) by { assert [e][1..] == []; }
    var copied := Next(before, e);
    if !Maintained(m.line, m.uncached, j.dst, j.len) { assert LineOf(copied, d) in copied.uncached; }
    MemoryRun(copied, y, d);
  }

  /**
   * What the others do meanwhile: the CPU leaves the source alone throughout and the destination during
   * the poll, and other requests neither copy into the source nor invalidate its lines.
   */
  ghost predicate Quiet(m: Machine, submit: seq<Event>, poll: seq<Event>, j: Job)
    requires m.line > 0
  {
    && HandsOff(submit, poll, j)
    && (forall pa :: In(j.src, j.len, pa) ==> Spared(m.line, submit, j, pa) && Spared(m.line, poll, j, pa))
  }

  ghost predicate HandsOff(submit: seq<Event>, poll: seq<Event>, j: Job) {
    && (forall pa :: In(j.src, j.len, pa) ==> NotWritten(submit, pa) && NotWritten(poll, pa))
    && (forall pa :: In(j.dst, j.len, pa) ==> NotWritten(poll, pa))
  }

  lemma DestinationLinesQuiet(m: Machine, submit: seq<Event>, poll: seq<Event>, j: Job, pa: nat)
    requires Proper(m, j) && Quiet(m, submit, poll, j) && In(j.dst, j.len, pa)
    ensures LineNotWritten(m.line, poll, pa)
  {
    Covered(m.line, j.dst, j.len, pa);
    forall i | 0 <= i < |poll| && poll[i].Write? ensures LineOf(m, poll[i].pa) != LineOf(m, pa) {
      WrittenSomewhere(poll, i);
      if LineOf(m, poll[i].pa) == LineOf(m, pa) { OwnLines(m.line, j.dst, j.len, poll[i].pa); }
    }
  }

  lemma WrittenSomewhere(es: seq<Event>, i: nat)
    requires i < |es| && es[i].Write?
    ensures !NotWritten(es, es[i].pa)
  {
  }

  /** The source is settled: no earlier copy into it is unfinished. */
  ghost predicate SourceSettled(m: Machine, j: Job)
    requires Sound(m) && j.src + j.len <= |m.mem|
  {
    forall pa: nat :: In(j.src, j.len, pa) ==> Settled(m, pa)
  }

  /** No dirty byte of the destination, in state mid, differs from the byte to be copied there; true if it is clean. */
  ghost predicate NothingToLose(m: Machine, mid: Machine, j: Job)
    requires Sound(m) && Sound(mid) && |mid.mem| == |m.mem| && j.src + j.len <= |m.mem| && j.dst + j.len <= |m.mem|
  {
    forall pa: nat :: In(j.dst, j.len, pa) && LineOf(mid, pa) in mid.dirty ==>
      View(mid, pa) == View(m, j.src + (pa - j.dst))
  }

  /** In state r the CPU reads in the destination what it read in the source in state m. */
  ghost predicate Delivered(m: Machine, r: Machine, j: Job)
    requires Sound(m) && Sound(r) && |r.mem| == |m.mem| && j.src + j.len <= |m.mem| && j.dst + j.len <= |m.mem|
  {
    forall pa: nat :: In(j.dst, j.len, pa) ==> View(r, pa) == View(m, j.src + (pa - j.dst)) && Settled(r, pa)
  }

  /** Outside the destination, with no other copy under way. */
  ghost predicate Bystander(m: Machine, submit: seq<Event>, poll: seq<Event>, j: Job, pa: nat)
    requires Sound(m)
  {
    && pa < |m.mem| && !In(j.dst, j.len, pa) && Settled(m, pa)
    && Spared(m.line, submit, j, pa) && Spared(m.line, poll, j, pa)
  }

  /** There the CPU reads what it last wrote. */
  ghost predicate OthersKept(m: Machine, r: Machine, submit: seq<Event>, poll: seq<Event>, j: Job)
    requires Sound(m) && Sound(r) && |r.mem| == |m.mem|
  {
    forall pa: nat :: Bystander(m, submit, poll, j, pa) ==>
      View(r, pa) == LastWritten(poll, pa, LastWritten(submit, pa, View(m, pa))) && Settled(r, pa)
  }

  lemma ProperKept(m: Machine, es: seq<Event>, j: Job)
    requires Proper(m, j) && Runs(m, es)
    ensures Proper(After(m, es), j) && Sound(m) && j.dst + j.len <= |m.mem| && j.src + j.len <= |m.mem|
    ensures SubmitProgram(After(m, es), j.src, j.len) == SubmitProgram(m, j.src, j.len)
    ensures PollProgram(After(m, es), j.dst, j.src, j.len) == PollProgram(m, j.dst, j.src, j.len)
  {
    hide Maintained, Uniform, LineAligned;
  }

  /** The driver's part: the source is cleaned by the submit, and the poll does its program to the destination. */
  ghost predicate Driven(m: Machine, submit: seq<Event>, poll: seq<Event>, j: Job)
    requires m.line > 0
  {
    Submitted(m, submit, j) && Owned(m.line, j, poll) == PollProgram(m, j.dst, j.src, j.len)
  }

  lemma DestinationByte(m: Machine, submit: seq<Event>, poll: seq<Event>, j: Job, pa: nat)
    requires Proper(m, j) && Runs(m, submit) && Runs(After(m, submit), poll) && Driven(m, submit, poll, j)
    requires SourceSettled(m, j) && NothingToLose(m, After(m, submit), j)
    requires Quiet(m, submit, poll, j) && In(j.dst, j.len, pa)
    ensures pa < |m.mem| && j.src + (pa - j.dst) < |m.mem|
    ensures var r := After(After(m, submit), poll); View(r, pa) == View(m, j.src + (pa - j.dst)) && Settled(r, pa)
  {
    hide Uniform, SubmitProgram, PollProgram, View, Settled, Runs, LastWritten, LineNotWritten, NotWritten, LineAt,
      LineAligned, Owned, Spared;
    var s := j.src + (pa - j.dst);
    ProperKept(m, submit, j);
    assert In(j.src, j.len, s) && !In(j.dst, j.len, s);
    SourceReady(m, submit, j, s);
    DestinationLinesQuiet(m, submit, poll, j, pa);
    DirtyIsViewed(After(m, submit), pa, View(m, s));
    ByteCopied(After(m, submit), poll, j, pa - j.dst);
  }

  lemma DirtyIsViewed(m: Machine, pa: nat, v: Byte)
    requires Sound(m) && pa < |m.mem| && (LineOf(m, pa) in m.dirty ==> View(m, pa) == v)
    ensures Carries(m, pa, v)
  {
  }

  /**
   * A non-coherent copy, end to end: whatever is filled, evicted, cleaned, written or copied elsewhere in
   * between, the CPU reads in the destination what it read in the source at submit, and what it last wrote
   * wherever no other request is at work.
   */
  lemma CopyEndToEnd(m: Machine, submit: seq<Event>, poll: seq<Event>, j: Job)
    requires Proper(m, j) && Runs(m, submit) && Runs(After(m, submit), poll) && Driven(m, submit, poll, j)
    requires SourceSettled(m, j) && NothingToLose(m, After(m, submit), j)
    requires Quiet(m, submit, poll, j)
    ensures var r := After(After(m, submit), poll); Delivered(m, r, j) && OthersKept(m, r, submit, poll, j)
  {
    ProperKept(m, submit, j);
    hide Proper, View, Settled, After, Runs, SubmitProgram, PollProgram, LastWritten, NotWritten, LineOf, Quiet,
      LineAt, NothingToLose, Driven, SourceSettled, Spared, Bystander;
    var mid := After(m, submit);
    var r := After(mid, poll);
    forall pa: nat | In(j.dst, j.len, pa) ensures View(r, pa) == View(m, j.src + (pa - j.dst)) && Settled(r, pa) {
      DestinationByte(m, submit, poll, j, pa);
    }
    forall pa: nat | Bystander(m, submit, poll, j, pa)
      ensures View(r, pa) == LastWritten(poll, pa, LastWritten(submit, pa, View(m, pa))) && Settled(r, pa)
    {
      BystanderByte(m, submit, poll, j, pa);
    }
  }

  lemma BystanderByte(m: Machine, submit: seq<Event>, poll: seq<Event>, j: Job, pa: nat)
    requires Proper(m, j) && Runs(m, submit) && Runs(After(m, submit), poll) && Bystander(m, submit, poll, j, pa)
    ensures var r := After(After(m, submit), poll);
      View(r, pa) == LastWritten(poll, pa, LastWritten(submit, pa, View(m, pa))) && Settled(r, pa)
  {
    ProperKept(m, submit, j);
    hide Proper, View, Settled, After, Runs, LastWritten, LineOf, LineAt, Spared;
    OutsideUntouched(m, j, submit, pa);
    OutsideUntouched(After(m, submit), j, poll, pa);
    ViewRun(m, submit, pa);
    ViewRun(After(m, submit), poll, pa);
  }

  // ---- Several requests ----

  lemma {:induction false} OwnedConcat(line: nat, j: Job, a: seq<Event>, b: seq<Event>)
    requires line > 0
    ensures Owned(line, j, a + b) == Owned(line, j, a) + Owned(line, j, b)
    decreases |a|
  {
    if a == [] {
      assert a + b == b;
    } else {
      assert (a + b)[0] == a[0] && (a + b)[1..] == a[1..] + b;
      OwnedConcat(line, j, a[1..], b);
    }
  }

  lemma {:induction false} OwnedAll(line: nat, j: Job, es: seq<Event>)
    requires line > 0 && forall i :: 0 <= i < |es| ==> Own(line, j, es[i])
    ensures Owned(line, j, es) == es
  {
    if es != [] { OwnedAll(line, j, es[1..]); }
  }

  lemma {:induction false} OwnedNone(line: nat, j: Job, es: seq<Event>)
    requires line > 0 && forall i :: 0 <= i < |es| ==> !Own(line, j, es[i])
    ensures Owned(line, j, es) == []
  {
    if es != [] { OwnedNone(line, j, es[1..]); }
  }

  /** Only device steps belong to anybody. */
  lemma {:induction false} OwnedDevice(line: nat, j: Job, es: seq<Event>)
    requires line > 0
    ensures Owned(line, j, Device(es)) == Owned(line, j, es)
  {
    if es != [] {
      OwnedDevice(line, j, es[1..]);
      OwnedConcat(line, j, if IsDevice(es[0]) then [es[0]] else [], Device(es[1..]));
    }
  }

  lemma {:induction false} DeviceMembers(es: seq<Event>)
    ensures forall e :: e in Device(es) <==> e in es && IsDevice(e)
  {
    if es != [] {
      DeviceMembers(es[1..]);
      assert es == [es[0]] + es[1..];
    }
  }

  lemma ProgramIsOwn(m: Machine, j: Job)
    requires m.line > 0
    ensures forall e :: e in PollProgram(m, j.dst, j.src, j.len) ==> Own(m.line, j, e)
    ensures Owned(m.line, j, PollProgram(m, j.dst, j.src, j.len)) == PollProgram(m, j.dst, j.src, j.len)
  {
    OwnedAll(m.line, j, PollProgram(m, j.dst, j.src, j.len));
  }

  ghost predicate Disjoint(p: nat, n: nat, q: nat, k: nat) { p + n <= q || q + k <= p }

  /** Neither copies over the other's buffers. */
  ghost predicate Separate(j: Job, o: Job) {
    && Disjoint(j.dst, j.len, o.dst, o.len)
    && Disjoint(j.dst, j.len, o.src, o.len) && Disjoint(o.dst, o.len, j.src, j.len)
  }

  ghost predicate Batch(m: Machine, jobs: seq<Job>) {
    && (forall i :: 0 <= i < |jobs| ==> Proper(m, jobs[i]))
    && (forall i, k :: 0 <= i < |jobs| && 0 <= k < |jobs| && i != k ==> Separate(jobs[i], jobs[k]))
  }

  /** What a poll does to a queue of requests, in order. */
  ghost function Programs(m: Machine, jobs: seq<Job>): seq<Event>
    requires m.line > 0
  {
    if jobs == [] then [] else PollProgram(m, jobs[0].dst, jobs[0].src, jobs[0].len) + Programs(m, jobs[1..])
  }

  /** A line of the destination of o belongs to nothing outside it. */
  lemma ForeignLine(m: Machine, o: Job, l: nat)
    requires Proper(m, o) && FirstLine(m.line, o.dst) <= l < EndLine(m.line, o.dst, o.len)
    ensures In(o.dst, o.len, m.line * l)
  {
    Multiple(m.line, l);
    OwnLines(m.line, o.dst, o.len, m.line * l);
  }

  lemma ForeignStep(m: Machine, j: Job, o: Job, e: Event)
    requires Proper(m, j) && Proper(m, o) && Separate(j, o) && Own(m.line, o, e)
    ensures !Own(m.line, j, e)
    ensures forall pa :: In(j.src, j.len, pa) ==> !Disturbs(m.line, e, pa)
  {
    hide Uniform, LineAligned;
    if e.InvalidateLine? {
      ForeignLine(m, o, e.l);
      if FirstLine(m.line, j.dst) <= e.l < EndLine(m.line, j.dst, j.len) { ForeignLine(m, j, e.l); }
      forall pa | In(j.src, j.len, pa) ensures e.l != LineAt(m.line, pa) {
        if e.l == LineAt(m.line, pa) { OwnLines(m.line, o.dst, o.len, pa); }
      }
    }
  }

  lemma ForeignProgram(m: Machine, j: Job, o: Job)
    requires Proper(m, j) && Proper(m, o) && Separate(j, o) && m.line > 0
    ensures Owned(m.line, j, PollProgram(m, o.dst, o.src, o.len)) == []
  {
    hide Proper, Own;
    var p := PollProgram(m, o.dst, o.src, o.len);
    ProgramIsOwn(m, o);
    forall i | 0 <= i < |p| ensures !Own(m.line, j, p[i]) { ForeignStep(m, j, o, p[i]); }
    OwnedNone(m.line, j, p);
  }

  lemma {:induction false} ForeignPrograms(m: Machine, j: Job, jobs: seq<Job>)
    requires Proper(m, j) && m.line > 0 && forall i :: 0 <= i < |jobs| ==> Proper(m, jobs[i]) && Separate(j, jobs[i])
    ensures Owned(m.line, j, Programs(m, jobs)) == []
  {
    hide Proper, Own, Separate, PollProgram;
    if jobs != [] {
      ForeignProgram(m, j, jobs[0]);
      ForeignPrograms(m, j, jobs[1..]);
      OwnedConcat(m.line, j, PollProgram(m, jobs[0].dst, jobs[0].src, jobs[0].len), Programs(m, jobs[1..]));
    }
  }

  /** Of the poll's steps those of request k are its own program. */
  lemma {:induction false} OwnProgram(m: Machine, jobs: seq<Job>, k: nat)
    requires Batch(m, jobs) && k < |jobs| && m.line > 0
    ensures var j := jobs[k]; Owned(m.line, j, Programs(m, jobs)) == PollProgram(m, j.dst, j.src, j.len)
    decreases |jobs|
  {
    hide Proper, Own, Separate, PollProgram;
    var j, o, rest := jobs[k], jobs[0], jobs[1..];
    assert Batch(m, rest);
    OwnedConcat(m.line, j, PollProgram(m, o.dst, o.src, o.len), Programs(m, rest));
    if k == 0 {
      ProgramIsOwn(m, j);
      ForeignPrograms(m, j, rest);
    } else {
      ForeignProgram(m, j, o);
      OwnProgram(m, rest, k - 1);
    }
  }

  lemma {:induction false} WhoseStep(m: Machine, jobs: seq<Job>, e: Event) returns (i: nat)
    requires m.line > 0 && e in Programs(m, jobs)
    ensures i < |jobs| && Own(m.line, jobs[i], e)
    decreases |jobs|
  {
    ProgramIsOwn(m, jobs[0]);
    if e in PollProgram(m, jobs[0].dst, jobs[0].src, jobs[0].len) {
      i := 0;
    } else {
      i := WhoseStep(m, jobs[1..], e);
      i := i + 1;
    }
  }

  /** No request of a batch disturbs another's source. */
  lemma BatchSpares(m: Machine, es: seq<Event>, jobs: seq<Job>, j: Job, pa: nat)
    requires Proper(m, j) && m.line > 0 && In(j.src, j.len, pa) && Device(es) == Programs(m, jobs)
    requires forall i :: 0 <= i < |jobs| ==> Proper(m, jobs[i]) && (jobs[i] == j || Separate(j, jobs[i]))
    ensures Spared(m.line, es, j, pa)
  {
    hide Proper, Own, Separate, Programs;
    DeviceMembers(es);
    forall i | 0 <= i < |es| && Disturbs(m.line, es[i], pa) ensures Own(m.line, j, es[i]) {
      assert es[i] in Device(es);
      var n := WhoseStep(m, jobs, es[i]);
      if jobs[n] != j { ForeignStep(m, j, jobs[n], es[i]); }
    }
  }

  lemma BatchParts(m: Machine, earlier: seq<Job>, jobs: seq<Job>, k: nat)
    requires Batch(m, earlier + jobs) && k < |jobs|
    ensures Batch(m, jobs) && Proper(m, jobs[k])
    ensures forall i :: 0 <= i < |earlier| ==> Proper(m, earlier[i]) && Separate(jobs[k], earlier[i])
    ensures forall i :: 0 <= i < |jobs| ==> Proper(m, jobs[i]) && (jobs[i] == jobs[k] || Separate(jobs[k], jobs[i]))
  {
    hide Proper, Separate;
    var all := earlier + jobs;
    assert forall i :: 0 <= i < |earlier| ==> all[i] == earlier[i];
    assert forall i :: 0 <= i < |jobs| ==> all[|earlier| + i] == jobs[i];
  }

  /**
   * A queue of requests, polled in order while the CPU cleans, fills, evicts and writes elsewhere, and
   * earlier requests are completed: each one submitted, with nothing to lose in its destination, is delivered.
   */
  lemma QueueDelivers(m: Machine, submit: seq<Event>, poll: seq<Event>, earlier: seq<Job>, jobs: seq<Job>, k: nat)
    requires Batch(m, earlier + jobs) && k < |jobs| && Sound(m) && Runs(m, submit) && Runs(After(m, submit), poll)
    requires Device(submit) == Programs(m, earlier) && Device(poll) == Programs(m, jobs)
    requires Proper(m, jobs[k]) && Submitted(m, submit, jobs[k]) && HandsOff(submit, poll, jobs[k])
    requires SourceSettled(m, jobs[k]) && NothingToLose(m, After(m, submit), jobs[k])
    ensures Delivered(m, After(After(m, submit), poll), jobs[k])
  {
    var j := jobs[k];
    BatchParts(m, earlier, jobs, k);
    OwnProgram(m, jobs, k);
    OwnedDevice(m.line, j, poll);
    hide Batch, Programs, PollProgram, SubmitProgram, Runs, After, Spared, HandsOff, Device, Proper, SourceSettled,
      NothingToLose, Submitted, Delivered, Separate, Owned;
    forall pa | In(j.src, j.len, pa) ensures Spared(m.line, submit, j, pa) && Spared(m.line, poll, j, pa) {
      BatchSpares(m, submit, earlier, j, pa);
      BatchSpares(m, poll, jobs, j, pa);
    }
    CopyEndToEnd(m, submit, poll, j);
  }

  // ---- Each hypothesis is needed ----

  /** The hypotheses of CopyEndToEnd on machine and run, but for the buffers straddling a mapping. */
  ghost predicate Meets(m: Machine, submit: seq<Event>, poll: seq<Event>, j: Job) {
    && Sound(m) && j.len > 0 && j.src + j.len <= |m.mem| && j.dst + j.len <= |m.mem|
    && (j.src + j.len <= j.dst || j.dst + j.len <= j.src) && LineAligned(m.line, j.dst, j.len)
    && Runs(m, submit) && Runs(After(m, submit), poll)
    && Driven(m, submit, poll, j)
    && SourceSettled(m, j) && NothingToLose(m, After(m, submit), j) && Quiet(m, submit, poll, j)
  }

  ghost predicate OnlyDevice(es: seq<Event>, n: nat) {
    forall i :: 0 <= i < |es| ==> es[i].InvalidateLine? || (es[i].DeviceCopy? && es[i].d < n && es[i].s < n)
  }

  /** Without the environment, a poll leaves memory alone where it does not copy, and dirties nothing. */
  lemma {:induction false} DeviceRun(m: Machine, es: seq<Event>)
    requires Sound(m) && OnlyDevice(es, |m.mem|)
    ensures Runs(m, es)
    ensures var r := After(m, es); r.data == m.data && r.valid <= m.valid
    ensures forall l :: l in m.dirty && InvalidateLine(l) !in es ==> l in After(m, es).dirty
    ensures forall pa: nat :: pa < |m.mem| && NoDevice(es, pa) ==> After(m, es).mem[pa] == m.mem[pa]
    ensures forall l :: l in m.valid && InvalidateLine(l) !in es ==> l in After(m, es).valid
    decreases |es|
  {
    if es != [] {
      var rest := es[1..];
      assert forall i :: 0 <= i < |rest| ==> rest[i] == es[i + 1];
      assert es == [es[0]] + rest;
      DeviceRun(Next(m, es[0]), rest);
      forall pa: nat | pa < |m.mem| && NoDevice(es, pa) ensures NoDevice(rest, pa) && Next(m, es[0]).mem[pa] == m.mem[pa] {
        assert !(es[0].DeviceCopy? && es[0].d == pa);
      }
    }
  }

  /** Copies spread no byte that is not there. */
  lemma {:induction false} OneByteRun(m: Machine, es: seq<Event>, v: Byte)
    requires Sound(m) && OnlyDevice(es, |m.mem|) && Runs(m, es) && forall pa: nat :: pa < |m.mem| ==> m.mem[pa] == v
    ensures forall pa: nat :: pa < |m.mem| ==> After(m, es).mem[pa] == v
    decreases |es|
  {
    if es != [] {
      assert forall i :: 0 <= i < |es[1..]| ==> es[1..][i] == es[i + 1];
      OneByteRun(Next(m, es[0]), es[1..], v);
    }
  }

  lemma PollIsDevice(m: Machine, j: Job)
    requires m.line > 0 && j.src + j.len <= |m.mem| && j.dst + j.len <= |m.mem|
    ensures OnlyDevice(PollProgram(m, j.dst, j.src, j.len), |m.mem|)
  {
  }

  /** A cacheable byte of a range that straddles. */
  lemma CacheableByte(line: nat, uncached: set<nat>, p: nat, len: nat) returns (pa: nat)
    requires line > 0 && !Uniform(line, uncached, p, len)
    ensures In(p, len, pa) && LineAt(line, pa) !in uncached
  {
    var x :| In(p, len, x) && LineAt(line, x) !in uncached;
    pa := x;
  }

  lemma {:induction false} CleanRun(m: Machine, es: seq<Event>)
    requires Sound(m) && m.dirty == {} && forall i :: 0 <= i < |es| ==> es[i].CleanLine?
    ensures Runs(m, es) && After(m, es) == m
    decreases |es|
  {
    if es != [] {
      assert forall i :: 0 <= i < |es[1..]| ==> es[1..][i] == es[i + 1];
      assert Next(m, es[0]) == m;
      assert es == [es[0]] + es[1..];
      CleanRun(m, es[1..]);
    }
  }

  lemma NobodyElse(m: Machine, j: Job)
    requires m.line > 0
    ensures var submit, poll := SubmitProgram(m, j.src, j.len), PollProgram(m, j.dst, j.src, j.len);
      Quiet(m, submit, poll, j) && Driven(m, submit, poll, j)
  {
    ProgramIsOwn(m, j);
    hide Own, Maintained;
  }

  /** Geometry of a copy whose buffers need not be uniform. */
  ghost predicate Apart(line: nat, size: nat, j: Job) {
    && line > 0 && j.len > 0 && j.src + j.len <= size && j.dst + j.len <= size
    && (j.src + j.len <= j.dst || j.dst + j.len <= j.src) && LineAligned(line, j.dst, j.len)
  }

  lemma SameLine(line: nat, size: nat, j: Job, a: nat, b: nat)
    requires Apart(line, size, j) && In(j.dst, j.len, a) && LineAt(line, a) == LineAt(line, b)
    ensures In(j.dst, j.len, b)
  {
    Covered(line, j.dst, j.len, a);
    OwnLines(line, j.dst, j.len, b);
  }

  /** A destination that straddles is never invalidated: a stale cached byte hides the copy. */
  lemma StraddlingDestinationFails(line: nat, uncached: set<nat>, size: nat, j: Job) returns (m: Machine)
    requires Apart(line, size, j) && !Uniform(line, uncached, j.dst, j.len)
    ensures m.line == line && m.uncached == uncached && |m.mem| == size && Sound(m)
    ensures var submit, poll := SubmitProgram(m, j.src, j.len), PollProgram(m, j.dst, j.src, j.len);
      Meets(m, submit, poll, j) && !Delivered(m, After(After(m, submit), poll), j)
  {
    hide Uniform, LineAt, LineAligned, SourceSettled, NothingToLose, Settled, Maintained, Quiet, Driven, NotWritten;
    var d := CacheableByte(line, uncached, j.dst, j.len);
    var l := LineAt(line, d);
    m := Machine(line, seq(size, i => 1), seq(size, i => 0), {l}, {}, uncached);
    var submit, poll := SubmitProgram(m, j.src, j.len), PollProgram(m, j.dst, j.src, j.len);
    CleanRun(m, submit);
    PollIsDevice(m, j);
    DeviceRun(m, poll);
    NobodyElse(m, j);
    SourceReadsMemory(m, j, d, 1);
    NotMaintained(line, uncached, j);
    assert View(After(m, poll), d) == 0;
    assert In(j.src, j.len, j.src + (d - j.dst));
  }

  /** With only the line of d cached, and clean, the source is read from memory. */
  lemma SourceReadsMemory(m: Machine, j: Job, d: nat, v: Byte)
    requires Sound(m) && Apart(m.line, |m.mem|, j) && In(j.dst, j.len, d)
    requires m.valid == {LineAt(m.line, d)} && m.dirty == {}
    requires forall pa: nat :: pa < |m.mem| ==> m.mem[pa] == v
    ensures SourceSettled(m, j) && NothingToLose(m, m, j)
    ensures forall pa: nat :: In(j.src, j.len, pa) ==> View(m, pa) == v
  {
    hide LineAt, LineAligned;
    forall pa: nat | In(j.src, j.len, pa) ensures Settled(m, pa) && View(m, pa) == v {
      if LineAt(m.line, pa) == LineAt(m.line, d) { SameLine(m.line, |m.mem|, j, d, pa); }
    }
  }

  lemma NotMaintained(line: nat, uncached: set<nat>, j: Job)
    requires line > 0
    ensures !Uniform(line, uncached, j.dst, j.len) ==> !Maintained(line, uncached, j.dst, j.len)
    ensures !Uniform(line, uncached, j.src, j.len) ==> !Maintained(line, uncached, j.src, j.len)
  {
  }

  /** A source that straddles is never cleaned: the device reads memory under a dirty cached byte. */
  lemma StraddlingSourceFails(line: nat, uncached: set<nat>, size: nat, j: Job) returns (m: Machine)
    requires Apart(line, size, j) && !Uniform(line, uncached, j.src, j.len)
    ensures m.line == line && m.uncached == uncached && |m.mem| == size && Sound(m)
    ensures var submit, poll := SubmitProgram(m, j.src, j.len), PollProgram(m, j.dst, j.src, j.len);
      Meets(m, submit, poll, j) && !Delivered(m, After(After(m, submit), poll), j)
  {
    hide Uniform, LineAt, LineAligned, Maintained, Quiet, Driven, NotWritten;
    var s := CacheableByte(line, uncached, j.src, j.len);
    var l, d := LineAt(line, s), j.dst + (s - j.src);
    m := Machine(line, seq(size, i => 0), seq(size, i => 1), {l}, {l}, uncached);
    var submit, poll := SubmitProgram(m, j.src, j.len), PollProgram(m, j.dst, j.src, j.len);
    NotMaintained(line, uncached, j);
    assert submit == [];
    PollIsDevice(m, j);
    DeviceRun(m, poll);
    OneByteRun(m, poll, 0);
    NobodyElse(m, j);
    forall pa: nat | In(j.dst, j.len, pa) ensures LineAt(line, pa) != l {
      if LineAt(line, pa) == l { SameLine(line, size, j, pa, s); }
    }
    assert In(j.dst, j.len, d) && View(After(m, poll), d) == 0 && View(m, s) == 1;
  }

  /** A submitted copy, up to its poll: everything CopyEndToEnd asks for but the state of the destination. */
  ghost predicate Ready(m: Machine, submit: seq<Event>, j: Job) {
    && Proper(m, j) && Runs(m, submit) && Submitted(m, submit, j) && SourceSettled(m, j)
    && forall pa :: In(j.src, j.len, pa) ==> NotWritten(submit, pa) && Spared(m.line, submit, j, pa)
  }

  /**
   * With everything else in order, one destination byte that is dirty before the poll and differs from its
   * source byte is enough for some poll to lose the copy: its line is evicted between copy and invalidation.
   */
  lemma DirtyDestinationLost(m: Machine, submit: seq<Event>, j: Job, d: nat) returns (poll: seq<Event>)
    requires Ready(m, submit, j) && In(j.dst, j.len, d) && LineOf(m, d) in After(m, submit).dirty
    requires View(After(m, submit), d) != View(m, j.src + (d - j.dst))
    ensures Runs(After(m, submit), poll) && Driven(m, submit, poll, j) && Quiet(m, submit, poll, j)
    ensures !Delivered(m, After(After(m, submit), poll), j)
  {
    var mid := After(m, submit);
    var l := LineOf(m, d);
    var copies := Copies(j.dst, j.src, j.len);
    var drops := PollProgram(m, j.dst, j.src, j.len)[j.len..];
    assert PollProgram(m, j.dst, j.src, j.len) == copies + drops;
    poll := copies + ([Evict(l)] + drops);
    LostRun(mid, copies, l, drops, d);
    ProgramIsOwn(m, j);
    WithEviction(m.line, j, copies, l, drops);
    hide Own, Proper, Submitted, Maintained, Uniform, Owned, NotWritten, Spared, Runs, After;
    forall pa ensures NotWritten(poll, pa) && Spared(m.line, poll, j, pa) {
      EvictionDisturbsNobody(m.line, j, copies, l, drops, pa);
    }
  }

  /** The hazard is exact: every poll delivers if and only if no dirty byte of the destination has anything to lose. */
  lemma DeliveryIsExact(m: Machine, submit: seq<Event>, j: Job)
    requires Ready(m, submit, j)
    ensures NothingToLose(m, After(m, submit), j) <==>
      forall poll :: Runs(After(m, submit), poll) && Driven(m, submit, poll, j) && Quiet(m, submit, poll, j) ==>
        Delivered(m, After(After(m, submit), poll), j)
  {
    var mid := After(m, submit);
    hide Driven, Quiet, Runs, After, View, Settled, Spared, NotWritten, LineOf, LineAligned, Uniform;
    if NothingToLose(m, mid, j) {
      forall poll | Runs(mid, poll) && Driven(m, submit, poll, j) && Quiet(m, submit, poll, j)
        ensures Delivered(m, After(mid, poll), j)
      {
        CopyEndToEnd(m, submit, poll, j);
      }
    } else {
      var d: nat :| In(j.dst, j.len, d) && LineOf(mid, d) in mid.dirty && View(mid, d) != View(m, j.src + (d - j.dst));
      var poll := DirtyDestinationLost(m, submit, j, d);
    }
  }

  /** Copies, an eviction of a dirty line and invalidations leave what was cached in its byte d. */
  lemma LostRun(m: Machine, copies: seq<Event>, l: nat, drops: seq<Event>, d: nat)
    requires Sound(m) && d < |m.mem| && l == LineOf(m, d) && l in m.dirty
    requires OnlyDevice(copies, |m.mem|) && OnlyDevice(drops, |m.mem|)
    requires (forall e :: e in copies ==> e.DeviceCopy?) && (forall e :: e in drops ==> e.InvalidateLine?)
    ensures var es := copies + ([Evict(l)] + drops); Runs(m, es) && View(After(m, es), d) == View(m, d)
  {
    DeviceRun(m, copies);
    var a := After(m, copies);
    assert l in a.dirty && l in a.valid;
    var b := Next(a, Evict(l));
    assert b.mem[d] == m.data[d];
    DeviceRun(b, drops);
    assert [Evict(l)][1..] == [] && After(a, [Evict(l)]) == b && Runs(a, [Evict(l)]);
    AfterConcat(a, [Evict(l)], drops);
    AfterConcat(m, copies, [Evict(l)] + drops);
  }

  lemma EvictIsNobodys(line: nat, j: Job, l: nat)
    requires line > 0
    ensures Owned(line, j, [Evict(l)]) == []
  {
    OwnedNone(line, j, [Evict(l)]);
  }

  /** An eviction in between is nobody's step, and disturbs nobody. */
  lemma WithEviction(line: nat, j: Job, a: seq<Event>, l: nat, b: seq<Event>)
    requires line > 0
    ensures Owned(line, j, a + ([Evict(l)] + b)) == Owned(line, j, a + b)
  {
    EvictIsNobodys(line, j, l);
    hide Own, Owned;
    OwnedConcat(line, j, a, b);
    OwnedConcat(line, j, [Evict(l)], b);
    OwnedConcat(line, j, a, [Evict(l)] + b);
  }

  lemma EvictionDisturbsNobody(line: nat, j: Job, a: seq<Event>, l: nat, b: seq<Event>, pa: nat)
    requires line > 0 && (forall i :: 0 <= i < |a| ==> Own(line, j, a[i]))
    requires forall i :: 0 <= i < |b| ==> Own(line, j, b[i])
    ensures NotWritten(a + ([Evict(l)] + b), pa) && Spared(line, a + ([Evict(l)] + b), j, pa)
  {
    var es := a + ([Evict(l)] + b);
    forall i | 0 <= i < |es| ensures es[i] == Evict(l) || Own(line, j, es[i]) {
      assert i < |a| ==> es[i] == a[i];
      assert i > |a| ==> es[i] == b[i - |a| - 1];
    }
  }
}
