/** What one lock operation amounts to, from its first atomic part to its last. */
module CriticalSections {
  import opened Prelude
  import opened Spinlock

  /** In spin_lock or spin_lock_irqsave of l: these return only with the lock. */
  predicate Acquiring(pc: Pc, l: Lid) {
    match pc
    case Trying(x, once) => x == l && !once
    case Failed(x, once) => x == l && !once
    case Spinning(x) => x == l
    case Saving(x, _) => x == l
    case Saved(x, _) => x == l
    case _ => false
  }

  /** The hold a finished acquisition leaves behind; `flags` is the mask saved on the way in. */
  predicate Gains(c: Context, d: Context, l: Lid) {
    d.pc.Idle? && |d.held| == |c.held| + 1 && d.held[..|c.held|] == c.held && d.held[|c.held|].l == l
  }

  /**
   * A context inside a blocking acquisition stays inside it, holding what it held, through any step of the
   * machine, or holds l afterwards and l's word is set. A try comes out with the lock or without it.
   */
  lemma LockStep(s: Cpu, a: Action, t: Tid, l: Lid)
    requires Inv(s) && Enabled(s, a) && t < |s.threads| && l < |s.locked|
    ensures t < |Next(s, a).threads|
    ensures var c, r := s.threads[t], Next(s, a); var d := r.threads[t];
      && (Acquiring(c.pc, l) ==> (Acquiring(d.pc, l) && d.held == c.held) || (Gains(c, d, l) && r.locked[l]))
      && (c.pc.Trying? && c.pc.once && c.pc.l == l ==>
            d == c || (d.pc == Failed(l, true) && d.held == c.held) || (Gains(c, d, l) && r.locked[l]))
      && (c.pc.Failed? && c.pc.once ==> d == c || (d.pc.Idle? && d.held == c.held))
  {
    hide Words, OthersQuiet, Counted, Masking, Word, Move, CanMove;
    ThreadStep(s, a, t);
    if s.threads[t].pc.Saved? { SavedIsSet(s, t); }
    if CanMove(s.threads[t], s.locked, a) { MoveStep(s.threads[t], s.locked, s.masked, a, l); }
  }

  /** A step moves the running context alone. */
  lemma ThreadStep(s: Cpu, a: Action, t: Tid)
    requires Sized(s) && Enabled(s, a) && t < |s.threads|
    ensures |Next(s, a).locked| == |s.locked| && |Next(s, a).threads| == |s.threads|
    ensures Next(s, a).threads[t] != s.threads[t] ==>
      && CanMove(s.threads[t], s.locked, a) && Next(s, a).threads[t] == Move(s.threads[t], s.locked, s.masked, a)
      && Next(s, a).locked == Word(s.threads[t], s.locked, a)
  {
    hide Move, CanMove, Count, Mask, Word;
  }

  lemma MoveStep(c: Context, locked: seq<bool>, masked: bool, a: Action, l: Lid)
    requires CanMove(c, locked, a) && l < |locked| && (c.pc == Saved(l, true) || c.pc == Saved(l, false) ==> locked[l])
    ensures var d := Move(c, locked, masked, a);
      && (Acquiring(c.pc, l) ==> (Acquiring(d.pc, l) && d.held == c.held) || (Gains(c, d, l) && Word(c, locked, a)[l]))
      && (c.pc.Trying? && c.pc.once && c.pc.l == l ==>
            d == c || (d.pc == Failed(l, true) && d.held == c.held) || (Gains(c, d, l) && Word(c, locked, a)[l]))
      && (c.pc.Failed? && c.pc.once ==> d == c || (d.pc.Idle? && d.held == c.held))
  {
  }

  lemma SavedIsSet(s: Cpu, t: Tid)
    requires Inv(s) && t < |s.threads| && s.threads[t].pc.Saved?
    ensures t == s.cur && s.threads[t].pc.l < |s.locked| && s.locked[s.threads[t].pc.l]
  {
    var c := s.threads[t];
    var all := AllLocks(s.threads[s.cur], s.handler);
    assert t == s.cur;
    assert Locks(c)[|c.held|] == c.pc.l;
    assert all[|c.held|] == c.pc.l;
    assert c.pc.l in all;
  }

  // ---- From the first part to the last ----

  /** s with its running context, count, words and mask replaced. */
  function Put(s: Cpu, c: Context, cnt: nat, locked: seq<bool>, masked: bool): (r: Cpu)
    requires Sized(s)
    ensures Sized(r) && Running(r) == c && r.locked == locked && r.masked == masked && r.preemptCnt == cnt
    ensures r.cur == s.cur && |r.threads| == |s.threads| && r.handler.Some? == s.handler.Some?
  {
    Become(s.(preemptCnt := cnt, locked := locked, masked := masked), c)
  }

  lemma PutBack(s: Cpu)
    requires Sized(s)
    ensures Put(s, Running(s), s.preemptCnt, s.locked, s.masked) == s
  {
    assert s.threads[s.cur := s.threads[s.cur]] == s.threads;
  }

  /** Parts of lock operations. */
  predicate IsPart(a: Action) { !a.YieldTo? && !a.Preempt? && !a.IrqEnter? && !a.IrqExit? }

  lemma PutMove(s: Cpu, c: Context, cnt: nat, locked: seq<bool>, masked: bool, a: Action)
    requires Sized(s) && IsPart(a) && CanMove(c, locked, a) && (Enables(a) ==> a.to < |s.threads|)
    ensures Enabled(Put(s, c, cnt, locked, masked), a)
    ensures var r := Put(s, Move(c, locked, masked, a), Count(cnt, a), Word(c, locked, a), Mask(c, locked, masked, a));
      Next(Put(s, c, cnt, locked, masked), a) == if Enables(a) && cnt == 1 && s.handler.None? then r.(cur := a.to) else r
  {
    hide Move, Count, Word, Mask, CanMove;
  }

  /** Where the processor goes when the count comes back down to where it was. */
  function Resumes(s: Cpu, to: Tid): Tid {
    if s.preemptCnt == 0 && s.handler.None? then to else s.cur
  }

  lemma GoneAgain(held: seq<Hold>, h: Hold)
    ensures (held + [h])[|held|] == h && Without(held + [h], |held|) == held
  {
  }

  lemma SetAndCleared(locked: seq<bool>, l: Lid)
    requires l < |locked| && !locked[l]
    ensures locked[l := true][l := false] == locked
  {
  }

  lemma Three(s: Cpu, x: Action, y: Action, z: Action)
    requires Sized(s) && Enabled(s, x) && Enabled(Next(s, x), y) && Enabled(Next(Next(s, x), y), z)
    ensures Runs(s, [x, y, z]) && After(s, [x, y, z]) == Next(Next(Next(s, x), y), z)
  {
    hide Enabled, Next;
    assert [x, y, z][1..] == [y, z] && [y, z][1..] == [z] && [z][1..] == [];
    var s1 := Next(s, x);
    var s2 := Next(s1, y);
    assert Runs(s2, [z]) && After(s2, [z]) == Next(s2, z);
    assert Runs(s1, [y, z]) && After(s1, [y, z]) == Next(s2, z);
  }

  lemma {:induction false} Joined(s: Cpu, a: seq<Action>, b: seq<Action>)
    requires Sized(s) && Runs(s, a) && Runs(After(s, a), b)
    ensures Runs(s, a + b) && After(s, a + b) == After(After(s, a), b)
    decreases |a|
  {
    hide Enabled, Next;
    if a == [] {
      assert a + b == b;
    } else {
      Joined(Next(s, a[0]), a[1..], b);
      assert (a + b)[0] == a[0] && (a + b)[1..] == a[1..] + b;
    }
  }

  lemma Two(s: Cpu, x: Action, y: Action)
    requires Sized(s) && Enabled(s, x) && Enabled(Next(s, x), y)
    ensures Runs(s, [x, y]) && After(s, [x, y]) == Next(Next(s, x), y)
  {
    hide Enabled, Next;
    assert [x, y][1..] == [y] && [y][1..] == [];
    var s1 := Next(s, x);
    assert Runs(s1, [y]) && After(s1, [y]) == Next(s1, y);
  }

  /** spin_lock_irqsave on a free lock: held, interrupts masked, preemption off. */
  lemma Saves(s: Cpu, l: Lid)
    requires Sized(s) && Running(s).pc.Idle? && l < |s.locked| && !s.locked[l]
    ensures var save, c := [BeginSave(l), TakeSaved, EndSave], Running(s);
      var h := c.(held := c.held + [Hold(l, true, s.masked)]);
      Runs(s, save) && After(s, save) == Put(s, h, s.preemptCnt + 1, s.locked[l := true], true)
  {
    hide Put, Enabled, Next, Runs, After;
    var c, n := Running(s), s.preemptCnt;
    PutBack(s);
    PutMove(s, c, n, s.locked, s.masked, BeginSave(l));
    PutMove(s, c.(pc := Saving(l, s.masked)), n, s.locked, true, TakeSaved);
    PutMove(s, c.(pc := Saved(l, s.masked)), n, s.locked[l := true], true, EndSave);
    Three(s, BeginSave(l), TakeSaved, EndSave);
  }

  /** spin_unlock_irqrestore of the last hold: the word clear, the saved mask back, one off the count. */
  lemma Restores(s: Cpu, c: Context, h: Hold, n: nat, locked: seq<bool>, masked: bool, to: Tid)
    requires Sized(s) && c.pc.Idle? && h.irqsave && h.l < |locked| && to < |s.threads|
    ensures var m := Put(s, c.(held := c.held + [h]), n + 1, locked, masked);
      var run := [BeginRestore(|c.held|), Restore, EndRestore(to)];
      && Runs(m, run)
      && var r := Put(s, c, n, locked[h.l := false], h.flags);
         After(m, run) == if n == 0 && s.handler.None? then r.(cur := to) else r
  {
    hide Put, Enabled, Next, Runs, After;
    GoneAgain(c.held, h);
    var d := c.(held := c.held + [h]);
    PutMove(s, d, n + 1, locked, masked, BeginRestore(|c.held|));
    PutMove(s, c.(pc := Restoring(h.flags)), n + 1, locked[h.l := false], masked, Restore);
    PutMove(s, c.(pc := Restored), n + 1, locked[h.l := false], h.flags, EndRestore(to));
    Three(Put(s, d, n + 1, locked, masked), BeginRestore(|c.held|), Restore, EndRestore(to));
  }

  /** So a critical section brings count, mask, words and every context back to what they were. */
  lemma SaveRestores(s: Cpu, l: Lid, to: Tid)
    requires Sized(s) && Running(s).pc.Idle? && l < |s.locked| && !s.locked[l] && to < |s.threads|
    ensures var run := [BeginSave(l), TakeSaved, EndSave] + [BeginRestore(|Running(s).held|), Restore, EndRestore(to)];
      Runs(s, run) && After(s, run) == s.(cur := Resumes(s, to))
  {
    hide Put, Enabled, Next, Runs, After;
    var c := Running(s);
    Saves(s, l);
    Restores(s, c, Hold(l, true, s.masked), s.preemptCnt, s.locked[l := true], true, to);
    SetAndCleared(s.locked, l);
    PutBack(s);
    Joined(s, [BeginSave(l), TakeSaved, EndSave], [BeginRestore(|c.held|), Restore, EndRestore(to)]);
  }

  /** spin_lock or spin_trylock of a free lock whose store succeeds: held, preemption off, interrupts as they were. */
  lemma Takes(s: Cpu, l: Lid, once: bool)
    requires Sized(s) && Running(s).pc.Idle? && l < |s.locked| && !s.locked[l]
    ensures var take, c := [BeginLock(l, once), Try(false)], Running(s);
      var h := c.(held := c.held + [Hold(l, false, false)]);
      Runs(s, take) && After(s, take) == Put(s, h, s.preemptCnt + 1, s.locked[l := true], s.masked)
  {
    hide Put, Enabled, Next, Runs, After;
    var c, n := Running(s), s.preemptCnt;
    PutBack(s);
    PutMove(s, c, n, s.locked, s.masked, BeginLock(l, once));
    PutMove(s, c.(pc := Trying(l, once)), n + 1, s.locked, s.masked, Try(false));
    Two(s, BeginLock(l, once), Try(false));
  }

  lemma Unlocks(s: Cpu, c: Context, h: Hold, n: nat, locked: seq<bool>, masked: bool, to: Tid)
    requires Sized(s) && c.pc.Idle? && !h.irqsave && h.l < |locked| && to < |s.threads|
    ensures var m, run := Put(s, c.(held := c.held + [h]), n + 1, locked, masked), [BeginUnlock(|c.held|), EndUnlock(to)];
      && Runs(m, run)
      && var r := Put(s, c, n, locked[h.l := false], masked);
         After(m, run) == if n == 0 && s.handler.None? then r.(cur := to) else r
  {
    hide Put, Enabled, Next, Runs, After;
    GoneAgain(c.held, h);
    var d := c.(held := c.held + [h]);
    PutMove(s, d, n + 1, locked, masked, BeginUnlock(|c.held|));
    PutMove(s, c.(pc := Unlocking), n + 1, locked[h.l := false], masked, EndUnlock(to));
    Two(Put(s, d, n + 1, locked, masked), BeginUnlock(|c.held|), EndUnlock(to));
  }

  /** spin_unlock undoes exactly what spin_lock did. */
  lemma LockUnlocks(s: Cpu, l: Lid, once: bool, to: Tid)
    requires Sized(s) && Running(s).pc.Idle? && l < |s.locked| && !s.locked[l] && to < |s.threads|
    ensures var run := [BeginLock(l, once), Try(false)] + [BeginUnlock(|Running(s).held|), EndUnlock(to)];
      Runs(s, run) && After(s, run) == s.(cur := Resumes(s, to))
  {
    hide Put, Enabled, Next, Runs, After;
    var c := Running(s);
    Takes(s, l, once);
    Unlocks(s, c, Hold(l, false, false), s.preemptCnt, s.locked[l := true], s.masked, to);
    SetAndCleared(s.locked, l);
    PutBack(s);
    Joined(s, [BeginLock(l, once), Try(false)], [BeginUnlock(|c.held|), EndUnlock(to)]);
  }

  /** An interrupt whose handler does nothing leaves no trace; while it runs interrupts are masked. */
  lemma InterruptReturns(s: Cpu)
    requires Inv(s) && Enabled(s, IrqEnter)
    ensures Runs(s, [IrqEnter, IrqExit]) && Next(s, IrqEnter).masked && After(s, [IrqEnter, IrqExit]) == s
  {
    Two(s, IrqEnter, IrqExit);
    hide Words, OthersQuiet, Counted, Runs, After;
  }
}
