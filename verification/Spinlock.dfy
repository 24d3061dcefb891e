/**
 * Spinlocks on one core: threads, interrupt handlers, the preemption count and the interrupt mask.
 *
 * Every primitive is cut into its atomic parts, so an interrupt or a switch may fall between any two.
 * A step is taken by the running context: the handler if there is one, else the current thread.
 * Which thread the scheduler picks, and whether an exclusive store fails spuriously, are left open.
 */
module Spinlock {
  import opened Prelude

  type Tid = nat
  type Lid = nat

  /** A lock taken: by spin_lock/spin_trylock, or by spin_lock_irqsave with the mask it returned. */
  datatype Hold = Hold(l: Lid, irqsave: bool, flags: bool)

  datatype Pc =
    | Idle
    | Trying(l: Lid, once: bool)    // preemption disabled, before raw_spin_trylock
    | Failed(l: Lid, once: bool)    // before the preempt_enable after a failed try
    | Spinning(l: Lid)              // reading the lock word, preemptible
    | Unlocking                     // word cleared, before preempt_enable
    | Saving(l: Lid, flags: bool)   // interrupts masked, inside raw_spin_lock
    | Saved(l: Lid, flags: bool)    // word set, before preempt_disable
    | Restoring(flags: bool)        // word cleared, before local_irq_restore
    | Restored                      // mask restored, before preempt_enable

  datatype Context = Context(pc: Pc, held: seq<Hold>, pins: nat)

  datatype Cpu = Cpu(threads: seq<Context>, handler: Option<Context>, cur: Tid, preemptCnt: nat, masked: bool, locked: seq<bool>)

  /** `to` is the thread the scheduler would pick if the step reschedules. */
  datatype Action =
    | BeginLock(l: Lid, once: bool) | Try(fails: bool) | GiveUp(to: Tid) | Respin
    | BeginUnlock(i: nat) | EndUnlock(to: Tid)
    | BeginSave(l: Lid) | TakeSaved | EndSave
    | BeginRestore(i: nat) | Restore | EndRestore(to: Tid)
    | Disable | Enable(to: Tid) | YieldTo(to: Tid)
    | Preempt(to: Tid) | IrqEnter | IrqExit

  const FRESH := Context(Idle, [], 0)

  predicate Sized(s: Cpu) { s.cur < |s.threads| }

  function Running(s: Cpu): Context
    requires Sized(s)
  {
    if s.handler.Some? then s.handler.value else s.threads[s.cur]
  }

  function Become(s: Cpu, c: Context): (r: Cpu)
    requires Sized(s)
    ensures Sized(r)
  {
    if s.handler.Some? then s.(handler := Some(c)) else s.(threads := s.threads[s.cur := c])
  }

  /** Where the running context stands and what it has at hand for step a; switches apart. */
  predicate CanMove(c: Context, locked: seq<bool>, a: Action) {
    match a
    case BeginLock(l, _) => c.pc.Idle? && l < |locked|
    case Try(fails) => c.pc.Trying? && c.pc.l < |locked| && (locked[c.pc.l] ==> fails)
    case GiveUp(_) => c.pc.Failed?
    case Respin => c.pc.Spinning? && c.pc.l < |locked| && !locked[c.pc.l]
    case BeginUnlock(i) => c.pc.Idle? && i < |c.held| && !c.held[i].irqsave && c.held[i].l < |locked|
    case EndUnlock(_) => c.pc.Unlocking?
    case BeginSave(l) => c.pc.Idle? && l < |locked|
    case TakeSaved => c.pc.Saving? && c.pc.l < |locked| && !locked[c.pc.l]
    case EndSave => c.pc.Saved?
    case BeginRestore(i) => c.pc.Idle? && i < |c.held| && c.held[i].irqsave && c.held[i].l < |locked|
    case Restore => c.pc.Restoring?
    case EndRestore(_) => c.pc.Restored?
    case Disable => c.pc.Idle?
    case Enable(_) => c.pc.Idle? && c.pins > 0
    case _ => true
  }

  function Move(c: Context, locked: seq<bool>, masked: bool, a: Action): Context
    requires CanMove(c, locked, a)
  {
    match a
    case BeginLock(l, once) => c.(pc := Trying(l, once))
    case Try(fails) =>
      if fails then c.(pc := Failed(c.pc.l, c.pc.once))
      else c.(pc := Idle, held := c.held + [Hold(c.pc.l, false, false)])
    case GiveUp(_) => c.(pc := if c.pc.once then Idle else Spinning(c.pc.l))
    case Respin => c.(pc := Trying(c.pc.l, false))
    case BeginUnlock(i) => c.(pc := Unlocking, held := Without(c.held, i))
    case EndUnlock(_) => c.(pc := Idle)
    case BeginSave(l) => c.(pc := Saving(l, masked))
    case TakeSaved => c.(pc := Saved(c.pc.l, c.pc.flags))
    case EndSave => c.(pc := Idle, held := c.held + [Hold(c.pc.l, true, c.pc.flags)])
    case BeginRestore(i) => c.(pc := Restoring(c.held[i].flags), held := Without(c.held, i))
    case Restore => c.(pc := Restored)
    case EndRestore(_) => c.(pc := Idle)
    case Disable => c.(pins := c.pins + 1)
    case Enable(_) => c.(pins := c.pins - 1)
    case _ => c
  }

  /** preempt_cnt after the step: preempt_disable adds one, preempt_enable takes one unless it is zero. */
  function Count(cnt: nat, a: Action): nat {
    match a
    case BeginLock(_, _) => cnt + 1
    case Respin => cnt + 1
    case EndSave => cnt + 1
    case Disable => cnt + 1
    case GiveUp(_) => if cnt == 0 then 0 else cnt - 1
    case EndUnlock(_) => if cnt == 0 then 0 else cnt - 1
    case EndRestore(_) => if cnt == 0 then 0 else cnt - 1
    case Enable(_) => if cnt == 0 then 0 else cnt - 1
    case _ => cnt
  }

  function Word(c: Context, locked: seq<bool>, a: Action): (r: seq<bool>)
    requires CanMove(c, locked, a)
    ensures |r| == |locked|
  {
    match a
    case Try(fails) => if fails then locked else locked[c.pc.l := true]
    case TakeSaved => locked[c.pc.l := true]
    case BeginUnlock(i) => locked[c.held[i].l := false]
    case BeginRestore(i) => locked[c.held[i].l := false]
    case _ => locked
  }

  function Mask(c: Context, locked: seq<bool>, masked: bool, a: Action): bool
    requires CanMove(c, locked, a)
  {
    match a
    case BeginSave(_) => true
    case Restore => c.pc.flags
    case _ => masked
  }

  function Local(s: Cpu, a: Action): (r: Cpu)
    requires Sized(s) && CanMove(Running(s), s.locked, a)
    ensures Sized(r) && |r.threads| == |s.threads| && r.cur == s.cur && r.handler.Some? == s.handler.Some?
  {
    var c := Running(s);
    Become(s.(preemptCnt := Count(s.preemptCnt, a), locked := Word(c, s.locked, a), masked := Mask(c, s.locked, s.masked, a)),
           Move(c, s.locked, s.masked, a))
  }

  /** Steps that end in preempt_enable. */
  predicate Enables(a: Action) { a.GiveUp? || a.EndUnlock? || a.EndRestore? || a.Enable? }

  predicate Enabled(s: Cpu, a: Action)
    requires Sized(s)
  {
    && CanMove(Running(s), s.locked, a)
    && match a
       case YieldTo(to) => Running(s).pc.Idle? && s.handler.None? && s.preemptCnt == 0 && to < |s.threads|
       case Preempt(to) => s.handler.None? && s.preemptCnt == 0 && !s.masked && to < |s.threads|
       case IrqEnter => !s.masked
       case IrqExit => s.handler == Some(FRESH)
       case _ => Enables(a) ==> a.to < |s.threads|
  }

  /** The step makes the scheduler pick: yields, returns from an interrupt, or brings the count down to zero. */
  predicate Picks(s: Cpu, a: Action) {
    a.YieldTo? || a.Preempt? || (Enables(a) && s.preemptCnt == 1 && s.handler.None?)
  }

  function Next(s: Cpu, a: Action): (r: Cpu)
    requires Sized(s) && Enabled(s, a)
    ensures Sized(r)
  {
    if a.IrqEnter? then s.(handler := Some(FRESH), masked := true)
    else if a.IrqExit? then s.(handler := None, masked := false)
    else if Picks(s, a) then Local(s, a).(cur := a.to)
    else Local(s, a)
  }

  predicate Boot(s: Cpu) {
    && Sized(s) && s.handler.None? && s.preemptCnt == 0 && !s.masked
    && (forall t :: 0 <= t < |s.threads| ==> s.threads[t] == FRESH)
    && (forall l :: 0 <= l < |s.locked| ==> !s.locked[l])
  }

  /** Every step was enabled when taken. */
  predicate Runs(s: Cpu, run: seq<Action>)
    requires Sized(s)
    decreases |run|
  {
    run == [] || (Enabled(s, run[0]) && Runs(Next(s, run[0]), run[1..]))
  }

  function After(s: Cpu, run: seq<Action>): (r: Cpu)
    requires Sized(s) && Runs(s, run)
    ensures Sized(r)
    decreases |run|
  {
    if run == [] then s else After(Next(s, run[0]), run[1..])
  }

  // ---- What every step keeps ----

  /** The locks a context holds, in order of acquisition. */
  function Locks(c: Context): (r: seq<Lid>) {
    seq(|c.held|, i requires 0 <= i < |c.held| => c.held[i].l) + if c.pc.Saved? then [c.pc.l] else []
  }

  function HandlerLocks(h: Option<Context>): seq<Lid> { if h.Some? then Locks(h.value) else [] }

  function AllLocks(mine: Context, h: Option<Context>): seq<Lid> { Locks(mine) + HandlerLocks(h) }

  /** How much of preempt_cnt a context accounts for. */
  function Weight(c: Context): nat {
    |c.held| + c.pins + if c.pc.Trying? || c.pc.Failed? || c.pc.Unlocking? || c.pc.Restoring? || c.pc.Restored? then 1 else 0
  }

  predicate Counted(cnt: nat, mine: Context, h: Option<Context>) {
    cnt == Weight(mine) + if h.Some? then Weight(h.value) else 0
  }

  /** The words that are set are exactly those of the locks held, and no lock is held twice. */
  ghost predicate Words(locked: seq<bool>, held: seq<Lid>) {
    && Distinct(held)
    && (forall l :: l in held ==> l < |locked|)
    && (forall l :: 0 <= l < |locked| ==> (locked[l] <==> l in held))
  }

  /** A thread that is not current weighs and holds nothing. */
  ghost predicate OthersQuiet(threads: seq<Context>, cur: Tid) {
    forall t :: 0 <= t < |threads| && t != cur ==> Quiet(threads[t])
  }

  predicate Quiet(c: Context) { Weight(c) == 0 && (c.pc.Idle? || c.pc.Spinning?) }

  /** Between masking and preempt_disable interrupts stay masked; a handler never unmasks them. */
  predicate Masking(masked: bool, mine: Context, h: Option<Context>) {
    && (mine.pc.Saving? || mine.pc.Saved? ==> masked && h.None?)
    && (h.Some? ==> masked && AllMasked(h.value))
  }

  predicate AllMasked(c: Context) {
    && (forall i :: 0 <= i < |c.held| && c.held[i].irqsave ==> c.held[i].flags)
    && (c.pc.Saving? || c.pc.Saved? || c.pc.Restoring? ==> c.pc.flags)
  }

  ghost predicate Inv(s: Cpu) {
    && Sized(s)
    && Counted(s.preemptCnt, s.threads[s.cur], s.handler)
    && Words(s.locked, AllLocks(s.threads[s.cur], s.handler))
    && OthersQuiet(s.threads, s.cur)
    && Masking(s.masked, s.threads[s.cur], s.handler)
  }

  lemma LocksOf(c: Context)
    ensures |Locks(c)| == |c.held| + if c.pc.Saved? then 1 else 0
    ensures forall i :: 0 <= i < |c.held| ==> Locks(c)[i] == c.held[i].l
  {
  }

  lemma MoveWeight(c: Context, locked: seq<bool>, masked: bool, a: Action, cnt: nat)
    requires CanMove(c, locked, a) && cnt >= Weight(c)
    ensures Count(cnt, a) == cnt + Weight(Move(c, locked, masked, a)) - Weight(c)
  {
  }

  lemma MoveMasked(c: Context, locked: seq<bool>, a: Action)
    requires CanMove(c, locked, a) && AllMasked(c)
    ensures AllMasked(Move(c, locked, true, a)) && Mask(c, locked, true, a)
  {
  }

  lemma MoveSaving(c: Context, locked: seq<bool>, masked: bool, a: Action)
    requires CanMove(c, locked, a) && (c.pc.Saving? || c.pc.Saved? ==> masked)
    ensures var r := Move(c, locked, masked, a); r.pc.Saving? || r.pc.Saved? ==> Mask(c, locked, masked, a)
  {
  }

  /** A step changes the locks held as it changes the words: `front` and `back` are the other context's. */
  lemma MoveWords(c: Context, locked: seq<bool>, masked: bool, a: Action, front: seq<Lid>, back: seq<Lid>)
    requires CanMove(c, locked, a) && Words(locked, front + Locks(c) + back)
    ensures Words(Word(c, locked, a), front + Locks(Move(c, locked, masked, a)) + back)
  {
    var d := Move(c, locked, masked, a);
    match a
    case Try(fails) =>
      if fails {
        assert Locks(d) == Locks(c);
      } else {
        assert Locks(d) == Locks(c) + [c.pc.l];
        WordSet(locked, front, Locks(c), back, c.pc.l);
      }
    case TakeSaved =>
      assert Locks(d) == Locks(c) + [c.pc.l];
      WordSet(locked, front, Locks(c), back, c.pc.l);
    case BeginUnlock(i) => Removed(c, d, i); WordCleared(locked, front, Locks(c), back, i);
    case BeginRestore(i) => Removed(c, d, i); WordCleared(locked, front, Locks(c), back, i);
    case _ => assert Locks(d) == Locks(c);
  }

  lemma WordSet(locked: seq<bool>, front: seq<Lid>, q: seq<Lid>, back: seq<Lid>, l: Lid)
    requires Words(locked, front + q + back) && l < |locked| && !locked[l]
    ensures Words(locked[l := true], front + (q + [l]) + back)
  {
    var was, now := front + q + back, front + (q + [l]) + back;
    assert l !in was;
    var p := |front| + |q|;
    assert forall i :: 0 <= i < |now| ==> now[i] == if i < p then was[i] else if i == p then l else was[i - 1];
    assert now[p] == l;
    forall x | x in was ensures x in now {
      var i :| 0 <= i < |was| && was[i] == x;
      assert now[if i < p then i else i + 1] == x;
    }
    forall x | x in now && x != l ensures x in was {
      var i :| 0 <= i < |now| && now[i] == x;
      assert was[if i < p then i else i - 1] == x;
    }
    forall i, j | 0 <= i < j < |now| ensures now[i] != now[j] {
      if i != p && j != p { assert now[i] == was[if i < p then i else i - 1] && now[j] == was[if j < p then j else j - 1]; }
    }
  }

  lemma WordCleared(locked: seq<bool>, front: seq<Lid>, q: seq<Lid>, back: seq<Lid>, i: nat)
    requires Words(locked, front + q + back) && i < |q| && q[i] < |locked|
    ensures Words(locked[q[i] := false], front + Without(q, i) + back)
  {
    var all := front + q + back;
    assert front + Without(q, i) + back == Without(all, |front| + i);
    assert all[|front| + i] == q[i];
    WithoutKeepsOthers(all, |front| + i);
  }

  lemma Removed(c: Context, d: Context, i: nat)
    requires c.pc.Idle? && i < |c.held| && d.held == Without(c.held, i) && !d.pc.Saved?
    ensures i < |Locks(c)| && Locks(c)[i] == c.held[i].l && Locks(d) == Without(Locks(c), i)
  {
  }

  lemma LocalWords(s: Cpu, a: Action)
    requires Sized(s) && CanMove(Running(s), s.locked, a) && Words(s.locked, AllLocks(s.threads[s.cur], s.handler))
    ensures var r := Local(s, a); Words(r.locked, AllLocks(r.threads[r.cur], r.handler))
  {
    var c, mine := Running(s), s.threads[s.cur];
    var front := if s.handler.Some? then Locks(mine) else [];
    assert front + Locks(c) + [] == AllLocks(mine, s.handler);
    MoveWords(c, s.locked, s.masked, a, front, []);
    var r := Local(s, a);
    assert front + Locks(Running(r)) + [] == AllLocks(r.threads[r.cur], r.handler);
    hide Move, CanMove, Locks, Weight, Words, Masking, Word, Mask, Count;
  }

  lemma LocalKeeps(s: Cpu, a: Action)
    requires Inv(s) && CanMove(Running(s), s.locked, a)
    ensures Inv(Local(s, a))
  {
    var c := Running(s);
    MoveWeight(c, s.locked, s.masked, a, s.preemptCnt);
    if s.handler.Some? { MoveMasked(c, s.locked, a); } else { MoveSaving(c, s.locked, s.masked, a); }
    LocalWords(s, a);
    hide Move, CanMove, Locks, Weight, Words, Word, Mask, Count, AllMasked, AllLocks;
  }

  /** A switch point: nothing is held, by anybody, and the thread leaving is quiet. */
  lemma NothingHeld(s: Cpu)
    requires Inv(s) && s.preemptCnt == 0 && s.handler.None? && !s.threads[s.cur].pc.Saved? && !s.threads[s.cur].pc.Saving?
    ensures Quiet(s.threads[s.cur]) && forall l :: 0 <= l < |s.locked| ==> !s.locked[l]
  {
    LocksOf(s.threads[s.cur]);
  }

  lemma SwitchKeeps(s: Cpu, to: Tid)
    requires Inv(s) && s.preemptCnt == 0 && s.handler.None? && !s.threads[s.cur].pc.Saved? && !s.threads[s.cur].pc.Saving?
    requires to < |s.threads|
    ensures Inv(s.(cur := to))
  {
    NothingHeld(s);
    LocksOf(s.threads[s.cur]);
    LocksOf(s.threads[to]);
  }

  /** Whenever the scheduler picks, all spinlocks are free and no handler is running. */
  lemma SwitchIsLockFree(s: Cpu, a: Action)
    requires Inv(s) && Enabled(s, a) && Picks(s, a)
    ensures var r := Next(s, a);
      r.preemptCnt == 0 && r.handler.None? && forall l :: 0 <= l < |r.locked| ==> !r.locked[l]
    ensures Inv(Next(s, a))
  {
    LocalKeeps(s, a);
    var r := Local(s, a);
    PickPoint(s, a);
    NothingHeld(r);
    SwitchKeeps(r, a.to);
  }

  lemma PickPoint(s: Cpu, a: Action)
    requires Inv(s) && Enabled(s, a) && Picks(s, a)
    ensures var r := Local(s, a);
      r.preemptCnt == 0 && r.handler.None? && !r.threads[r.cur].pc.Saved? && !r.threads[r.cur].pc.Saving? && a.to < |r.threads|
  {
    hide Words, OthersQuiet;
  }

  lemma StepKeeps(s: Cpu, a: Action)
    requires Inv(s) && Enabled(s, a)
    ensures Inv(Next(s, a))
  {
    if a.IrqEnter? || a.IrqExit? {
      var h := if a.IrqEnter? then Some(FRESH) else None;
      assert AllLocks(s.threads[s.cur], h) == AllLocks(s.threads[s.cur], s.handler);
    } else if Picks(s, a) {
      SwitchIsLockFree(s, a);
    } else {
      LocalKeeps(s, a);
    }
  }

  /** A held lock keeps the count positive or interrupts masked. */
  lemma HeldIsProtected(s: Cpu, l: Lid)
    requires Inv(s) && l < |s.locked| && s.locked[l]
    ensures s.preemptCnt >= 1 || s.masked
  {
    LocksOf(s.threads[s.cur]);
  }

  lemma {:induction false} ReachableInv(s: Cpu, run: seq<Action>)
    requires Boot(s) && Runs(s, run)
    ensures Inv(After(s, run))
  {
    LocksOf(FRESH);
    RunKeeps(s, run);
  }

  lemma {:induction false} RunKeeps(s: Cpu, run: seq<Action>)
    requires Inv(s) && Runs(s, run)
    ensures Inv(After(s, run))
    decreases |run|
  {
    if run != [] {
      StepKeeps(s, run[0]);
      RunKeeps(Next(s, run[0]), run[1..]);
    }
  }

  // ---- Interrupts and irqsave locks ----

  /** No lock taken with spin_lock_irqsave, or being taken that way. */
  ghost predicate NoIrqsave(c: Context) {
    !c.pc.Saved? && !c.pc.Saving? && forall i :: 0 <= i < |c.held| ==> !c.held[i].irqsave
  }

  /** While interrupts can arrive, or one is being served, the current thread holds no irqsave lock. */
  ghost predicate IrqSafe(s: Cpu)
    requires Sized(s)
  {
    && (!s.masked || s.handler.Some? ==> NoIrqsave(s.threads[s.cur]))
    && (s.handler.None? ==> RestoreSafe(s.threads[s.cur]))
  }

  ghost predicate RestoreSafe(c: Context) { c.pc.Restoring? && !c.pc.flags ==> NoIrqsave(c) }

  /** Releasing hold i with its own flags unmasks interrupts only if no other irqsave lock stays held. */
  ghost predicate Tidy(c: Context, a: Action) {
    a.BeginRestore? && a.i < |c.held| && !c.held[a.i].flags ==>
      forall j :: 0 <= j < |c.held| && j != a.i ==> !c.held[j].irqsave
  }

  lemma MoveTidy(c: Context, locked: seq<bool>, masked: bool, a: Action)
    requires CanMove(c, locked, a) && Tidy(c, a) && RestoreSafe(c) && (!masked ==> NoIrqsave(c))
    ensures var d := Move(c, locked, masked, a); RestoreSafe(d) && (!Mask(c, locked, masked, a) ==> NoIrqsave(d))
  {
  }

  lemma TidyLocal(s: Cpu, a: Action)
    requires Inv(s) && IrqSafe(s) && CanMove(Running(s), s.locked, a) && (s.handler.None? ==> Tidy(Running(s), a))
    ensures IrqSafe(Local(s, a))
  {
    var c := Running(s);
    if s.handler.Some? { MoveMasked(c, s.locked, a); } else { MoveTidy(c, s.locked, s.masked, a); }
    hide Words, Move, CanMove, Mask, Word, AllMasked, Tidy, NoIrqsave, RestoreSafe, OthersQuiet, Counted;
  }

  lemma TidyStep(s: Cpu, a: Action)
    requires Inv(s) && IrqSafe(s) && Enabled(s, a) && (s.handler.None? ==> Tidy(Running(s), a))
    ensures IrqSafe(Next(s, a))
  {
    if !a.IrqEnter? && !a.IrqExit? {
      TidyLocal(s, a);
      if Picks(s, a) {
        SwitchIsLockFree(s, a);
        LocksOf(Local(s, a).threads[a.to]);
        PickPoint(s, a);
        QuietHoldsNothing(s, a);
      }
    }
    hide Words, Move, CanMove, Mask, Word, AllMasked, Tidy, NoIrqsave, OthersQuiet, Counted;
  }

  /** The thread switched to holds nothing. */
  lemma QuietHoldsNothing(s: Cpu, a: Action)
    requires Inv(s) && Enabled(s, a) && Picks(s, a)
    ensures NoIrqsave(Next(s, a).threads[Next(s, a).cur])
  {
    PickPoint(s, a);
    LocalKeeps(s, a);
    NothingHeld(Local(s, a));
  }

  /** The condition is exact: releasing hold i and restoring its flags stays safe if and only if the release is tidy. */
  lemma TidyIsExact(s: Cpu, i: nat)
    requires Inv(s) && IrqSafe(s) && s.handler.None? && Enabled(s, BeginRestore(i))
    ensures var m := Next(s, BeginRestore(i));
      Enabled(m, Restore) && (IrqSafe(m) && IrqSafe(Next(m, Restore)) <==> Tidy(Running(s), BeginRestore(i)))
  {
    var c := Running(s);
    var m := Next(s, BeginRestore(i));
    StepKeeps(s, BeginRestore(i));
    if Tidy(c, BeginRestore(i)) {
      TidyStep(s, BeginRestore(i));
      TidyStep(m, Restore);
    } else {
      var j := OtherIrqsave(c, i);
      assert !IrqSafe(Next(m, Restore)) by { hide Words; }
    }
  }

  lemma OtherIrqsave(c: Context, i: nat) returns (k: nat)
    requires i < |c.held| && !Tidy(c, BeginRestore(i))
    ensures k < |Without(c.held, i)| && Without(c.held, i)[k].irqsave && !c.held[i].flags
  {
    var j :| 0 <= j < |c.held| && j != i && c.held[j].irqsave;
    k := if j < i then j else j - 1;
  }

  /** After an untidy release an interrupt can arrive while the current thread holds an irqsave lock, its word set. */
  lemma UntidyExposes(s: Cpu, i: nat) returns (k: nat)
    requires Inv(s) && s.handler.None? && Enabled(s, BeginRestore(i)) && !Tidy(Running(s), BeginRestore(i))
    ensures Enabled(Next(s, BeginRestore(i)), Restore)
    ensures var r := Next(Next(s, BeginRestore(i)), Restore);
      && Enabled(r, IrqEnter) && r.handler.None? && r.cur == s.cur && r.cur < |r.threads|
      && var held := r.threads[r.cur].held;
         k < |held| && held[k].irqsave && held[k].l < |r.locked| && r.locked[held[k].l]
  {
    k := OtherIrqsave(Running(s), i);
    var m := Next(s, BeginRestore(i));
    StepKeeps(s, BeginRestore(i));
    HeldIsLocked(m, k);
    hide Inv;
    RestoreUnmasks(m);
  }

  lemma RestoreUnmasks(s: Cpu)
    requires Sized(s) && s.handler.None? && Running(s).pc.Restoring? && !Running(s).pc.flags
    ensures Enabled(s, Restore)
    ensures var r := Next(s, Restore);
      && Enabled(r, IrqEnter) && r.handler.None? && r.cur == s.cur && r.cur < |r.threads| && r.locked == s.locked
      && r.threads[r.cur].held == s.threads[s.cur].held
  {
  }

  lemma HeldIsLocked(s: Cpu, k: nat)
    requires Inv(s) && k < |s.threads[s.cur].held|
    ensures s.threads[s.cur].held[k].l < |s.locked| && s.locked[s.threads[s.cur].held[k].l]
  {
    var c := s.threads[s.cur];
    LocksOf(c);
    assert Locks(c)[k] in AllLocks(c, s.handler);
  }

  // ---- Acquisitions never meet a hold ----

  /** An irqsave lock taken while another was held saved a masked state. */
  ghost predicate MaskOrder(c: Context) {
    && (forall i, j :: 0 <= i < j < |c.held| && c.held[i].irqsave && c.held[j].irqsave ==> c.held[j].flags)
    && ((c.pc.Saving? || c.pc.Saved?) && !c.pc.flags ==> forall i :: 0 <= i < |c.held| ==> !c.held[i].irqsave)
  }

  /** irqsave locks are released last taken first. */
  ghost predicate Nested(c: Context, a: Action) {
    a.BeginRestore? ==> forall j :: a.i < j < |c.held| ==> !c.held[j].irqsave
  }

  lemma NestedIsTidy(c: Context, a: Action)
    requires MaskOrder(c) && Nested(c, a) && (a.BeginRestore? ==> a.i < |c.held| && c.held[a.i].irqsave)
    ensures Tidy(c, a)
  {
  }

  lemma MoveOrder(c: Context, locked: seq<bool>, masked: bool, a: Action)
    requires CanMove(c, locked, a) && MaskOrder(c) && (!masked ==> NoIrqsave(c))
    ensures MaskOrder(Move(c, locked, masked, a))
  {
  }

  /** The lock a context is after. */
  function Wanted(c: Context): Option<Lid> {
    match c.pc
    case Trying(l, _) => Some(l)
    case Failed(l, _) => Some(l)
    case Spinning(l) => Some(l)
    case Saving(l, _) => Some(l)
    case _ => None
  }

  /** No context takes a lock it holds; handlers take only locks of `shared`, which threads take by irqsave alone. */
  ghost predicate Careful(c: Context, a: Action, shared: set<Lid>, inHandler: bool) {
    && (a.BeginLock? || a.BeginSave? ==> a.l !in Locks(c) && (inHandler ==> a.l in shared))
    && (a.BeginLock? && !inHandler ==> a.l !in shared)
  }

  ghost predicate Aims(c: Context, shared: set<Lid>, inHandler: bool) {
    && (Wanted(c).Some? ==> Wanted(c).value !in Locks(c) && (inHandler ==> Wanted(c).value in shared))
    && (!inHandler && Wanted(c).Some? && !c.pc.Saving? ==> Wanted(c).value !in shared)
    && (!inHandler ==> forall i :: 0 <= i < |c.held| && !c.held[i].irqsave ==> c.held[i].l !in shared)
  }

  lemma MoveAims(c: Context, locked: seq<bool>, masked: bool, a: Action, shared: set<Lid>, inHandler: bool)
    requires CanMove(c, locked, a) && Aims(c, shared, inHandler) && Careful(c, a, shared, inHandler)
    ensures Aims(Move(c, locked, masked, a), shared, inHandler)
  {
    var d := Move(c, locked, masked, a);
    if Wanted(d).Some? { assert Locks(d) == Locks(c); }
    hide Locks;
  }

  ghost predicate Safe(s: Cpu, shared: set<Lid>) {
    && Inv(s) && IrqSafe(s) && MaskOrder(s.threads[s.cur])
    && AllAim(s.threads, shared)
    && (s.handler.Some? ==> Aims(s.handler.value, shared, true))
  }

  ghost predicate AllAim(threads: seq<Context>, shared: set<Lid>) {
    forall t :: 0 <= t < |threads| ==> Aims(threads[t], shared, false)
  }

  ghost predicate Disciplined(s: Cpu, a: Action, shared: set<Lid>)
    requires Sized(s)
  {
    Careful(Running(s), a, shared, s.handler.Some?) && (s.handler.None? ==> Nested(Running(s), a))
  }

  lemma SafeStep(s: Cpu, a: Action, shared: set<Lid>)
    requires Safe(s, shared) && Enabled(s, a) && Disciplined(s, a, shared)
    ensures Safe(Next(s, a), shared)
  {
    var c := Running(s);
    StepKeeps(s, a);
    if s.handler.None? { NestedIsTidy(c, a); }
    TidyStep(s, a);
    OrderStep(s, a);
    AimsStep(s, a, shared);
  }

  lemma OrderStep(s: Cpu, a: Action)
    requires Inv(s) && IrqSafe(s) && MaskOrder(s.threads[s.cur]) && Enabled(s, a)
    ensures MaskOrder(Next(s, a).threads[Next(s, a).cur])
  {
    if s.handler.None? { MoveOrder(s.threads[s.cur], s.locked, s.masked, a); }
    if Picks(s, a) { QuietHoldsNothing(s, a); }
    hide Words, OthersQuiet, Masking, Counted, Move, CanMove;
  }

  lemma AimsStep(s: Cpu, a: Action, shared: set<Lid>)
    requires Safe(s, shared) && Enabled(s, a) && Disciplined(s, a, shared)
    ensures AllAim(Next(s, a).threads, shared)
    ensures Next(s, a).handler.Some? ==> Aims(Next(s, a).handler.value, shared, true)
  {
    FreshAims(shared);
    assert Sized(s);
    hide Inv, IrqSafe, MaskOrder, Aims;
    if !a.IrqEnter? && !a.IrqExit? { LocalAims(s, a, shared); }
    hide Move, CanMove, Careful, Nested, Word, Mask, Count, AllAim;
  }

  lemma FreshAims(shared: set<Lid>)
    ensures Aims(FRESH, shared, true)
  {
  }

  lemma LocalAims(s: Cpu, a: Action, shared: set<Lid>)
    requires Sized(s) && AllAim(s.threads, shared) && (s.handler.Some? ==> Aims(s.handler.value, shared, true))
    requires CanMove(Running(s), s.locked, a) && Careful(Running(s), a, shared, s.handler.Some?)
    ensures AllAim(Local(s, a).threads, shared)
    ensures Local(s, a).handler.Some? ==> Aims(Local(s, a).handler.value, shared, true)
  {
    MoveAims(Running(s), s.locked, s.masked, a, shared, s.handler.Some?);
    hide Aims, Move, CanMove, Careful, Word, Mask, Count;
  }

  /** A lock about to be tried, waited for or taken by the running context is free. */
  lemma NeverMeets(s: Cpu, shared: set<Lid>)
    requires Safe(s, shared)
    ensures var w := Wanted(Running(s)); w.Some? && w.value < |s.locked| ==> !s.locked[w.value]
  {
    var w, mine := Wanted(Running(s)), s.threads[s.cur];
    if w.Some? && w.value < |s.locked| {
      LocksOf(mine);
      assert w.value !in Locks(mine);
      assert w.value !in AllLocks(mine, s.handler);
    }
  }

  ghost predicate DisciplinedRun(s: Cpu, run: seq<Action>, shared: set<Lid>)
    requires Sized(s)
    decreases |run|
  {
    run == [] || (Enabled(s, run[0]) && Disciplined(s, run[0], shared) && DisciplinedRun(Next(s, run[0]), run[1..], shared))
  }

  lemma {:induction false} DisciplinedRunSafe(s: Cpu, run: seq<Action>, shared: set<Lid>)
    requires Safe(s, shared) && DisciplinedRun(s, run, shared)
    ensures Runs(s, run) && Safe(After(s, run), shared)
    decreases |run|
  {
    if run != [] {
      SafeStep(s, run[0], shared);
      DisciplinedRunSafe(Next(s, run[0]), run[1..], shared);
    }
  }

  /** From boot, under the discipline: every acquisition finds its lock free and no irqsave lock is held when an IRQ arrives. */
  lemma AcquisitionsNeverWait(s: Cpu, run: seq<Action>, shared: set<Lid>)
    requires Boot(s) && DisciplinedRun(s, run, shared)
    ensures Runs(s, run)
    ensures var r := After(s, run); var w := Wanted(Running(r)); w.Some? && w.value < |r.locked| ==> !r.locked[w.value]
    ensures var r := After(s, run); !r.masked ==> forall l :: l in shared && l < |r.locked| ==> !r.locked[l]
  {
    LocksOf(FRESH);
    DisciplinedRunSafe(s, run, shared);
    var r := After(s, run);
    NeverMeets(r, shared);
    if !r.masked { SharedFree(r, shared); }
  }

  lemma SharedFree(s: Cpu, shared: set<Lid>)
    requires Safe(s, shared) && !s.masked
    ensures forall l :: l in shared && l < |s.locked| ==> !s.locked[l]
  {
    var mine := s.threads[s.cur];
    LocksOf(mine);
    forall l | l in shared && l < |s.locked| ensures !s.locked[l] {
      assert forall i :: 0 <= i < |Locks(mine)| ==> Locks(mine)[i] == mine.held[i].l;
    }
  }

  // ---- Locks not shared with handlers ----

  /** No context takes a lock it holds, and handlers and threads take different locks; release order is free. */
  ghost predicate NonRecursive(c: Context, a: Action, handlers: set<Lid>, inHandler: bool) {
    a.BeginLock? || a.BeginSave? ==> a.l !in Locks(c) && (a.l in handlers <==> inHandler)
  }

  ghost predicate OnSide(c: Context, handlers: set<Lid>, inHandler: bool) {
    && (forall l :: l in Locks(c) ==> (l in handlers <==> inHandler))
    && (Wanted(c).Some? ==> Wanted(c).value !in Locks(c) && (Wanted(c).value in handlers <==> inHandler))
  }

  ghost predicate Separate(s: Cpu, handlers: set<Lid>) {
    && Inv(s) && AllOnSide(s.threads, handlers)
    && (s.handler.Some? ==> OnSide(s.handler.value, handlers, true))
  }

  ghost predicate AllOnSide(threads: seq<Context>, handlers: set<Lid>) {
    forall t :: 0 <= t < |threads| ==> OnSide(threads[t], handlers, false)
  }

  lemma MoveOnSide(c: Context, locked: seq<bool>, masked: bool, a: Action, handlers: set<Lid>, inHandler: bool)
    requires CanMove(c, locked, a) && OnSide(c, handlers, inHandler) && NonRecursive(c, a, handlers, inHandler)
    ensures OnSide(Move(c, locked, masked, a), handlers, inHandler)
  {
    var d := Move(c, locked, masked, a);
    LocksAfter(c, locked, masked, a);
    if Wanted(d).Some? { assert Locks(d) == Locks(c); }
    hide Locks;
  }

  /** A step adds at most the lock the context is after. */
  lemma LocksAfter(c: Context, locked: seq<bool>, masked: bool, a: Action)
    requires CanMove(c, locked, a)
    ensures forall l :: l in Locks(Move(c, locked, masked, a)) ==> l in Locks(c) || Wanted(c) == Some(l)
  {
    var d := Move(c, locked, masked, a);
    if a.BeginUnlock? || a.BeginRestore? {
      Removed(c, d, a.i);
    } else if (a.Try? && !a.fails) || a.TakeSaved? {
      assert Locks(d) == Locks(c) + [c.pc.l];
    } else {
      assert Locks(d) == Locks(c);
    }
  }

  lemma SeparateStep(s: Cpu, a: Action, handlers: set<Lid>)
    requires Separate(s, handlers) && Enabled(s, a) && NonRecursive(Running(s), a, handlers, s.handler.Some?)
    ensures Separate(Next(s, a), handlers)
  {
    StepKeeps(s, a);
    SideStep(s, a, handlers);
    hide Inv, AllOnSide, OnSide, Enabled, NonRecursive;
  }

  lemma SideStep(s: Cpu, a: Action, handlers: set<Lid>)
    requires Separate(s, handlers) && Enabled(s, a) && NonRecursive(Running(s), a, handlers, s.handler.Some?)
    ensures AllOnSide(Next(s, a).threads, handlers)
    ensures Next(s, a).handler.Some? ==> OnSide(Next(s, a).handler.value, handlers, true)
  {
    FreshOnSide(handlers);
    assert Sized(s);
    hide Inv, OnSide;
    if !a.IrqEnter? && !a.IrqExit? { LocalOnSide(s, a, handlers); }
    hide Move, CanMove, NonRecursive, Word, Mask, Count, AllOnSide;
  }

  lemma LocalOnSide(s: Cpu, a: Action, handlers: set<Lid>)
    requires Sized(s) && AllOnSide(s.threads, handlers) && (s.handler.Some? ==> OnSide(s.handler.value, handlers, true))
    requires CanMove(Running(s), s.locked, a) && NonRecursive(Running(s), a, handlers, s.handler.Some?)
    ensures AllOnSide(Local(s, a).threads, handlers)
    ensures Local(s, a).handler.Some? ==> OnSide(Local(s, a).handler.value, handlers, true)
  {
    MoveOnSide(Running(s), s.locked, s.masked, a, handlers, s.handler.Some?);
    hide OnSide, Move, CanMove, NonRecursive, Word, Mask, Count;
  }

  lemma FreshOnSide(handlers: set<Lid>)
    ensures OnSide(FRESH, handlers, true)
  {
  }

  /** The lock the running context is after is free, by counting and words alone. */
  lemma SeparateNeverMeets(s: Cpu, handlers: set<Lid>)
    requires Separate(s, handlers)
    ensures var w := Wanted(Running(s)); w.Some? && w.value < |s.locked| ==> !s.locked[w.value]
  {
    var w, mine := Wanted(Running(s)), s.threads[s.cur];
    if w.Some? && w.value < |s.locked| {
      assert w.value !in Locks(mine) && w.value !in HandlerLocks(s.handler);
      assert w.value !in AllLocks(mine, s.handler);
    }
  }

  ghost predicate NonRecursiveRun(s: Cpu, run: seq<Action>, handlers: set<Lid>)
    requires Sized(s)
    decreases |run|
  {
    run == [] ||
    (Enabled(s, run[0]) && NonRecursive(Running(s), run[0], handlers, s.handler.Some?)
     && NonRecursiveRun(Next(s, run[0]), run[1..], handlers))
  }

  lemma {:induction false} NonRecursiveRunSeparate(s: Cpu, run: seq<Action>, handlers: set<Lid>)
    requires Separate(s, handlers) && NonRecursiveRun(s, run, handlers)
    ensures Runs(s, run) && Separate(After(s, run), handlers)
    decreases |run|
  {
    if run != [] {
      SeparateStep(s, run[0], handlers);
      NonRecursiveRunSeparate(Next(s, run[0]), run[1..], handlers);
    }
  }

  /**
   * From boot, threads and handlers that take different locks and none they hold never wait for one,
   * in whatever order they release and with whichever primitives they lock.
   */
  lemma SeparateNeverWait(s: Cpu, run: seq<Action>, handlers: set<Lid>)
    requires Boot(s) && NonRecursiveRun(s, run, handlers)
    ensures Runs(s, run)
    ensures var r := After(s, run); var w := Wanted(Running(r)); w.Some? && w.value < |r.locked| ==> !r.locked[w.value]
  {
    LocksOf(FRESH);
    NonRecursiveRunSeparate(s, run, handlers);
    SeparateNeverMeets(After(s, run), handlers);
  }

  // ---- Without any discipline ----

  /** A handler that shares a lock taken plainly can wait for ever for the thread it interrupted. */
  lemma HandlerDeadlock(s: Cpu, l: Lid) returns (run: seq<Action>)
    requires Boot(s) && l < |s.locked|
    ensures Runs(s, run) && forall a :: !Enabled(After(s, run), a)
  {
    var s1 := Next(s, BeginLock(l, false));
    var s2 := Next(s1, Try(false));
    var s3 := Next(s2, IrqEnter);
    var s4 := Next(s3, BeginSave(l));
    StuckHandler(s4);
    assert Runs(s4, []) && After(s4, []) == s4;
    hide Enabled, Next, Runs, After, Boot;
    RunCons(s3, BeginSave(l), []);
    RunCons(s2, IrqEnter, [BeginSave(l)] + []);
    RunCons(s1, Try(false), [IrqEnter] + ([BeginSave(l)] + []));
    RunCons(s, BeginLock(l, false), [Try(false)] + ([IrqEnter] + ([BeginSave(l)] + [])));
    run := [BeginLock(l, false)] + ([Try(false)] + ([IrqEnter] + ([BeginSave(l)] + [])));
  }

  lemma StuckHandler(s: Cpu)
    requires Sized(s) && s.masked && s.handler.Some? && s.handler.value.pc.Saving?
    requires s.handler.value.pc.l < |s.locked| && s.locked[s.handler.value.pc.l]
    ensures forall a :: !Enabled(s, a)
  {
  }

  lemma RunCons(s: Cpu, a: Action, run: seq<Action>)
    requires Sized(s) && Enabled(s, a) && Runs(Next(s, a), run)
    ensures Runs(s, [a] + run) && After(s, [a] + run) == After(Next(s, a), run)
  {
    assert ([a] + run)[1..] == run;
  }
}
