/**
 * Priority inversion is bounded: under the PRIO policy with inheritance no step leaves a READY thread
 * above the running one, but for a switch of inheritance that is unsafe by an exact condition.
 */
module Inversion {
  import opened Prelude
  import opened KernelState
  import opened KernelInvariant
  import opened WaitQueues
  import opened LockOrder
  import opened PriorityInheritance

  /** The step passes through prio_pick_next, whatever the priorities. */
  ghost predicate Repicks(s: State, step: Step)
    requires Sized(s)
  {
    s.need != NEED_NONE || step.Tick? || step.Yield? || Blocks(s, step)
  }

  /** Where preempt_enable starts from: a reschedule is asked for, or there is nothing to correct. */
  ghost predicate Settled(s: State) {
    && Sized(s) && Structure(s) && Ranges(s) && s.rq != []
    && (s.need != NEED_NONE || Strict(s))
  }

  lemma PreemptEnableIsStrict(cfg: Config, s: State)
    requires cfg.prio && Settled(s)
    ensures Strict(PreemptEnable(cfg, s))
  {
    hide Structure, Ranges, Resched, Strict;
    if s.need != NEED_NONE { ReschedIsStrict(cfg, s); }
  }

  /** Same threads READY, same priorities, same current thread. */
  lemma SettledFrame(s: State, r: State)
    requires Settled(s) && Inv(r) && r.ready == s.ready && r.eff == s.eff && r.cur == s.cur && r.need == s.need
    ensures Settled(r)
  {
    hide Structure, Ranges, References;
    CurrentQueued(r);
  }

  lemma SettledNow(s: State)
    requires Inv(s) && (s.need != NEED_NONE || Strict(s))
    ensures Settled(s)
  {
    hide Structure, Ranges, References;
    CurrentQueued(s);
  }

  // ---- Unlocking ----

  /** Giving up m costs the current thread its priority only if a waiter of m was what it had it from. */
  lemma PriorityKept(cfg: Config, s: State, r: State, m: Mid)
    requires cfg.pi && Inv(s) && UpToDate(cfg, s, {}) && Inv(r) && UpToDate(cfg, r, {})
    requires m < |s.owner| == |r.owner| && |r.ready| == |s.ready|
    requires r.cur == s.cur && r.base == s.base && r.piOn == s.piOn
    requires forall x :: 0 <= x < |s.owner| && x != m ==> r.owner[x] == s.owner[x] && r.waiters[x] == s.waiters[x]
    requires forall x, w :: 0 <= x < |s.owner| && x != m && w in s.waiters[x] ==> r.eff[w] == s.eff[w]
    ensures r.eff[s.cur] >= s.eff[s.cur] || exists w :: w in s.waiters[m] && s.eff[w] == s.eff[s.cur]
  {
    hide Structure, Ranges, UpToDate;
    var c := s.cur;
    UpToDateIsMaximum(cfg, s, c);
    UpToDateIsMaximum(cfg, r, c);
    if s.eff[c] != s.base[c] {
      var w :| 0 <= w < |s.ready| && Donates(s, w, c) && s.eff[w] == s.eff[c];
      var x :| 0 <= x < |s.owner| && s.owner[x] == Some(c) && s.piOn[x] && w in s.waiters[x];
      if x != m { assert Donates(r, w, c); }
    }
  }

  lemma ReleaseSettled(cfg: Config, s: State, m: Mid)
    requires cfg.pi && Inv(s) && UpToDate(cfg, s, {}) && NoOwnerWaits(s.owned, s.waitingOn)
    requires Settled(s) && m < |s.owner| && s.owner[m] == Some(s.cur) && s.waiters[m] == []
    ensures Settled(UnlockOwned(cfg, s, m))
  {
    hide Structure, Ranges, UpToDate, NoOwnerWaits, RecomputedPriority, Minus;
    var r := UnlockOwned(cfg, s, m);
    UnlockOwnedKeeps(cfg, s, m);
    CurrentQueued(r);
    UnlockUpToDate(cfg, s, m);
    ReadyInNoQueue(s, s.cur);
    PriorityKept(cfg, s, r, m);
  }

  /** What handing m to waiter n changes: n is READY, and only its priority and the current one's may differ. */
  lemma HandedOver(cfg: Config, s: State, m: Mid) returns (n: Tid)
    requires cfg.pi && Inv(s) && UpToDate(cfg, s, {}) && NoOwnerWaits(s.owned, s.waitingOn)
    requires m < |s.owner| && s.owner[m] == Some(s.cur) && s.waiters[m] != []
    ensures n < |s.ready| && n != s.cur && s.eff[n] == s.base[n]
    ensures forall w :: w in s.waiters[m] ==> s.eff[w] <= s.eff[n]
    ensures forall x :: 0 <= x < |s.owner| && x != m ==> n !in s.waiters[x]
    ensures var r := UnlockOwned(cfg, s, m);
      && r.ready == s.ready[n := true] && r.cur == s.cur && r.base == s.base && r.piOn == s.piOn
      && |r.owner| == |s.owner|
      && (forall x :: 0 <= x < |s.owner| && x != m ==> r.owner[x] == s.owner[x] && r.waiters[x] == s.waiters[x])
      && (forall t :: 0 <= t < |s.ready| && t != s.cur && t != n ==> r.eff[t] == s.eff[t])
      && (s.need != NEED_NONE || r.eff[n] > r.eff[r.cur] ==> r.need != NEED_NONE)
  {
    hide RunQueue, SemaphoreQueues, Ranges, Ownership, UpToDate, RecomputedPriority, Minus;
    var i := PopIndex(s.eff, s.waiters[m]);
    n := s.waiters[m][i];
    assert n in s.waiters[m] && s.waitingOn[n] == Some(m) && s.owned[n] == [];
    UpToDateIsMaximum(cfg, s, n);
  }

  lemma HandOverSettled(cfg: Config, s: State, m: Mid)
    requires cfg.pi && Inv(s) && UpToDate(cfg, s, {}) && NoOwnerWaits(s.owned, s.waitingOn)
    requires Settled(s) && m < |s.owner| && s.owner[m] == Some(s.cur) && s.waiters[m] != []
    ensures Settled(UnlockOwned(cfg, s, m))
  {
    hide Structure, UpToDate, NoOwnerWaits, UnlockOwned;
    var r := UnlockOwned(cfg, s, m);
    var n := HandedOver(cfg, s, m);
    UnlockOwnedKeeps(cfg, s, m);
    CurrentQueued(r);
    UnlockUpToDate(cfg, s, m);
    ReadyInNoQueue(s, s.cur);
    PriorityKept(cfg, s, r, m);
    assert s.base[n] <= r.eff[n];
  }

  // ---- Steps other than a switch of inheritance ----

  lemma WakeSettled(s: State, k: Sid, i: nat)
    requires Inv(s) && Settled(s) && k < |s.count| && i < |s.sleepers[k]|
    ensures Settled(Wake(s, k, i))
  {
    hide Structure, Ranges;
    WakeKeeps(s, k, i);
    CurrentQueued(Wake(s, k, i));
  }

  lemma BlockSettled(cfg: Config, s: State, m: Mid)
    requires Inv(s) && Enabled(s, Lock(m)) && Blocks(s, Lock(m))
    ensures Settled(BlockOnMutex(cfg, s, m))
  {
    hide Structure, Ranges, References, Strict, BlockOnMutex;
    BlockOnMutexKeeps(cfg, s, m);
  }

  lemma SleepSettled(cfg: Config, s: State, k: Sid)
    requires Inv(s) && Enabled(s, Down(k)) && Blocks(s, Down(k))
    ensures Settled(BlockOnSemaphore(cfg, Counted(s, k, -1), k))
  {
    hide Structure, Ranges, References, Strict, BlockOnSemaphore;
    CountKeeps(s, k, s.count[k] - 1);
    BlockOnSemaphoreKeeps(cfg, Counted(s, k, -1), k);
  }

  lemma MutexStepIsStrict(cfg: Config, s: State, step: Step)
    requires cfg.prio && cfg.pi && Inv(s) && UpToDate(cfg, s, {}) && NoOwnerWaits(s.owned, s.waitingOn)
    requires Enabled(s, step) && Next(cfg, s, step).Running? && (step.Lock? || step.TryLock? || step.Unlock?)
    requires Blocks(s, step) || Settled(s)
    ensures Strict(Next(cfg, s, step).s)
  {
    hide Structure, Ranges, References, Strict, UpToDate, NoOwnerWaits, UnlockOwned, BlockOnMutex, PreemptEnable,
      LockdepWalk, RecomputedPriority, Settled;
    CurrentQueued(s);
    var m := step.m;
    if Blocks(s, step) {
      BlockSettled(cfg, s, m);
      PreemptEnableIsStrict(cfg, BlockOnMutex(cfg, s, m));
    } else if step.Unlock? {
      if s.owner[m] == Some(s.cur) {
        if s.waiters[m] == [] { ReleaseSettled(cfg, s, m); } else { HandOverSettled(cfg, s, m); }
        PreemptEnableIsStrict(cfg, UnlockOwned(cfg, s, m));
      } else {
        PreemptEnableIsStrict(cfg, s);
      }
    } else if s.owner[m].None? {
      AcquireKeeps(s, m);
      SettledFrame(s, Acquire(s, m));
      PreemptEnableIsStrict(cfg, Acquire(s, m));
    } else {
      PreemptEnableIsStrict(cfg, s);
    }
  }

  lemma SemaphoreStepIsStrict(cfg: Config, s: State, step: Step)
    requires cfg.prio && Inv(s) && Enabled(s, step) && (step.Down? || step.Up?)
    requires Blocks(s, step) || Settled(s)
    ensures Strict(Next(cfg, s, step).s)
  {
    hide Structure, Ranges, Strict, BlockOnSemaphore, PreemptEnable, Wake, Settled;
    var k := step.k;
    if Blocks(s, step) {
      SleepSettled(cfg, s, k);
      PreemptEnableIsStrict(cfg, BlockOnSemaphore(cfg, Counted(s, k, -1), k));
    } else {
      var d := if step.Up? then 1 else -1;
      var c := Counted(s, k, d);
      CountKeeps(s, k, s.count[k] + d);
      SettledFrame(s, c);
      if step.Up? && Wakes(s, k) {
        var i := PopIndex(c.eff, c.sleepers[k]);
        WakeSettled(c, k, i);
        PreemptEnableIsStrict(cfg, Wake(c, k, i));
      } else {
        PreemptEnableIsStrict(cfg, c);
      }
    }
  }

  lemma YieldIsStrict(cfg: Config, s: State)
    requires cfg.prio && Inv(s)
    ensures Strict(ThreadYield(cfg, s))
  {
    hide MutexQueues, SemaphoreQueues, Ownership, PickNext;
    CurrentQueued(s);
    PickIsMaximal(s, true, true);
  }

  // ---- Switching inheritance ----

  /** Another PI-enabled mutex of the current thread has a waiter of priority e or more. */
  ghost predicate OtherDonor(s: State, m: Mid, e: int)
    requires Sized(s)
  {
    exists x, w ::
      0 <= x < |s.owner| && x != m && s.owner[x] == Some(s.cur) && s.piOn[x] && w in s.waiters[x] && s.eff[w] >= e
  }

  /**
   * mutex_set_pi_enabled(m, on) asks for no reschedule. That is harmless if m has no owner; switching on, if
   * the owner is running or BLOCKED, or no waiter is above the running thread; switching off, if the owner
   * is not running, or what it keeps covers every other READY thread.
   */
  ghost predicate SwitchSafe(s: State, m: Mid, on: bool)
    requires Sized(s) && m < |s.owner|
  {
    || s.owner[m].None?
    || (on && (s.owner[m].value == s.cur || !s.ready[s.owner[m].value]))
    || (on && forall w :: w in s.waiters[m] ==> s.eff[w] <= s.eff[s.cur])
    || (!on && s.owner[m].value != s.cur)
    || (!on && forall u :: 0 <= u < |s.ready| && s.ready[u] && u != s.cur ==>
                 s.eff[u] <= s.base[s.cur] || OtherDonor(s, m, s.eff[u]))
  }

  /** Without a pending request a switch changes the flag and the owner's priority alone. */
  lemma SwitchFields(cfg: Config, s: State, m: Mid, on: bool)
    requires Sized(s) && m < |s.owner| && s.need == NEED_NONE
    ensures var r := MutexSetPi(cfg, s, m, on);
      && r.ready == s.ready && r.cur == s.cur && r.base == s.base && r.owner == s.owner && r.waiters == s.waiters
      && r.piOn == s.piOn[m := on] && |r.eff| == |s.eff|
      && (forall t :: 0 <= t < |s.ready| && s.owner[m] != Some(t) ==> r.eff[t] == s.eff[t])
  {
    hide RecomputedPriority;
  }

  /** No waiter's priority changes. */
  ghost predicate WaitersUnmoved(s: State, r: State)
    requires Sized(s) && Sized(r) && |r.ready| == |s.ready|
  {
    forall x, w :: 0 <= x < |s.owner| && w in s.waiters[x] ==> w < |s.ready| && r.eff[w] == s.eff[w]
  }

  /** States before and after a switch, both up to date, that differ as SwitchFields says. */
  ghost predicate Switched(cfg: Config, s: State, r: State, m: Mid, on: bool) {
    && Inv(s) && UpToDate(cfg, s, {}) && Strict(s) && Inv(r) && UpToDate(cfg, r, {}) && m < |s.owner|
    && r.ready == s.ready && r.cur == s.cur && r.base == s.base && r.owner == s.owner && r.waiters == s.waiters
    && r.piOn == s.piOn[m := on]
    && (forall t :: 0 <= t < |s.ready| && s.owner[m] != Some(t) ==> r.eff[t] == s.eff[t])
    && WaitersUnmoved(s, r)
  }

  /** The owner's priority once inheritance is on: the maximum of what it was and the waiters of m. */
  lemma Raised(s: State, r: State, m: Mid, o: Tid)
    requires Sized(s) && Sized(r) && |r.owner| == |s.owner| && |r.ready| == |s.ready|
    requires o < |s.ready| && m < |s.owner| && s.owner[m] == Some(o) && IsMaximum(s, o) && IsMaximum(r, o)
    requires r.base == s.base && r.owner == s.owner && r.waiters == s.waiters && r.piOn == s.piOn[m := true]
    requires WaitersUnmoved(s, r)
    ensures r.eff[o] >= s.eff[o] && forall w :: w in s.waiters[m] ==> s.eff[w] <= r.eff[o]
    ensures r.eff[o] == s.eff[o] || exists w :: w in s.waiters[m] && s.eff[w] == r.eff[o]
  {
  }

  lemma SwitchOnExact(cfg: Config, s: State, r: State, m: Mid)
    requires cfg.pi && Switched(cfg, s, r, m, true)
    ensures Strict(r) <==> SwitchSafe(s, m, true)
  {
    hide Structure, Ranges, References, UpToDate, IsMaximum, WaitersUnmoved;
    if s.owner[m].Some? {
      var o := s.owner[m].value;
      OwnerExists(s, m);
      UpToDateIsMaximum(cfg, s, o);
      UpToDateIsMaximum(cfg, r, o);
      Raised(s, r, m, o);
    }
  }

  lemma OwnerExists(s: State, m: Mid)
    requires Sized(s) && m < |s.owner| && s.owner[m].Some?
    ensures s.owner[m].value < |s.ready|
  {
  }

  /** The running owner's priority once inheritance is off: its base, or a waiter on another mutex. */
  lemma Lowered(s: State, r: State, m: Mid, e: int)
    requires Sized(s) && Sized(r) && |r.owner| == |s.owner| && |r.ready| == |s.ready| && r.cur == s.cur
    requires m < |s.owner| && s.owner[m] == Some(s.cur) && IsMaximum(r, s.cur)
    requires r.base == s.base && r.owner == s.owner && r.waiters == s.waiters && r.piOn == s.piOn[m := false]
    requires WaitersUnmoved(s, r)
    ensures e <= r.eff[s.cur] <==> e <= s.base[s.cur] || OtherDonor(s, m, e)
  {
    var c := s.cur;
    if OtherDonor(s, m, e) {
      var x, w :|
        0 <= x < |s.owner| && x != m && s.owner[x] == Some(c) && s.piOn[x] && w in s.waiters[x] && s.eff[w] >= e;
      assert Donates(r, w, c);
    }
    if e <= r.eff[c] && r.eff[c] != s.base[c] {
      var w :| 0 <= w < |r.ready| && Donates(r, w, c) && r.eff[w] == r.eff[c];
      var x :| 0 <= x < |r.owner| && r.owner[x] == Some(c) && r.piOn[x] && w in r.waiters[x];
    }
  }

  lemma SwitchOffExact(cfg: Config, s: State, r: State, m: Mid)
    requires cfg.pi && Switched(cfg, s, r, m, false)
    ensures Strict(r) <==> SwitchSafe(s, m, false)
  {
    hide Structure, Ranges, References, UpToDate, IsMaximum, OtherDonor, WaitersUnmoved;
    if s.owner[m].Some? {
      var o := s.owner[m].value;
      OwnerExists(s, m);
      UpToDateIsMaximum(cfg, s, o);
      UpToDateIsMaximum(cfg, r, o);
      if o == s.cur {
        forall u | 0 <= u < |s.ready|
          ensures s.eff[u] <= r.eff[s.cur] <==> s.eff[u] <= s.base[s.cur] || OtherDonor(s, m, s.eff[u])
        {
          Lowered(s, r, m, s.eff[u]);
        }
      } else {
        NotRaised(s, r, m, o);
      }
    }
  }

  lemma NotRaised(s: State, r: State, m: Mid, o: Tid)
    requires Sized(s) && Sized(r) && |r.owner| == |s.owner| && |r.ready| == |s.ready|
    requires o < |s.ready| && m < |s.owner| && s.owner[m] == Some(o) && IsMaximum(s, o) && IsMaximum(r, o)
    requires r.base == s.base && r.owner == s.owner && r.waiters == s.waiters && r.piOn == s.piOn[m := false]
    requires WaitersUnmoved(s, r)
    ensures r.eff[o] <= s.eff[o]
  {
    if r.eff[o] != s.base[o] {
      var w :| 0 <= w < |r.ready| && Donates(r, w, o) && r.eff[w] == r.eff[o];
      var x :| 0 <= x < |r.owner| && r.owner[x] == Some(o) && r.piOn[x] && w in r.waiters[x];
      assert Donates(s, w, o);
    }
  }

  lemma IsSwitched(cfg: Config, s: State, m: Mid, on: bool)
    requires Inv(s) && UpToDate(cfg, s, {}) && NoOwnerWaits(s.owned, s.waitingOn) && Strict(s)
    requires m < |s.owner| && s.need == NEED_NONE
    ensures Switched(cfg, s, MutexSetPi(cfg, s, m, on), m, on)
  {
    SwitchFields(cfg, s, m, on);
    SetPiKeeps(cfg, s, m, on);
    SetPiUpToDate(cfg, s, m, on);
    if s.owner[m].Some? { OwnerInNoQueue(s, s.owner[m].value, m); }
    hide RunQueue, MutexQueues, SemaphoreQueues, Ownership, Ranges, UpToDate, MutexSetPi, NoOwnerWaits, Strict;
  }

  /** From a state with nobody READY above the running thread, a switch leaves nobody there exactly when it is safe. */
  lemma SwitchIsExact(cfg: Config, s: State, m: Mid, on: bool)
    requires cfg.pi && Inv(s) && UpToDate(cfg, s, {}) && NoOwnerWaits(s.owned, s.waitingOn) && Strict(s)
    requires Enabled(s, SetPi(m, on)) && s.need == NEED_NONE
    ensures Strict(Next(cfg, s, SetPi(m, on)).s) <==> SwitchSafe(s, m, on)
  {
    hide Structure, Ranges, References, UpToDate, NoOwnerWaits, Strict, MutexSetPi, Switched, SwitchSafe;
    IsSwitched(cfg, s, m, on);
    var r := MutexSetPi(cfg, s, m, on);
    if on { SwitchOnExact(cfg, s, r, m); } else { SwitchOffExact(cfg, s, r, m); }
  }

  /** The step picks a thread anew, or none was above the running one and a switch of inheritance is safe. */
  ghost predicate KeepsStrict(s: State, step: Step)
    requires Sized(s) && Enabled(s, step)
  {
    Repicks(s, step) || (Strict(s) && (step.SetPi? ==> SwitchSafe(s, step.m, step.on)))
  }

  /** Such a step leaves no READY thread above the running one. */
  lemma StepIsStrict(cfg: Config, s: State, step: Step)
    requires cfg.prio && cfg.pi && Inv(s) && UpToDate(cfg, s, {}) && NoOwnerWaits(s.owned, s.waitingOn)
    requires Enabled(s, step) && Next(cfg, s, step).Running? && KeepsStrict(s, step)
    ensures Strict(Next(cfg, s, step).s)
  {
    hide Structure, Ranges, References, Strict, UpToDate, NoOwnerWaits, PreemptEnable, SchedOnTick, ThreadYield,
      MutexLock, MutexTryLock, MutexUnlock, MutexSetPi, SemDown, SemUp, Settled, SwitchSafe;
    if !step.Tick? && !step.Yield? && !Blocks(s, step) { SettledNow(s); }
    match step
    case Lock(m) => MutexStepIsStrict(cfg, s, step);
    case TryLock(m) => MutexStepIsStrict(cfg, s, step);
    case Unlock(m) => MutexStepIsStrict(cfg, s, step);
    case SetPi(m, on) => if s.need == NEED_NONE { SwitchIsExact(cfg, s, m, on); } else { SetPiRepicks(cfg, s, m, on); }
    case Down(k) => SemaphoreStepIsStrict(cfg, s, step);
    case Up(k) => SemaphoreStepIsStrict(cfg, s, step);
    case Yield => YieldIsStrict(cfg, s);
    case Tick => TickIsStrict(cfg, s);
    case PreemptPair => PreemptEnableIsStrict(cfg, s);
  }

  lemma SetPiRepicks(cfg: Config, s: State, m: Mid, on: bool)
    requires cfg.prio && Inv(s) && m < |s.owner| && s.need != NEED_NONE
    ensures Strict(MutexSetPi(cfg, s, m, on))
  {
    hide RunQueue, MutexQueues, SemaphoreQueues, Ownership, Strict, PreemptEnable, Recompute;
    CurrentQueued(s);
    var s1 := s.(piOn := s.piOn[m := on]);
    if s.owner[m].Some? {
      RecomputeKeeps(cfg, s1, s.owner[m].value);
      PreemptEnableIsStrict(cfg, Recompute(cfg, s1, s.owner[m].value));
    } else {
      PreemptEnableIsStrict(cfg, s1);
    }
  }

  // ---- Runs ----

  /** What the runs below keep; effective priorities are up to date and no owner waits. */
  ghost predicate Steady(cfg: Config, s: State) {
    Inv(s) && UpToDate(cfg, s, {}) && NoOwnerWaits(s.owned, s.waitingOn)
  }

  lemma StepIsSteady(cfg: Config, s: State, step: Step)
    requires cfg.repaired && cfg.pi && Steady(cfg, s)
    requires Enabled(s, step) && Allowed(NoNesting, s, step) && Next(cfg, s, step).Running?
    ensures Steady(cfg, Next(cfg, s, step).s) && SameStructure(Core(cfg, s, step), Next(cfg, s, step).s)
  {
    hide Structure, Ranges, References, UpToDate, NoOwnerWaits, Next, Core;
    StepKeeps(cfg, s, step);
    StepIsCore(cfg, s, step);
    StepUpToDate(cfg, s, step);
    CoreNoOwnerWaits(cfg, s, step);
  }

  lemma InitIsSteady(cfg: Config, s: State)
    requires Init(s)
    ensures Steady(cfg, s)
  {
    hide Structure, Ranges, References, UpToDate, NoOwnerWaits, Init;
    InitInv(s);
    InitUpToDate(cfg, s);
  }

  /** Every switch of inheritance in the run is safe, or made while a reschedule is pending anyway. */
  ghost predicate SafeSwitches(cfg: Config, s: State, steps: seq<Step>)
    requires Sized(s)
    decreases |steps|
  {
    steps != [] && Enabled(s, steps[0]) && Next(cfg, s, steps[0]).Running? ==>
      && (steps[0].SetPi? ==> s.need != NEED_NONE || SwitchSafe(s, steps[0].m, steps[0].on))
      && SafeSwitches(cfg, Next(cfg, s, steps[0]).s, steps[1..])
  }

  /** No state of the run has a READY thread above the running one. */
  ghost predicate StrictThroughout(cfg: Config, s: State, steps: seq<Step>)
    requires Sized(s)
    decreases |steps|
  {
    && Strict(s)
    && (steps != [] && Enabled(s, steps[0]) && Next(cfg, s, steps[0]).Running? ==>
          StrictThroughout(cfg, Next(cfg, s, steps[0]).s, steps[1..]))
  }

  /** Started with a thread of maximal priority, the machine always runs one if and only if every switch is safe. */
  lemma AlwaysStrict(cfg: Config, s0: State, steps: seq<Step>, s: State)
    requires cfg.prio && cfg.repaired && cfg.pi && Init(s0) && Strict(s0) && Runs(cfg, NoNesting, s0, steps, s)
    ensures StrictThroughout(cfg, s0, steps) <==> SafeSwitches(cfg, s0, steps)
    ensures SafeSwitches(cfg, s0, steps) ==> Sized(s) && Strict(s)
  {
    hide Steady, Strict, Runs, Init, SafeSwitches, StrictThroughout;
    InitIsSteady(cfg, s0);
    RunIsStrict(cfg, s0, steps, s);
  }

  lemma {:induction false} RunIsStrict(cfg: Config, s: State, steps: seq<Step>, r: State)
    requires cfg.prio && cfg.repaired && cfg.pi && Steady(cfg, s) && Strict(s) && Runs(cfg, NoNesting, s, steps, r)
    ensures Sized(s) && (StrictThroughout(cfg, s, steps) <==> SafeSwitches(cfg, s, steps))
    ensures SafeSwitches(cfg, s, steps) ==> Sized(r) && Strict(r)
    decreases |steps|
  {
    hide Structure, Ranges, References, Strict, UpToDate, NoOwnerWaits, Next, Core, SwitchSafe;
    if steps != [] {
      var step, s1 := steps[0], Next(cfg, s, steps[0]).s;
      StepIsSteady(cfg, s, step);
      if KeepsStrict(s, step) {
        StepIsStrict(cfg, s, step);
        RunIsStrict(cfg, s1, steps[1..], r);
      } else {
        SwitchIsExact(cfg, s, step.m, step.on);
        NotThroughout(cfg, s1, steps[1..]);
      }
    }
  }

  lemma NotThroughout(cfg: Config, s: State, steps: seq<Step>)
    requires Sized(s) && !Strict(s)
    ensures !StrictThroughout(cfg, s, steps)
  {
  }

  /** The running thread is not below any waiter of a PI-enabled mutex whose owner is READY. */
  ghost predicate WaitersBounded(s: State) {
    Sized(s) &&
    forall m, w :: 0 <= m < |s.owner| && s.piOn[m] && w in s.waiters[m] ==>
      s.owner[m].Some? && (s.ready[s.owner[m].value] ==> s.eff[w] <= s.eff[s.cur])
  }

  /**
   * Inversion is bounded: after every step of a run that picks a thread anew, or that follows a state
   * with nobody READY above the running thread and makes no unsafe switch of inheritance, the running
   * thread is not below any waiter of a PI-enabled mutex whose owner could run.
   */
  lemma InversionBounded(cfg: Config, s0: State, steps: seq<Step>, s: State, step: Step)
    requires cfg.prio && cfg.repaired && cfg.pi && Init(s0) && Runs(cfg, NoNesting, s0, steps, s)
    requires Sized(s) && Enabled(s, step) && Allowed(NoNesting, s, step) && Next(cfg, s, step).Running?
    requires KeepsStrict(s, step)
    ensures WaitersBounded(Next(cfg, s, step).s)
  {
    hide WaitersBounded, Structure, Ranges, References, Strict, UpToDate, NoOwnerWaits, Runs, Init, Next, Core,
      KeepsStrict;
    InitIsSteady(cfg, s0);
    RunUpToDate(cfg, s0, steps, s);
    StepIsSteady(cfg, s, step);
    StepIsStrict(cfg, s, step);
    StrictBounds(cfg, Next(cfg, s, step).s);
  }

  lemma StrictBounds(cfg: Config, s: State)
    requires cfg.pi && Inv(s) && UpToDate(cfg, s, {}) && Strict(s)
    ensures WaitersBounded(s)
  {
    hide RunQueue, SemaphoreQueues, Ranges, UpToDate;
    forall m, w | 0 <= m < |s.owner| && s.piOn[m] && w in s.waiters[m]
      ensures s.owner[m].Some? && (s.ready[s.owner[m].value] ==> s.eff[w] <= s.eff[s.cur])
    {
      assert s.waiters[m] != [];
      var t := s.owner[m].value;
      UpToDateIsMaximum(cfg, s, t);
      assert Donates(s, w, t);
    }
  }
}
