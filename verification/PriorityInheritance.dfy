/**
 * Priority inheritance bounds priority inversion, with the block step repaired, inheritance compiled
 * in, and no thread blocking on a mutex while it owns one (the source boosts one level only).
 */
module PriorityInheritance {
  import opened Prelude
  import opened KernelState
  import opened KernelInvariant
  import opened WaitQueues
  import opened LockOrder
  import opened Lockdep

  /** w waits on a PI-enabled mutex of t. */
  ghost predicate Donates(s: State, w: Tid, t: Tid)
    requires Sized(s)
  {
    exists m :: 0 <= m < |s.owner| && s.owner[m] == Some(t) && s.piOn[m] && w in s.waiters[m]
  }

  /** Every effective priority is what recompute_effective_priority would compute now. */
  ghost predicate UpToDate(cfg: Config, s: State, except: set<Tid>)
    requires Sized(s)
  {
    forall t :: 0 <= t < |s.ready| && t !in except ==> s.eff[t] == RecomputedPriority(cfg, s, t)
  }

  ghost predicate NoOwnerWaits(owned: seq<seq<Mid>>, waitingOn: seq<Option<Mid>>) {
    forall t :: 0 <= t < |waitingOn| && t < |owned| && waitingOn[t].Some? ==> owned[t] == []
  }

  // ---- What the recomputation loop computes ----

  lemma {:induction false} InheritedIsMax(s: State, ms: seq<Mid>, e: int)
    requires Sized(s) && Below(ms, |s.owner|) && e >= -1
    ensures forall m, w :: m in ms && s.piOn[m] && w in s.waiters[m] ==> s.eff[w] <= Inherited(s, ms, e)
    ensures Inherited(s, ms, e) == e
         || exists m, w :: m in ms && s.piOn[m] && w in s.waiters[m] && s.eff[w] == Inherited(s, ms, e)
    decreases |ms|
  {
    if ms != [] {
      var w := if s.piOn[ms[0]] then MaxWaiterPriority(s.eff, s.waiters[ms[0]]) else e;
      assert ms[0] in ms;
      InheritedIsMax(s, ms[1..], Max(e, w));
      assert forall m :: m in ms ==> m == ms[0] || m in ms[1..];
    }
  }

  ghost predicate SameDonors(s: State, r: State, m: Mid)
    requires Sized(s) && Sized(r) && |s.owner| == |r.owner| && |s.ready| == |r.ready| && m < |s.owner|
  {
    s.piOn[m] == r.piOn[m] &&
    (s.piOn[m] ==> s.waiters[m] == r.waiters[m] && forall w :: w in s.waiters[m] ==> s.eff[w] == r.eff[w])
  }

  lemma {:induction false} InheritedFrame(s: State, r: State, ms: seq<Mid>, e: int)
    requires Sized(s) && Sized(r) && Below(ms, |s.owner|) && |s.owner| == |r.owner| && |s.ready| == |r.ready|
    requires forall m :: m in ms ==> SameDonors(s, r, m)
    ensures Inherited(s, ms, e) == Inherited(r, ms, e)
    decreases |ms|
  {
    if ms != [] {
      assert ms[0] in ms;
      if s.piOn[ms[0]] { WaiterFrame(s.eff, r.eff, s.waiters[ms[0]]); }
      assert forall m :: m in ms[1..] ==> m in ms;
      var w := if s.piOn[ms[0]] then MaxWaiterPriority(s.eff, s.waiters[ms[0]]) else e;
      InheritedFrame(s, r, ms[1..], Max(e, w));
    }
  }

  lemma {:induction false} WaiterFrame(eff: seq<int>, eff': seq<int>, q: seq<Tid>)
    requires Below(q, |eff|) && |eff| == |eff'| && forall w :: w in q ==> eff[w] == eff'[w]
    ensures MaxWaiterPriority(eff, q) == MaxWaiterPriority(eff', q)
    decreases |q|
  {
    if q != [] {
      assert q[0] in q && forall w :: w in q[1..] ==> w in q;
      WaiterFrame(eff, eff', q[1..]);
    }
  }

  /** Nothing that t's recomputation reads differs between s and r. */
  ghost predicate SameInputs(s: State, r: State, t: Tid)
    requires Sized(s) && Sized(r) && |s.owner| == |r.owner| && |s.ready| == |r.ready| && t < |s.ready|
  {
    && s.base[t] == r.base[t] && s.owned[t] == r.owned[t]
    && (forall m :: m in s.owned[t] ==> SameDonors(s, r, m))
  }

  lemma SameInputsSame(cfg: Config, s: State, r: State, t: Tid)
    requires Sized(s) && Sized(r) && |s.owner| == |r.owner| && |s.ready| == |r.ready| && t < |s.ready| && SameInputs(s, r, t)
    ensures RecomputedPriority(cfg, s, t) == RecomputedPriority(cfg, r, t)
  {
    InheritedFrame(s, r, s.owned[t], s.base[t]);
  }

  lemma UpToDateFrame(cfg: Config, s: State, r: State, except: set<Tid>, more: set<Tid>)
    requires Sized(s) && Sized(r) && |s.owner| == |r.owner| && |s.ready| == |r.ready|
    requires UpToDate(cfg, s, except) && except <= more
    requires forall t :: 0 <= t < |s.ready| && t !in more ==> SameInputs(s, r, t) && s.eff[t] == r.eff[t]
    ensures UpToDate(cfg, r, more)
  {
    hide References, SameInputs, RecomputedPriority;
    forall t | 0 <= t < |r.ready| && t !in more ensures r.eff[t] == RecomputedPriority(cfg, r, t) {
      SameInputsSame(cfg, s, r, t);
    }
  }

  /** Recomputing a thread that is in no queue brings it, and disturbs nobody, up to date. */
  lemma RecomputeUpToDate(cfg: Config, s: State, t: Tid, except: set<Tid>)
    requires Sized(s) && t < |s.ready| && UpToDate(cfg, s, except)
    requires forall m :: 0 <= m < |s.owner| ==> t !in s.waiters[m]
    ensures UpToDate(cfg, Recompute(cfg, s, t), except - {t})
  {
    hide RecomputedPriority;
    var r := Recompute(cfg, s, t);
    forall u | 0 <= u < |s.ready| && u !in except - {t} ensures r.eff[u] == RecomputedPriority(cfg, r, u) {
      assert SameInputs(s, r, u);
      SameInputsSame(cfg, s, r, u);
    }
  }

  // ---- Steps ----

  /** An owner waits for nothing, so it is in no mutex queue. */
  lemma OwnerInNoQueue(s: State, t: Tid, m: Mid)
    requires Inv(s) && NoOwnerWaits(s.owned, s.waitingOn) && m < |s.owner| && s.owner[m] == Some(t)
    ensures t < |s.ready| && s.waitingOn[t].None? && forall x :: 0 <= x < |s.owner| ==> t !in s.waiters[x]
  {
    hide RunQueue, SemaphoreQueues, Ranges;
    assert m in s.owned[t];
  }

  lemma AcquireUpToDate(cfg: Config, s: State, m: Mid)
    requires Inv(s) && UpToDate(cfg, s, {}) && m < |s.owner| && s.owner[m].None?
    ensures UpToDate(cfg, Acquire(s, m), {})
  {
    hide RunQueue, SemaphoreQueues, MutexQueues, RecomputedPriority;
    var r := Acquire(s, m);
    UpToDateFrame(cfg, s, r, {}, {s.cur});
    FreeMutexDonatesNothing(cfg, s, r, m);
  }

  lemma FreeMutexDonatesNothing(cfg: Config, s: State, r: State, m: Mid)
    requires Inv(s) && m < |s.owner| && s.waiters[m] == [] && r == Acquire(s, m)
    ensures RecomputedPriority(cfg, r, s.cur) == RecomputedPriority(cfg, s, s.cur)
  {
    hide RunQueue, SemaphoreQueues, MutexQueues, Ownership;
    assert r.owned[s.cur][0] == m && r.owned[s.cur][1..] == s.owned[s.cur];
    InheritedFrame(s, r, s.owned[s.cur], s.base[s.cur]);
  }

  lemma BlockUpToDate(cfg: Config, s: State, m: Mid)
    requires cfg.repaired && Inv(s) && UpToDate(cfg, s, {}) && NoOwnerWaits(s.owned, s.waitingOn)
    requires Enabled(s, Lock(m)) && Blocks(s, Lock(m)) && s.owned[s.cur] == []
    ensures UpToDate(cfg, BlockOnMutex(cfg, s, m), {})
  {
    hide RunQueue, SemaphoreQueues, MutexQueues, RecomputedPriority, Ranges;
    var o := s.owner[m].value;
    var s1 := s.(waitingOn := s.waitingOn[s.cur := Some(m)], waiters := s.waiters[m := [s.cur] + s.waiters[m]]);
    OwnerInNoQueue(s, o, m);
    assert forall t :: 0 <= t < |s.ready| && t != o ==> m !in s.owned[t];
    var dirty := if s.piOn[m] then {o} else {};
    UpToDateFrame(cfg, s, s1, {}, dirty);
    if s.piOn[m] { RecomputeUpToDate(cfg, s1, o, dirty); }
    var s2 := ApplyPi(cfg, s1, m);
    assert dirty - {o} == {};
    var r := BlockOnMutex(cfg, s, m);
    assert r.waiters == s2.waiters && r.eff == s2.eff;
    UpToDateFrame(cfg, s2, r, {}, {});
  }

  lemma ReleaseUpToDate(cfg: Config, s: State, m: Mid)
    requires Inv(s) && UpToDate(cfg, s, {}) && m < |s.owner| && s.owner[m] == Some(s.cur) && s.waiters[m] == []
    ensures UpToDate(cfg, Recompute(cfg, Release(s, m), s.cur), {})
  {
    hide RunQueue, SemaphoreQueues, Ownership, RecomputedPriority, Ranges, Minus;
    var r := Release(s, m);
    UpToDateFrame(cfg, s, r, {}, {s.cur});
    RecomputeUpToDate(cfg, r, s.cur, {s.cur});
    assert {s.cur} - {s.cur} == {};
  }

  lemma HandOffUpToDate(cfg: Config, s: State, m: Mid, i: nat)
    requires cfg.pi && Inv(s) && UpToDate(cfg, s, {}) && NoOwnerWaits(s.owned, s.waitingOn)
    requires m < |s.owner| && s.owner[m] == Some(s.cur) && i < |s.waiters[m]|
    ensures UpToDate(cfg, Recompute(cfg, ApplyPi(cfg, HandOff(s, m, i), m), s.cur), {})
  {
    hide Structure, RecomputedPriority, Ranges, HandOff, ApplyPi, UpToDate, NoOwnerWaits;
    var h := HandOff(s, m, i);
    HandOffKeeps(s, m, i);
    NewOwnerUpToDate(cfg, s, m, i);
    ApplyPiKeeps(cfg, h, m);
    var p := ApplyPi(cfg, h, m);
    ReadyInNoQueue(p, s.cur);
    RecomputeUpToDate(cfg, p, s.cur, {s.cur});
    assert {s.cur} - {s.cur} == {};
  }

  lemma ReadyInNoQueue(s: State, t: Tid)
    requires Inv(s) && t < |s.ready| && s.ready[t]
    ensures forall m :: 0 <= m < |s.owner| ==> t !in s.waiters[m]
  {
  }

  /** A hand-over leaves only the old and the new owner to recompute. */
  lemma HandOffDirty(cfg: Config, s: State, m: Mid, i: nat)
    requires Inv(s) && UpToDate(cfg, s, {})
    requires m < |s.owner| && s.owner[m] == Some(s.cur) && i < |s.waiters[m]|
    ensures UpToDate(cfg, HandOff(s, m, i), {s.cur, s.waiters[m][i]})
  {
    hide RunQueue, SemaphoreQueues, MutexQueues, RecomputedPriority, Ranges, Minus;
    var h := HandOff(s, m, i);
    var n := s.waiters[m][i];
    assert forall t :: 0 <= t < |s.ready| && t != s.cur ==> m !in s.owned[t];
    UpToDateFrame(cfg, s, h, {}, {s.cur, n});
  }

  /** After mutex_apply_pi the new owner is up to date, PI-enabled mutex or not. */
  lemma NewOwnerUpToDate(cfg: Config, s: State, m: Mid, i: nat)
    requires cfg.pi && Inv(s) && UpToDate(cfg, s, {}) && NoOwnerWaits(s.owned, s.waitingOn)
    requires m < |s.owner| && s.owner[m] == Some(s.cur) && i < |s.waiters[m]|
    ensures UpToDate(cfg, ApplyPi(cfg, HandOff(s, m, i), m), {s.cur})
  {
    hide Structure, Ranges, HandOff, RecomputedPriority, NoOwnerWaits;
    var h := HandOff(s, m, i);
    var n := s.waiters[m][i];
    HandOffKeeps(s, m, i);
    HandOffDirty(cfg, s, m, i);
    HandOffNewOwner(cfg, s, m, i);
    if s.piOn[m] {
      ReadyInNoQueue(h, n);
      RecomputeUpToDate(cfg, h, n, {s.cur, n});
      assert {s.cur, n} - {n} == {s.cur};
    }
  }

  lemma HandOffNewOwner(cfg: Config, s: State, m: Mid, i: nat)
    requires cfg.pi && Inv(s) && NoOwnerWaits(s.owned, s.waitingOn)
    requires m < |s.owner| && s.owner[m] == Some(s.cur) && i < |s.waiters[m]|
    ensures var h := HandOff(s, m, i); var n := s.waiters[m][i];
      && n != s.cur && h.ready[n] && h.owner[m] == Some(n) && h.piOn == s.piOn && h.eff == s.eff
      && (!s.piOn[m] ==> RecomputedPriority(cfg, h, n) == RecomputedPriority(cfg, s, n))
  {
    hide RunQueue, SemaphoreQueues, Ranges, Ownership, Minus;
    var h := HandOff(s, m, i);
    var n := s.waiters[m][i];
    assert n in s.waiters[m] && s.waitingOn[n] == Some(m);
    assert s.owned[n] == [];
    assert h.owned[n] == [m] && [m][1..] == [];
    if !s.piOn[m] {
      assert Inherited(h, [m], h.base[n]) == Inherited(h, [m][1..], h.base[n]);
    }
  }

  lemma UnlockUpToDate(cfg: Config, s: State, m: Mid)
    requires cfg.pi && Inv(s) && UpToDate(cfg, s, {}) && NoOwnerWaits(s.owned, s.waitingOn)
    requires m < |s.owner| && s.owner[m] == Some(s.cur)
    ensures UpToDate(cfg, UnlockOwned(cfg, s, m), {})
  {
    hide Structure, Ranges, HandOff, RecomputedPriority, NoOwnerWaits, UpToDate, Release, ApplyPi, Recompute;
    if s.waiters[m] == [] {
      ReleaseUpToDate(cfg, s, m);
    } else {
      var i := PopIndex(s.eff, s.waiters[m]);
      HandOffUpToDate(cfg, s, m, i);
      HandOffKeeps(s, m, i);
      ApplyPiKeeps(cfg, HandOff(s, m, i), m);
      var q := Recompute(cfg, ApplyPi(cfg, HandOff(s, m, i), m), s.cur);
      RecomputeKeeps(cfg, ApplyPi(cfg, HandOff(s, m, i), m), s.cur);
      Rescheduled(cfg, q, RaiseNeed(q, s.waiters[m][i]));
    }
  }

  /** Changes of who runs, budgets and counts do not matter. */
  lemma Rescheduled(cfg: Config, s: State, r: State)
    requires Sized(s) && Sized(r) && UpToDate(cfg, s, {})
    requires r.waiters == s.waiters && r.owned == s.owned && r.owner == s.owner && r.eff == s.eff && r.base == s.base && r.piOn == s.piOn
    requires |r.ready| == |s.ready|
    ensures UpToDate(cfg, r, {})
  {
    hide References, RecomputedPriority;
    UpToDateFrame(cfg, s, r, {}, {});
  }

  lemma SetPiUpToDate(cfg: Config, s: State, m: Mid, on: bool)
    requires Inv(s) && UpToDate(cfg, s, {}) && NoOwnerWaits(s.owned, s.waitingOn) && m < |s.owner|
    ensures UpToDate(cfg, MutexSetPi(cfg, s, m, on), {})
  {
    hide RunQueue, MutexQueues, SemaphoreQueues, Ranges, RecomputedPriority, PreemptEnable;
    var s1 := s.(piOn := s.piOn[m := on]);
    var r := s1;
    if s.owner[m].Some? {
      var o := s.owner[m].value;
      OwnerInNoQueue(s, o, m);
      assert forall t :: 0 <= t < |s.ready| && t != o ==> m !in s.owned[t];
      UpToDateFrame(cfg, s, s1, {}, {o});
      RecomputeUpToDate(cfg, s1, o, {o});
      assert {o} - {o} == {};
      r := Recompute(cfg, s1, o);
    } else {
      UpToDateFrame(cfg, s, s1, {}, {});
    }
    PreemptEnableFields(cfg, r);
    Rescheduled(cfg, r, PreemptEnable(cfg, r));
  }

  lemma PreemptEnableFields(cfg: Config, s: State)
    requires Sized(s)
    ensures var r := PreemptEnable(cfg, s);
      r.eff == s.eff && r.base == s.base && r.piOn == s.piOn && SameStructure(s, r)
  {
    hide ReschedChoice;
  }

  lemma MutexStepUpToDate(cfg: Config, s: State, step: Step)
    requires cfg.repaired && cfg.pi && Inv(s) && UpToDate(cfg, s, {}) && NoOwnerWaits(s.owned, s.waitingOn)
    requires Enabled(s, step) && Allowed(NoNesting, s, step) && Next(cfg, s, step).Running?
    requires step.Lock? || step.TryLock? || step.Unlock?
    ensures UpToDate(cfg, Next(cfg, s, step).s, {})
  {
    hide Structure, Ranges, References, RecomputedPriority, NoOwnerWaits, UpToDate, PreemptEnable, UnlockOwned,
      BlockOnMutex,
      Acquire, LockdepWalk, PickNext, RingAfter;
    CurrentQueued(s);
    match step
    case Lock(m) =>
      var c := if s.owner[m] == Some(s.cur) then s else if s.owner[m].None? then Acquire(s, m) else BlockOnMutex(cfg, s, m);
      if s.owner[m] == Some(s.cur) {
      } else if s.owner[m].None? {
        AcquireUpToDate(cfg, s, m);
      } else {
        BlockUpToDate(cfg, s, m);
      }
      PreemptEnableFields(cfg, c);
      Rescheduled(cfg, c, PreemptEnable(cfg, c));
    case TryLock(m) =>
      var c := if s.owner[m].None? then Acquire(s, m) else s;
      if s.owner[m].None? { AcquireUpToDate(cfg, s, m); }
      PreemptEnableFields(cfg, c);
      Rescheduled(cfg, c, PreemptEnable(cfg, c));
    case Unlock(m) =>
      var c := if s.owner[m] == Some(s.cur) then UnlockOwned(cfg, s, m) else s;
      if s.owner[m] == Some(s.cur) { UnlockUpToDate(cfg, s, m); }
      PreemptEnableFields(cfg, c);
      Rescheduled(cfg, c, PreemptEnable(cfg, c));
  }

  lemma SemaphoreStepUpToDate(cfg: Config, s: State, step: Step)
    requires cfg.repaired && cfg.pi && Inv(s) && UpToDate(cfg, s, {}) && Enabled(s, step) && (step.Down? || step.Up?)
    ensures UpToDate(cfg, Next(cfg, s, step).s, {})
  {
    hide Structure, Ranges, References, RecomputedPriority, UpToDate, PreemptEnable, RingAfter, PickNext;
    CurrentQueued(s);
    match step
    case Down(k) =>
      var c := DownCore(cfg, s, k);
      PreemptEnableFields(cfg, c);
      Rescheduled(cfg, s, PreemptEnable(cfg, c));
    case Up(k) =>
      var c := UpCore(s, k);
      PreemptEnableFields(cfg, c);
      Rescheduled(cfg, s, PreemptEnable(cfg, c));
  }

  lemma StepUpToDate(cfg: Config, s: State, step: Step)
    requires cfg.repaired && cfg.pi && Inv(s) && UpToDate(cfg, s, {}) && NoOwnerWaits(s.owned, s.waitingOn)
    requires Enabled(s, step) && Allowed(NoNesting, s, step) && Next(cfg, s, step).Running?
    ensures UpToDate(cfg, Next(cfg, s, step).s, {})
  {
    hide Structure, Ranges, References, RecomputedPriority, NoOwnerWaits, UpToDate, PreemptEnable, UnlockOwned,
      BlockOnMutex,
      Acquire, LockdepWalk, PickNext, RingAfter, MutexLock, MutexTryLock, MutexUnlock, SemDown, SemUp;
    CurrentQueued(s);
    match step
    case Lock(m) => MutexStepUpToDate(cfg, s, step);
    case TryLock(m) => MutexStepUpToDate(cfg, s, step);
    case Unlock(m) => MutexStepUpToDate(cfg, s, step);
    case SetPi(m, on) => SetPiUpToDate(cfg, s, m, on);
    case Down(k) => SemaphoreStepUpToDate(cfg, s, step);
    case Up(k) => SemaphoreStepUpToDate(cfg, s, step);
    case Yield => Rescheduled(cfg, s, ThreadYield(cfg, s));
    case Tick =>
      var c := SchedOnTick(cfg, s);
      PreemptEnableFields(cfg, c);
      Rescheduled(cfg, s, PreemptEnable(cfg, c));
    case PreemptPair =>
      PreemptEnableFields(cfg, s);
      Rescheduled(cfg, s, PreemptEnable(cfg, s));
  }

  lemma UnlockNoOwnerWaits(s: State, m: Mid)
    requires Inv(s) && NoOwnerWaits(s.owned, s.waitingOn) && m < |s.owner|
    ensures var c := UnlockCore(s, m); NoOwnerWaits(c.owned, c.waitingOn)
  {
    hide RunQueue, SemaphoreQueues, Ranges, Ownership;
    CurrentQueued(s);
    if s.owner[m] == Some(s.cur) { UnlockOwners(s, m); }
  }

  lemma CoreNoOwnerWaits(cfg: Config, s: State, step: Step)
    requires Inv(s) && NoOwnerWaits(s.owned, s.waitingOn) && Enabled(s, step) && Allowed(NoNesting, s, step)
    ensures var c := Core(cfg, s, step); NoOwnerWaits(c.owned, c.waitingOn)
  {
    hide Structure, Ranges, References, RecomputedPriority, UnlockCore, Wake;
    CurrentQueued(s);
    if step.Unlock? { UnlockNoOwnerWaits(s, step.m); }
    if step.Up? { WakeOnly(s, step.k); }
  }

  lemma {:induction false} RunUpToDate(cfg: Config, s: State, steps: seq<Step>, r: State)
    requires cfg.repaired && cfg.pi && Inv(s) && UpToDate(cfg, s, {}) && NoOwnerWaits(s.owned, s.waitingOn)
    requires Runs(cfg, NoNesting, s, steps, r)
    ensures Inv(r) && UpToDate(cfg, r, {}) && NoOwnerWaits(r.owned, r.waitingOn)
    decreases |steps|
  {
    hide Structure, Ranges, References, UpToDate, NoOwnerWaits, Next, Core;
    if steps != [] {
      StepKeeps(cfg, s, steps[0]);
      StepIsCore(cfg, s, steps[0]);
      StepUpToDate(cfg, s, steps[0]);
      CoreNoOwnerWaits(cfg, s, steps[0]);
      RunUpToDate(cfg, Next(cfg, s, steps[0]).s, steps[1..], r);
    }
  }

  lemma InitUpToDate(cfg: Config, s: State)
    requires Init(s)
    ensures UpToDate(cfg, s, {}) && NoOwnerWaits(s.owned, s.waitingOn)
  {
  }

  // ---- Results ----

  /** t has the maximum of its base priority and the effective priorities of its donors. */
  ghost predicate IsMaximum(s: State, t: Tid)
    requires Sized(s) && t < |s.ready|
  {
    && s.base[t] <= s.eff[t]
    && (forall w :: 0 <= w < |s.ready| && Donates(s, w, t) ==> s.eff[w] <= s.eff[t])
    && (s.eff[t] == s.base[t] || exists w :: 0 <= w < |s.ready| && Donates(s, w, t) && s.eff[w] == s.eff[t])
  }

  lemma UpToDateIsMaximum(cfg: Config, s: State, t: Tid)
    requires cfg.pi && Inv(s) && UpToDate(cfg, s, {}) && t < |s.ready|
    ensures IsMaximum(s, t) && (s.owned[t] == [] ==> s.eff[t] == s.base[t])
  {
    hide RunQueue, MutexQueues, SemaphoreQueues;
    var e := Inherited(s, s.owned[t], s.base[t]);
    InheritedIsMax(s, s.owned[t], s.base[t]);
    if e != s.base[t] {
      var m, w :| m in s.owned[t] && s.piOn[m] && w in s.waiters[m] && s.eff[w] == e;
      assert Donates(s, w, t);
    }
    forall w | 0 <= w < |s.ready| && Donates(s, w, t) ensures s.eff[w] <= s.eff[t] {
      var m :| 0 <= m < |s.owner| && s.owner[m] == Some(t) && s.piOn[m] && w in s.waiters[m];
    }
  }

  /**
   * In every reachable state each effective priority is the maximum of the base priority and of the
   * waiters' priorities on the PI-enabled mutexes owned; a thread owning nothing is back at its base.
   */
  lemma EffectiveIsMaximum(cfg: Config, s0: State, steps: seq<Step>, s: State)
    requires cfg.repaired && cfg.pi && Init(s0) && Runs(cfg, NoNesting, s0, steps, s)
    ensures Inv(s) && UpToDate(cfg, s, {})
    ensures forall t :: 0 <= t < |s.ready| ==> IsMaximum(s, t) && (s.owned[t] == [] ==> s.eff[t] == s.base[t])
  {
    hide UpToDate, IsMaximum, Structure, Runs, Init, NoOwnerWaits;
    InitInv(s0);
    InitUpToDate(cfg, s0);
    RunUpToDate(cfg, s0, steps, s);
    forall t | 0 <= t < |s.ready| ensures IsMaximum(s, t) && (s.owned[t] == [] ==> s.eff[t] == s.base[t]) {
      UpToDateIsMaximum(cfg, s, t);
    }
  }

  /** Strict priority: no READY thread is above the running one. */
  ghost predicate Strict(s: State)
    requires Sized(s)
  {
    forall u :: 0 <= u < |s.ready| && s.ready[u] ==> s.eff[u] <= s.eff[s.cur]
  }

  /** Every pass through the reschedule tail restores strict priority. */
  lemma ReschedIsStrict(cfg: Config, s: State)
    requires cfg.prio && Sized(s) && Structure(s) && Ranges(s) && s.rq != []
    ensures Strict(Resched(cfg, s))
  {
    hide MutexQueues, SemaphoreQueues, Ownership;
    PickIsMaximal(s, s.need == NEED_ROTATE, s.need == NEED_ROTATE);
  }

  /** So does every timer tick taken with preemption enabled, whether or not it reschedules. */
  lemma TickIsStrict(cfg: Config, s: State)
    requires cfg.prio && Inv(s)
    ensures Strict(Next(cfg, s, Tick).s)
  {
    hide MutexQueues, SemaphoreQueues, Ownership, Resched;
    var r := SchedOnTick(cfg, s);
    TickKeeps(cfg, s);
    CurrentQueued(r);
    if r.need != NEED_NONE { ReschedIsStrict(cfg, r); }
  }
}
