/** What has happened to the mutex or semaphore, and to everybody else, when a call returns. */
module Outcomes {
  import opened Prelude
  import opened KernelState
  import opened KernelInvariant

  /** mutex_trylock answers true exactly when the caller owns m afterwards; it never blocks and disturbs nobody. */
  lemma TryLockExact(cfg: Config, s: State, m: Mid)
    requires Inv(s) && m < |s.owner|
    ensures var (r, ok) := MutexTryLock(cfg, s, m);
      && (ok <==> r.owner[m] == Some(s.cur))
      && (ok <==> s.owner[m].None? || s.owner[m] == Some(s.cur))
      && (ok ==> m in r.owned[s.cur] && r.owner == s.owner[m := Some(s.cur)])
      && (!ok || s.owner[m] == Some(s.cur) ==> SameStructure(s, r))
      && (s.owner[m].None? ==> r.owned == s.owned[s.cur := [m] + s.owned[s.cur]])
      && r.ready == s.ready && r.waitingOn == s.waitingOn && r.waiters == s.waiters && r.rq == s.rq
  {
    hide RunQueue, MutexQueues, SemaphoreQueues, Ranges, PreemptEnable, Core;
    var r := MutexTryLock(cfg, s, m).0;
    CurrentQueued(s);
    StepIsCore(cfg, s, TryLock(m));
    CoreTryLock(cfg, s, m);
    if s.owner[m].None? { assert r.owned[s.cur][0] == m; }
  }

  lemma CoreTryLock(cfg: Config, s: State, m: Mid)
    requires Sized(s) && m < |s.owner|
    ensures Enabled(s, TryLock(m)) && Core(cfg, s, TryLock(m)) == if s.owner[m].None? then Acquire(s, m) else s
  {
  }

  /** mutex_lock takes a free mutex, returns at once from an own one, and otherwise blocks the caller on it or halts. */
  lemma LockExact(cfg: Config, s: State, m: Mid)
    requires Inv(s) && Enabled(s, Lock(m))
    ensures MutexLock(cfg, s, m).Halted? ==> cfg.lockdep && Blocks(s, Lock(m))
    ensures MutexLock(cfg, s, m).Running? ==>
      var r := MutexLock(cfg, s, m).s;
      && (s.owner[m] == Some(s.cur) ==> SameStructure(s, r))
      && (s.owner[m].None? ==>
            && r.owner == s.owner[m := Some(s.cur)] && r.owned == s.owned[s.cur := [m] + s.owned[s.cur]]
            && r.ready == s.ready && r.waitingOn == s.waitingOn && r.waiters == s.waiters && r.rq == s.rq)
      && (Blocks(s, Lock(m)) ==>
            && r.owner == s.owner && r.owned == s.owned
            && r.ready == s.ready[s.cur := false] && r.rq == Minus(s.rq, s.cur)
            && r.waitingOn == s.waitingOn[s.cur := Some(m)]
            && r.waiters == s.waiters[m := if cfg.repaired then [s.cur] + s.waiters[m] else [s.cur]])
      && r.count == s.count && r.sleepers == s.sleepers
  {
    hide Structure, Ranges, PreemptEnable, LockdepWalk, RecomputedPriority;
    CurrentQueued(s);
    if MutexLock(cfg, s, m).Running? { StepIsCore(cfg, s, Lock(m)); }
  }

  /** mutex_unlock by a thread that does not own m changes nothing; by the owner, with nobody waiting, it frees m. */
  lemma UnlockExact(cfg: Config, s: State, m: Mid)
    requires Inv(s) && m < |s.owner|
    ensures var r := MutexUnlock(cfg, s, m);
      && (s.owner[m] != Some(s.cur) ==> SameStructure(s, r))
      && (s.owner[m] == Some(s.cur) && s.waiters[m] == [] ==>
            && r.owner == s.owner[m := None] && r.owned == s.owned[s.cur := Minus(s.owned[s.cur], m)]
            && r.ready == s.ready && r.waitingOn == s.waitingOn && r.waiters == s.waiters && r.rq == s.rq)
      && r.count == s.count && r.sleepers == s.sleepers
  {
    hide Structure, Ranges, PreemptEnable, UnlockOwned, Core, HandOff;
    StepIsCore(cfg, s, Unlock(m));
    CoreUnlock(cfg, s, m);
  }

  lemma CoreUnlock(cfg: Config, s: State, m: Mid)
    requires Sized(s) && m < |s.owner|
    ensures Enabled(s, Unlock(m)) && Core(cfg, s, Unlock(m)) == UnlockCore(s, m)
    ensures UnlockCore(s, m).count == s.count && UnlockCore(s, m).sleepers == s.sleepers
  {
  }

  /** A thread that is woken joins the tail of the run queue with a full budget. */
  ghost predicate Woken(s: State, r: State, n: Tid)
    requires Sized(s) && Sized(r) && n < |s.ready|
  {
    r.ready == s.ready[n := true] && r.rq == s.rq + [n] && n < |r.budget| && r.budget[n] == QUANTUM_TICKS
  }

  lemma HandOffWakes(s: State, m: Mid, i: nat)
    requires Inv(s) && m < |s.owner| && i < |s.waiters[m]|
    ensures var n := s.waiters[m][i]; n < |s.ready| && Woken(s, HandOff(s, m, i), n)
  {
    WaiterFacts(s, m, i);
    hide Structure, Ranges, Minus, Without;
  }

  /** The waiter a contended unlock hands the mutex to is woken so. */
  lemma UnlockWakes(cfg: Config, s: State, m: Mid)
    requires Inv(s) && m < |s.owner| && s.owner[m] == Some(s.cur) && s.waiters[m] != []
    ensures var n := s.waiters[m][PopIndex(s.eff, s.waiters[m])]; n < |s.ready| && Woken(s, MutexUnlock(cfg, s, m), n)
  {
    hide Structure, Ranges, PopIndex, HandOff, UnlockOwned, PreemptEnable, Next, Core, MutexUnlock;
    UnlockIsTail(cfg, s, m);
    HandOffWakes(s, m, PopIndex(s.eff, s.waiters[m]));
    UnlockBudget(cfg, s, m);
    UnlockOwnedKeeps(cfg, s, m);
    CurrentQueued(UnlockOwned(cfg, s, m));
    PreemptEnableKeeps(cfg, UnlockOwned(cfg, s, m));
  }

  lemma UnlockIsTail(cfg: Config, s: State, m: Mid)
    requires Sized(s) && m < |s.owner| && s.owner[m] == Some(s.cur)
    ensures MutexUnlock(cfg, s, m) == PreemptEnable(cfg, UnlockOwned(cfg, s, m))
  {
    hide UnlockOwned, PreemptEnable;
  }

  lemma UnlockBudget(cfg: Config, s: State, m: Mid)
    requires Inv(s) && m < |s.owner| && s.owner[m] == Some(s.cur) && s.waiters[m] != []
    ensures var r, h := UnlockOwned(cfg, s, m), HandOff(s, m, PopIndex(s.eff, s.waiters[m]));
      r.budget == h.budget && r.ready == h.ready && r.rq == h.rq
  {
    hide HandOff, RecomputedPriority, PopIndex, Structure, Ranges;
  }

  /** sem_down takes a unit, or blocks the caller at the head of the queue; either way it counts. */
  lemma DownExact(cfg: Config, s: State, k: Sid)
    requires Inv(s) && Enabled(s, Down(k))
    ensures var r := SemDown(cfg, s, k);
      && r.count == s.count[k := s.count[k] - 1]
      && r.owner == s.owner && r.owned == s.owned && r.waiters == s.waiters && r.waitingOn == s.waitingOn
      && (s.count[k] > 0 ==> r.ready == s.ready && r.rq == s.rq && r.sleepers == s.sleepers)
      && (s.count[k] <= 0 ==>
            && r.ready == s.ready[s.cur := false] && r.rq == Minus(s.rq, s.cur)
            && r.sleepers == s.sleepers[k := if cfg.repaired then [s.cur] + s.sleepers[k] else [s.cur]])
  {
    hide Structure, Ranges, PreemptEnable;
    CurrentQueued(s);
    StepIsCore(cfg, s, Down(k));
  }

  /** sem_up counts; if a unit was owed and somebody sleeps, it wakes the first sleeper of maximal priority. */
  lemma UpExact(cfg: Config, s: State, k: Sid) returns (a: seq<Tid>, n: Tid, b: seq<Tid>)
    requires Inv(s) && k < |s.count|
    ensures var r := SemUp(cfg, s, k);
      && r.count == s.count[k := s.count[k] + 1]
      && r.owner == s.owner && r.owned == s.owned && r.waiters == s.waiters && r.waitingOn == s.waitingOn
    ensures !Wakes(s, k) ==>
      var r := SemUp(cfg, s, k); r.ready == s.ready && r.rq == s.rq && r.sleepers == s.sleepers
    ensures Wakes(s, k) ==>
      var r := SemUp(cfg, s, k);
      && n < |s.ready| && s.sleepers[k] == a + [n] + b && First(s, a, n, b)
      && r.sleepers == s.sleepers[k := a + b] && Woken(s, r, n)
  {
    hide Structure, Ranges, References, PopIndex, SemUp, PreemptEnable, Wake, Woken, First;
    var w := UpCore(s, k);
    UpIsTail(cfg, s, k);
    UpCoreKeeps(s, k);
    CurrentQueued(w);
    PreemptEnableKeeps(cfg, w);
    a, n, b := [], 0, [];
    if Wakes(s, k) {
      a, n, b := Popped(s, k);
      WokenSame(s, w, SemUp(cfg, s, k), n);
    }
  }

  /** n is the first of a + [n] + b of maximal effective priority. */
  ghost predicate First(s: State, a: seq<Tid>, n: Tid, b: seq<Tid>)
    requires Sized(s) && n < |s.ready|
  {
    && Below(a, |s.ready|) && Below(b, |s.ready|)
    && (forall w :: w in a ==> s.eff[w] < s.eff[n]) && (forall w :: w in b ==> s.eff[w] <= s.eff[n])
  }

  lemma WokenSame(s: State, w: State, r: State, n: Tid)
    requires Sized(s) && Sized(w) && Sized(r) && n < |s.ready| && Woken(s, w, n)
    requires SameStructure(w, r) && r.budget == w.budget
    ensures Woken(s, r, n)
  {
  }

  lemma UpIsTail(cfg: Config, s: State, k: Sid)
    requires Sized(s) && k < |s.count|
    ensures SemUp(cfg, s, k) == PreemptEnable(cfg, UpCore(s, k))
  {
    hide PreemptEnable, Wake, PopIndex;
  }

  lemma UpCoreKeeps(s: State, k: Sid)
    requires Inv(s) && k < |s.count|
    ensures var w := UpCore(s, k);
      && Inv(w) && w.count == s.count[k := s.count[k] + 1]
      && w.owner == s.owner && w.owned == s.owned && w.waiters == s.waiters && w.waitingOn == s.waitingOn
    ensures !Wakes(s, k) ==> var w := UpCore(s, k); w.ready == s.ready && w.rq == s.rq && w.sleepers == s.sleepers
  {
    CountKeeps(s, k, s.count[k] + 1);
    hide Structure, Ranges, References, PopIndex;
    if Wakes(s, k) { WakeKeeps(Counted(s, k, 1), k, PopIndex(s.eff, s.sleepers[k])); }
  }

  lemma Popped(s: State, k: Sid) returns (a: seq<Tid>, n: Tid, b: seq<Tid>)
    requires Inv(s) && k < |s.count| && Wakes(s, k)
    ensures n < |s.ready| && s.sleepers[k] == a + [n] + b && First(s, a, n, b)
    ensures UpCore(s, k).sleepers == s.sleepers[k := a + b] && Woken(s, UpCore(s, k), n)
  {
    hide RunQueue, MutexQueues, Ownership, Ranges, First, Woken;
    var q := s.sleepers[k];
    var i := PopIndex(s.eff, q);
    a, n, b := q[..i], q[i], q[i + 1..];
    assert n in q && !s.ready[n] && q == a + [n] + b;
    hide Structure, PopIndex;
    IsFirst(s, q, i);
    WakeWakes(s, k, i);
  }

  lemma IsFirst(s: State, q: seq<Tid>, i: nat)
    requires Sized(s) && i < |q| && Below(q, |s.ready|)
    requires forall j :: 0 <= j < |q| ==> s.eff[q[j]] <= s.eff[q[i]]
    requires forall j :: 0 <= j < i ==> s.eff[q[j]] < s.eff[q[i]]
    ensures First(s, q[..i], q[i], q[i + 1..])
  {
  }

  lemma WakeWakes(s: State, k: Sid, i: nat)
    requires Sized(s) && k < |s.count| && i < |s.sleepers[k]| && s.sleepers[k][i] < |s.ready| && !s.ready[s.sleepers[k][i]]
    ensures var r := Wake(Counted(s, k, 1), k, i);
      Woken(s, r, s.sleepers[k][i]) && r.sleepers == s.sleepers[k := s.sleepers[k][..i] + s.sleepers[k][i + 1..]]
  {
  }

  /** What is done with need_resched when the reschedule tail runs. */
  lemma TailNeed(cfg: Config, s: State)
    requires Sized(s) && s.need != NEED_NONE
    ensures var r := PreemptEnable(cfg, s);
      && (r.cur == s.cur ==> r.need == NEED_NONE && r.inTail == s.inTail)
      && (r.cur != s.cur ==> r.inTail == s.inTail[s.cur := true] && r.need == if s.inTail[r.cur] then NEED_NONE else s.need)
  {
    hide ReschedChoice;
  }

  /** A yield marks nothing pending of its own; the thread resumed clears what it left in the tail. */
  lemma YieldNeed(cfg: Config, s: State)
    requires Sized(s)
    ensures var r := ThreadYield(cfg, s);
      && (r.cur == s.cur ==> r == s)
      && (r.cur != s.cur ==>
            r == s.(cur := r.cur, inTail := s.inTail[s.cur := false], need := if s.inTail[r.cur] then NEED_NONE else s.need))
  {
    hide PickNext;
  }

  // ---- A woken thread's quantum ----

  /** Where the step stands when its reschedule tail runs; a yield has none. */
  ghost function BeforeTail(cfg: Config, s: State, step: Step): (b: State)
    requires Sized(s) && Enabled(s, step)
    ensures Sized(b)
  {
    match step
    case Unlock(m) => if s.owner[m] == Some(s.cur) then UnlockOwned(cfg, s, m) else s
    case SetPi(m, on) =>
      var s1 := s.(piOn := s.piOn[m := on]);
      if s.owner[m].Some? then Recompute(cfg, s1, s.owner[m].value) else s1
    case Tick => SchedOnTick(cfg, s)
    case _ => Core(cfg, s, step)
  }

  lemma NextIsTail(cfg: Config, s: State, step: Step)
    requires Inv(s) && Enabled(s, step) && Next(cfg, s, step).Running? && !step.Yield?
    ensures Next(cfg, s, step).s == PreemptEnable(cfg, BeforeTail(cfg, s, step))
  {
    hide Structure, Ranges, References, PreemptEnable, UnlockOwned, Acquire, BlockOnMutex, LockdepWalk, Recompute,
      SchedOnTick, BlockOnSemaphore, Wake, PopIndex;
    CurrentQueued(s);
  }

  /** A tick spends the current budget, a wake-up renews the woken thread's; nothing else touches a budget. */
  ghost predicate BudgetsKept(s: State, b: State, tick: bool)
    requires Lengths(s) && Lengths(b) && |b.ready| == |s.ready|
  {
    && b.cur == s.cur && b.inTail == s.inTail
    && (forall t :: 0 <= t < |s.ready| && s.ready[t] && (tick ==> t != s.cur) ==> b.budget[t] == s.budget[t])
    && (forall t :: 0 <= t < |s.ready| && !s.ready[t] && b.ready[t] ==> b.budget[t] == QUANTUM_TICKS)
    && (forall t :: 0 <= t < |s.ready| && t != s.cur && s.ready[t] ==> b.ready[t])
  }

  lemma BudgetsBeforeTail(cfg: Config, s: State, step: Step)
    requires Inv(s) && Enabled(s, step)
    ensures var b := BeforeTail(cfg, s, step); |b.ready| == |s.ready| && BudgetsKept(s, b, step.Tick?)
  {
    hide Structure, Ranges, References, RecomputedPriority, UnlockOwned, UpCore, LockCore, DownCore, Acquire, MaxReady;
    match step
    case Lock(m) => BudgetsLock(cfg, s, m);
    case TryLock(m) => BudgetsAcquire(s, m);
    case Unlock(m) => if s.owner[m] == Some(s.cur) { BudgetsUnlock(cfg, s, m); }
    case Down(k) => BudgetsDown(cfg, s, k);
    case Up(k) => BudgetsUp(s, k);
    case _ =>
  }

  lemma BudgetsAcquire(s: State, m: Mid)
    requires Sized(s) && m < |s.owner|
    ensures BudgetsKept(s, Acquire(s, m), false) && Acquire(s, m).ready == s.ready
  {
  }

  lemma BudgetsLock(cfg: Config, s: State, m: Mid)
    requires Sized(s) && m < |s.owner|
    ensures var b := LockCore(cfg, s, m); |b.ready| == |s.ready| && BudgetsKept(s, b, false)
  {
    hide References, RecomputedPriority, Minus, Acquire;
    BudgetsAcquire(s, m);
  }

  lemma BudgetsDown(cfg: Config, s: State, k: Sid)
    requires Sized(s) && k < |s.count|
    ensures var b := DownCore(cfg, s, k); |b.ready| == |s.ready| && BudgetsKept(s, b, false)
  {
    hide References, Minus;
  }

  lemma BudgetsUp(s: State, k: Sid)
    requires Sized(s) && k < |s.count|
    ensures var b := UpCore(s, k); |b.ready| == |s.ready| && BudgetsKept(s, b, false)
  {
    hide References, PopIndex, Without;
  }

  lemma BudgetsUnlock(cfg: Config, s: State, m: Mid)
    requires Sized(s) && m < |s.owner|
    ensures var b := UnlockOwned(cfg, s, m); |b.ready| == |s.ready| && BudgetsKept(s, b, false)
  {
    hide RecomputedPriority, PopIndex, Pass, MakeRunnable, Release;
    if s.waiters[m] != [] {
      var i := PopIndex(s.eff, s.waiters[m]);
      BudgetsPass(s, m, i);
      BudgetsWake(Pass(s, m, i), s.waiters[m][i]);
    } else {
      BudgetsRelease(s, m);
    }
  }

  lemma BudgetsRelease(s: State, m: Mid)
    requires Sized(s) && m < |s.owner|
    ensures var b := Release(s, m); |b.ready| == |s.ready| && BudgetsKept(s, b, false)
  {
  }

  lemma BudgetsPass(s: State, m: Mid, i: nat)
    requires Sized(s) && m < |s.owner| && i < |s.waiters[m]|
    ensures var b := Pass(s, m, i); b.ready == s.ready && b.budget == s.budget && b.cur == s.cur && b.inTail == s.inTail
    ensures s.waiters[m][i] < |s.ready|
  {
    assert s.waiters[m][i] in s.waiters[m];
  }

  lemma BudgetsWake(s: State, n: Tid)
    requires Sized(s) && n < |s.ready|
    ensures var b := MakeRunnable(s, n); |b.ready| == |s.ready| && BudgetsKept(s, b, false)
  {
  }

  /** Whoever sleeps left through the reschedule tail. */
  ghost predicate SleptInTail(s: State)
    requires Sized(s)
  {
    forall t :: 0 <= t < |s.ready| && !s.ready[t] ==> s.inTail[t]
  }

  /** t has a full budget, and no reschedule is pending when it starts on it. */
  ghost predicate Rested(s: State, t: Tid)
    requires Sized(s) && t < |s.ready|
  {
    s.ready[t] && s.budget[t] == QUANTUM_TICKS && if s.cur == t then s.need == NEED_NONE else s.inTail[t]
  }

  lemma SleptStep(cfg: Config, s: State, step: Step)
    requires Inv(s) && SleptInTail(s) && Enabled(s, step) && Next(cfg, s, step).Running?
    ensures var r := Next(cfg, s, step).s; Inv(r) && SleptInTail(r) && |r.ready| == |s.ready|
    ensures var r := Next(cfg, s, step).s;
      forall t :: 0 <= t < |s.ready| && (if s.ready[t] then t != s.cur && Rested(s, t) else r.ready[t]) ==> Rested(r, t)
  {
    hide Structure, Ranges, References, Next, BeforeTail, PreemptEnable, ThreadYield;
    StepKeeps(cfg, s, step);
    if step.Yield? {
      YieldNeed(cfg, s);
      YieldKeeps(cfg, s);
      YieldIs(cfg, s);
    } else {
      var b := BeforeTail(cfg, s, step);
      NextIsTail(cfg, s, step);
      BudgetsBeforeTail(cfg, s, step);
      TailRests(cfg, s, b, step.Tick?);
    }
  }

  lemma YieldIs(cfg: Config, s: State)
    requires Sized(s)
    ensures Next(cfg, s, Yield) == Running(ThreadYield(cfg, s))
  {
    hide ThreadYield;
  }

  lemma TailRests(cfg: Config, s: State, b: State, tick: bool)
    requires Inv(s) && SleptInTail(s) && Sized(b) && |b.ready| == |s.ready| && BudgetsKept(s, b, tick)
    requires Inv(PreemptEnable(cfg, b))
    ensures var r := PreemptEnable(cfg, b);
      && SleptInTail(r) && |r.ready| == |s.ready|
      && forall t :: 0 <= t < |s.ready| && (if s.ready[t] then t != s.cur && Rested(s, t) else r.ready[t]) ==> Rested(r, t)
  {
    hide Structure, Ranges, References, ReschedChoice;
  }

  lemma {:induction false} RunSlept(cfg: Config, d: Discipline, s: State, steps: seq<Step>, r: State)
    requires Inv(s) && SleptInTail(s) && Runs(cfg, d, s, steps, r)
    ensures Inv(r) && SleptInTail(r)
    decreases |steps|
  {
    hide Structure, Ranges, References, Next;
    if steps != [] {
      SleptStep(cfg, s, steps[0]);
      RunSlept(cfg, d, Next(cfg, s, steps[0]).s, steps[1..], r);
    }
  }

  /** `steps` run from s to r, where t gets the processor for the first time. */
  ghost predicate RunsUntil(cfg: Config, s: State, steps: seq<Step>, t: Tid, r: State)
    requires Sized(s)
    decreases |steps|
  {
    if s.cur == t then steps == [] && s == r
    else
      && steps != [] && Enabled(s, steps[0]) && Next(cfg, s, steps[0]).Running?
      && RunsUntil(cfg, Next(cfg, s, steps[0]).s, steps[1..], t, r)
  }

  lemma {:induction false} RestedUntil(cfg: Config, s: State, steps: seq<Step>, t: Tid, r: State)
    requires Inv(s) && SleptInTail(s) && t < |s.ready| && Rested(s, t) && RunsUntil(cfg, s, steps, t, r)
    ensures Inv(r) && r.cur == t && r.budget[t] == QUANTUM_TICKS && r.need == NEED_NONE
    decreases |steps|
  {
    hide Structure, Ranges, References, Next, SleptInTail;
    if s.cur != t {
      SleptStep(cfg, s, steps[0]);
      RestedUntil(cfg, Next(cfg, s, steps[0]).s, steps[1..], t, r);
    }
  }

  /**
   * A thread that is woken, in any reachable state, has all five ticks of its quantum and no reschedule pending
   * when it next gets the processor, whatever runs before it.
   */
  lemma WokenGetsQuantum(cfg: Config, d: Discipline, s0: State, a: seq<Step>, s: State, step: Step, t: Tid,
                         steps: seq<Step>, r: State)
    requires Init(s0) && Runs(cfg, d, s0, a, s)
    requires Sized(s) && Enabled(s, step) && Next(cfg, s, step).Running? && t < |s.ready| && !s.ready[t]
    requires var w := Next(cfg, s, step).s; t < |w.ready| && w.ready[t] && RunsUntil(cfg, w, steps, t, r)
    ensures Inv(r) && r.cur == t && r.budget[t] == QUANTUM_TICKS && r.need == NEED_NONE
  {
    hide Structure, Ranges, Next, Runs, RunsUntil, Enabled;
    InitInv(s0);
    RunSlept(cfg, d, s0, a, s);
    SleptStep(cfg, s, step);
    RestedUntil(cfg, Next(cfg, s, step).s, steps, t, r);
  }

  // ---- Without inheritance ----

  lemma BeforeTailPlain(cfg: Config, s: State, step: Step)
    requires !cfg.pi && Inv(s) && Enabled(s, step) && s.eff == s.base
    ensures var b := BeforeTail(cfg, s, step); b.eff == s.base && b.base == s.base
  {
    hide Structure, UnlockOwned, RecomputedPriority, UpCore, LockCore, DownCore, MaxReady;
    PlainRecompute(cfg, s);
    match step
    case Lock(m) => PlainLock(cfg, s, m);
    case Unlock(m) => if s.owner[m] == Some(s.cur) { PlainUnlock(cfg, s, m); }
    case SetPi(m, on) => PlainRecompute(cfg, s.(piOn := s.piOn[m := on]));
    case Down(k) => PlainDown(cfg, s, k);
    case Up(k) => PlainUp(s, k);
    case _ =>
  }

  ghost predicate Plain(s: State)
    requires Lengths(s)
  {
    s.eff == s.base && forall t :: 0 <= t < |s.ready| ==> 0 <= s.base[t] <= MAX_PRIORITY
  }

  lemma PlainRecompute(cfg: Config, s: State)
    requires !cfg.pi && Sized(s) && Plain(s)
    ensures forall t :: 0 <= t < |s.ready| ==> RecomputedPriority(cfg, s, t) == s.eff[t] && Recompute(cfg, s, t) == s
  {
    forall t | 0 <= t < |s.ready| ensures RecomputedPriority(cfg, s, t) == s.eff[t] && Recompute(cfg, s, t) == s {
      assert s.eff[t := s.eff[t]] == s.eff;
    }
  }

  lemma PlainLock(cfg: Config, s: State, m: Mid)
    requires !cfg.pi && Sized(s) && Plain(s) && m < |s.owner|
    ensures var b := LockCore(cfg, s, m); b.eff == s.base && b.base == s.base
  {
    hide RecomputedPriority, Minus;
    var s1 := s.(waitingOn := s.waitingOn[s.cur := Some(m)], waiters := s.waiters[m := [s.cur] + s.waiters[m]]);
    PlainRecompute(cfg, s1);
  }

  lemma PlainDown(cfg: Config, s: State, k: Sid)
    requires Sized(s) && k < |s.count|
    ensures var b := DownCore(cfg, s, k); b.eff == s.eff && b.base == s.base
  {
    hide References, Minus;
  }

  lemma PlainUp(s: State, k: Sid)
    requires Sized(s) && k < |s.count|
    ensures var b := UpCore(s, k); b.eff == s.eff && b.base == s.base
  {
    hide References, PopIndex, Without;
  }

  lemma PlainUnlock(cfg: Config, s: State, m: Mid)
    requires !cfg.pi && Sized(s) && Plain(s) && m < |s.owner|
    ensures var b := UnlockOwned(cfg, s, m); b.eff == s.base && b.base == s.base
  {
    hide RecomputedPriority, PopIndex, HandOff, Release;
    if s.waiters[m] != [] {
      var h := HandOff(s, m, PopIndex(s.eff, s.waiters[m]));
      PlainHandOff(s, m, PopIndex(s.eff, s.waiters[m]));
      PlainRecompute(cfg, h);
    } else {
      PlainRelease(s, m);
      PlainRecompute(cfg, Release(s, m));
    }
  }

  lemma PlainRelease(s: State, m: Mid)
    requires Sized(s) && m < |s.owner|
    ensures var b := Release(s, m); b.eff == s.eff && b.base == s.base && |b.ready| == |s.ready| && b.cur == s.cur
  {
  }

  lemma PlainHandOff(s: State, m: Mid, i: nat)
    requires Sized(s) && m < |s.owner| && i < |s.waiters[m]|
    ensures s.waiters[m][i] < |s.ready|
    ensures var b := HandOff(s, m, i);
      b.eff == s.eff && b.base == s.base && |b.ready| == |s.ready| && b.cur == s.cur && |b.owner| == |s.owner|
  {
    hide Release, Without;
    assert s.waiters[m][i] in s.waiters[m];
  }

  /** Without inheritance compiled in every thread runs at its base priority, which nothing changes. */
  lemma {:induction false} BaseWithoutInheritance(cfg: Config, d: Discipline, s: State, steps: seq<Step>, r: State)
    requires !cfg.pi && Inv(s) && s.eff == s.base && Runs(cfg, d, s, steps, r)
    ensures Inv(r) && r.eff == s.base && r.base == s.base
    decreases |steps|
  {
    hide Structure, Ranges, References, Next, BeforeTail, PreemptEnable, ThreadYield;
    if steps != [] {
      var s1 := Next(cfg, s, steps[0]).s;
      StepKeeps(cfg, s, steps[0]);
      if steps[0].Yield? {
        YieldIs(cfg, s);
        YieldNeed(cfg, s);
      } else {
        BeforeTailPlain(cfg, s, steps[0]);
        NextIsTail(cfg, s, steps[0]);
        TailPriorities(cfg, BeforeTail(cfg, s, steps[0]));
      }
      BaseWithoutInheritance(cfg, d, s1, steps[1..], r);
    }
  }

  lemma TailPriorities(cfg: Config, s: State)
    requires Sized(s)
    ensures PreemptEnable(cfg, s).eff == s.eff && PreemptEnable(cfg, s).base == s.base
  {
    hide ReschedChoice;
  }
}
