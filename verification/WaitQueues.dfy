/** Who is queued where: nobody is lost once the block step is repaired; exactly who is lost as written. */
module WaitQueues {
  import opened Prelude
  import opened KernelState
  import opened KernelInvariant

  ghost predicate Asleep(sleepers: seq<seq<Tid>>, t: Tid) {
    exists k :: 0 <= k < |sleepers| && t in sleepers[k]
  }

  /** Every BLOCKED thread sits in the queue of what it waits for. */
  ghost predicate NobodyLost(s: State)
    requires Sized(s)
  {
    && (forall t :: 0 <= t < |s.ready| && !s.ready[t] && s.waitingOn[t].Some? ==> t in s.waiters[s.waitingOn[t].value])
    && (forall t :: 0 <= t < |s.ready| && !s.ready[t] && s.waitingOn[t].None? ==> Asleep(s.sleepers, t))
  }

  /** A negative count is the number of sleepers. */
  ghost predicate CountsSleepers(s: State)
    requires Sized(s)
  {
    forall k :: 0 <= k < |s.count| ==> |s.sleepers[k]| == Max(0, -s.count[k])
  }

  /** BLOCKED and in no queue: no unlock and no up can ever reach the thread. */
  ghost predicate Lost(s: State, t: Tid)
    requires Sized(s)
  {
    && t < |s.ready| && !s.ready[t] && !Asleep(s.sleepers, t)
    && (forall m :: 0 <= m < |s.owner| ==> t !in s.waiters[m])
  }

  ghost predicate AtMostOne(s: State)
    requires Sized(s)
  {
    && (forall m :: 0 <= m < |s.owner| ==> |s.waiters[m]| <= 1)
    && (forall k :: 0 <= k < |s.count| ==> |s.sleepers[k]| <= 1)
  }

  // ---- Effect of each step on the queues ----

  /** What one step does to the four facts above. */
  ghost predicate Progress(cfg: Config, s: State, r: State)
    requires Sized(s) && Sized(r)
  {
    && (cfg.repaired && NobodyLost(s) ==> NobodyLost(r))
    && (cfg.repaired && CountsSleepers(s) ==> CountsSleepers(r))
    && (!cfg.repaired && AtMostOne(s) ==> AtMostOne(r))
    && (forall t :: Lost(s, t) ==> Lost(r, t))
  }

  lemma BlockOnMutexProgress(cfg: Config, s: State, m: Mid)
    requires Inv(s) && Enabled(s, Lock(m)) && Blocks(s, Lock(m))
    ensures Progress(cfg, s, BlockOnMutex(cfg, s, m))
  {
    hide RunQueue, SemaphoreQueues, Ownership, Ranges;
    var r := BlockOnMutex(cfg, s, m);
    var q := AfterBlock(cfg, s.cur, s.waiters[m]);
    assert r.waiters == s.waiters[m := q] && r.sleepers == s.sleepers && r.count == s.count;
    assert q[0] == s.cur;
    if cfg.repaired { assert q[1..] == s.waiters[m]; }
    assert forall t :: t in q ==> t == s.cur || t in s.waiters[m];
  }

  lemma SleepersProgress(sleepers: seq<seq<Tid>>, k: Sid, q: seq<Tid>)
    requires k < |sleepers|
    ensures forall t :: Asleep(sleepers[k := q], t) ==> Asleep(sleepers, t) || t in q
    ensures forall t :: Asleep(sleepers, t) && (t in sleepers[k] ==> t in q) ==> Asleep(sleepers[k := q], t)
    ensures forall t :: t in q ==> Asleep(sleepers[k := q], t)
    ensures forall t :: t in sleepers[k] ==> Asleep(sleepers, t)
  {
    var r := sleepers[k := q];
    forall t | Asleep(sleepers, t) && (t in sleepers[k] ==> t in q) ensures Asleep(r, t) {
      var j :| 0 <= j < |sleepers| && t in sleepers[j];
      assert t in r[j];
    }
    assert r[k] == q;
  }

  /** The current thread goes to sleep on k, and k counts it. */
  lemma SleptProgress(cfg: Config, s: State, r: State, k: Sid)
    requires Inv(s) && Sized(r) && k < |s.count| && s.count[k] <= 0 && s.waitingOn[s.cur].None?
    requires r.ready == s.ready[s.cur := false] && r.waitingOn == s.waitingOn
    requires r.owner == s.owner && r.waiters == s.waiters && r.count == s.count[k := s.count[k] - 1]
    requires r.sleepers == s.sleepers[k := AfterBlock(cfg, s.cur, s.sleepers[k])]
    ensures Progress(cfg, s, r)
  {
    hide RunQueue, SemaphoreQueues, Ownership, Ranges, Asleep;
    var q := AfterBlock(cfg, s.cur, s.sleepers[k]);
    assert q[0] == s.cur;
    if cfg.repaired {
      assert q[1..] == s.sleepers[k];
      assert forall t :: t in s.sleepers[k] ==> t in q;
    }
    assert forall t :: t in q ==> t == s.cur || t in s.sleepers[k];
    SleepersProgress(s.sleepers, k, q);
    if cfg.repaired && NobodyLost(s) {
      forall t | 0 <= t < |r.ready| && !r.ready[t] && r.waitingOn[t].None? ensures Asleep(r.sleepers, t) {
        assert t != s.cur ==> Asleep(s.sleepers, t);
        assert s.cur in q;
      }
    }
  }

  lemma DownProgress(cfg: Config, s: State, k: Sid)
    requires Inv(s) && Enabled(s, Down(k))
    ensures Progress(cfg, s, DownCore(cfg, s, k))
  {
    CurrentQueued(s);
    if s.count[k] <= 0 {
      hide Structure, Ranges, Progress;
      SleptProgress(cfg, s, DownCore(cfg, s, k), k);
    } else {
      hide Structure, Ranges;
    }
  }

  /** Waiter number i of mutex m is woken and owns it. */
  lemma HandedProgress(cfg: Config, s: State, r: State, m: Mid, i: nat)
    requires Inv(s) && Sized(r) && m < |s.owner| && i < |s.waiters[m]|
    requires s.waiters[m][i] < |s.ready| && |r.owner| == |s.owner| && r.count == s.count && r.sleepers == s.sleepers
    requires var n := s.waiters[m][i]; r.ready == s.ready[n := true] && r.waitingOn == s.waitingOn[n := None]
    requires r.waiters == s.waiters[m := Without(s.waiters[m], i)]
    ensures Progress(cfg, s, r)
  {
    hide RunQueue, SemaphoreQueues, Ownership, Ranges, Asleep;
    assert s.waiters[m][i] in s.waiters[m];
    WithoutKeepsOthers(s.waiters[m], i);
  }

  lemma UnlockProgress(cfg: Config, s: State, m: Mid)
    requires Inv(s) && m < |s.owner|
    ensures Progress(cfg, s, UnlockCore(s, m))
  {
    if s.owner[m] == Some(s.cur) {
      if s.waiters[m] == [] {
        ReleaseProgress(cfg, s, m);
      } else {
        var i := PopIndex(s.eff, s.waiters[m]);
        hide Structure, Ranges, Progress;
        WaiterFacts(s, m, i);
        HandedProgress(cfg, s, UnlockCore(s, m), m, i);
      }
    }
  }

  lemma ReleaseProgress(cfg: Config, s: State, m: Mid)
    requires Inv(s) && m < |s.owner|
    ensures Progress(cfg, s, Release(s, m))
  {
    hide Structure, Ranges;
  }

  /** Sleeper number i of semaphore k is woken and counted. */
  lemma WokenProgress(cfg: Config, s: State, r: State, k: Sid, i: nat)
    requires Inv(s) && Sized(r) && k < |s.count| && s.count[k] < 0 && i < |s.sleepers[k]|
    requires r.ready == s.ready[s.sleepers[k][i] := true] && r.waitingOn == s.waitingOn
    requires r.owner == s.owner && r.waiters == s.waiters && r.count == s.count[k := s.count[k] + 1]
    requires r.sleepers == s.sleepers[k := Without(s.sleepers[k], i)]
    ensures Progress(cfg, s, r)
  {
    hide RunQueue, MutexQueues, Ownership, Ranges, Asleep;
    var q := Without(s.sleepers[k], i);
    assert s.sleepers[k][i] in s.sleepers[k];
    WithoutKeepsOthers(s.sleepers[k], i);
    SleepersProgress(s.sleepers, k, q);
  }

  lemma UpProgress(cfg: Config, s: State, k: Sid)
    requires Inv(s) && k < |s.count|
    ensures Progress(cfg, s, UpCore(s, k))
  {
    if Wakes(s, k) {
      var i := PopIndex(s.eff, s.sleepers[k]);
      hide Structure, Ranges, Progress;
      assert s.sleepers[k][i] in s.sleepers[k] && !s.ready[s.sleepers[k][i]] by { SleeperBlocked(s, k, i); }
      WokenProgress(cfg, s, UpCore(s, k), k, i);
    }
  }

  lemma SleeperBlocked(s: State, k: Sid, i: nat)
    requires Inv(s) && k < |s.count| && i < |s.sleepers[k]|
    ensures s.sleepers[k][i] < |s.ready| && !s.ready[s.sleepers[k][i]]
  {
    assert s.sleepers[k][i] in s.sleepers[k];
  }

  lemma StepProgress(cfg: Config, s: State, step: Step)
    requires Inv(s) && Enabled(s, step) && Next(cfg, s, step).Running?
    ensures Progress(cfg, s, Next(cfg, s, step).s)
  {
    var c := Core(cfg, s, step);
    assert Progress(cfg, s, c) by {
      hide Structure, Ranges, References, NobodyLost, CountsSleepers, Lost, AtMostOne, BlockOnMutex, UnlockCore,
        UpCore, DownCore;
      CurrentQueued(s);
      match step
      case Lock(m) =>
        if Blocks(s, step) { BlockOnMutexProgress(cfg, s, m); } else { AcquireProgress(cfg, s, m); }
      case TryLock(m) => AcquireProgress(cfg, s, m);
      case Unlock(m) => UnlockProgress(cfg, s, m);
      case Down(k) => DownProgress(cfg, s, k);
      case Up(k) => UpProgress(cfg, s, k);
      case _ =>
    }
    StepIsCore(cfg, s, step);
    SameProgress(c, Next(cfg, s, step).s);
  }

  lemma AcquireProgress(cfg: Config, s: State, m: Mid)
    requires Inv(s) && m < |s.owner|
    ensures Progress(cfg, s, Acquire(s, m))
  {
    CurrentQueued(s);
  }

  lemma SameProgress(s: State, r: State)
    requires Sized(s) && Sized(r) && SameStructure(s, r)
    ensures NobodyLost(s) == NobodyLost(r) && CountsSleepers(s) == CountsSleepers(r)
    ensures AtMostOne(s) == AtMostOne(r) && forall t :: Lost(s, t) == Lost(r, t)
  {
  }

  lemma {:induction false} RunProgress(cfg: Config, d: Discipline, s: State, steps: seq<Step>, r: State)
    requires Inv(s) && Runs(cfg, d, s, steps, r)
    ensures Inv(r) && Progress(cfg, s, r)
    decreases |steps|
  {
    if steps != [] {
      var s1 := Next(cfg, s, steps[0]).s;
      StepKeeps(cfg, s, steps[0]);
      StepProgress(cfg, s, steps[0]);
      RunProgress(cfg, d, s1, steps[1..], r);
    }
  }

  // ---- With the block step repaired ----

  /**
   * In every reachable state a thread is BLOCKED waiting on m exactly when it is in the queue of m,
   * once; every other BLOCKED thread sleeps on a semaphore; a mutex with a waiter has an owner; and
   * the queue of a semaphore is as long as its count is negative.
   */
  lemma NoLostWaiter(cfg: Config, d: Discipline, s0: State, steps: seq<Step>, s: State)
    requires cfg.repaired && Init(s0) && Runs(cfg, d, s0, steps, s)
    ensures Inv(s)
    ensures forall t, m :: 0 <= t < |s.ready| && 0 <= m < |s.owner| ==>
      (!s.ready[t] && s.waitingOn[t] == Some(m) <==> t in s.waiters[m])
    ensures forall m :: 0 <= m < |s.owner| ==> Distinct(s.waiters[m])
    ensures forall t :: 0 <= t < |s.ready| && !s.ready[t] && s.waitingOn[t].None? ==> Asleep(s.sleepers, t)
    ensures forall t :: 0 <= t < |s.ready| && s.waitingOn[t].Some? ==> s.owner[s.waitingOn[t].value].Some?
    ensures forall k :: 0 <= k < |s.count| ==> |s.sleepers[k]| == Max(0, -s.count[k])
  {
    hide RunQueue, SemaphoreQueues, MutexQueues, Ownership, Ranges, References, Init, Runs, Lost, AtMostOne,
      NobodyLost, CountsSleepers;
    InitInv(s0);
    InitQueues(s0);
    RunProgress(cfg, d, s0, steps, s);
    forall t, m | 0 <= t < |s.ready| && 0 <= m < |s.owner|
      ensures !s.ready[t] && s.waitingOn[t] == Some(m) <==> t in s.waiters[m]
    {
      QueuedIffWaiting(s, t, m);
    }
    forall t | 0 <= t < |s.ready| && s.waitingOn[t].Some?
      ensures s.waitingOn[t].value < |s.owner| && s.owner[s.waitingOn[t].value].Some?
    {
      AwaitedIsOwned(s, t);
    }
    QueuesOnce(s);
  }

  lemma QueuedIffWaiting(s: State, t: Tid, m: Mid)
    requires Inv(s) && NobodyLost(s) && t < |s.ready| && m < |s.owner|
    ensures !s.ready[t] && s.waitingOn[t] == Some(m) <==> t in s.waiters[m]
  {
    hide RunQueue, SemaphoreQueues, Ownership, Ranges;
  }

  lemma AwaitedIsOwned(s: State, t: Tid)
    requires Inv(s) && NobodyLost(s) && t < |s.ready| && s.waitingOn[t].Some?
    ensures s.waitingOn[t].value < |s.owner| && s.owner[s.waitingOn[t].value].Some?
  {
    hide RunQueue, SemaphoreQueues, Ranges;
    var m := s.waitingOn[t].value;
    assert t in s.waiters[m] && s.waiters[m] != [];
  }

  lemma QueuesOnce(s: State)
    requires Inv(s) && NobodyLost(s) && CountsSleepers(s)
    ensures forall m :: 0 <= m < |s.owner| ==> Distinct(s.waiters[m])
    ensures forall t :: 0 <= t < |s.ready| && !s.ready[t] && s.waitingOn[t].None? ==> Asleep(s.sleepers, t)
    ensures forall k :: 0 <= k < |s.count| ==> |s.sleepers[k]| == Max(0, -s.count[k])
  {
    hide RunQueue, SemaphoreQueues, Ownership, Ranges;
  }

  lemma InitQueues(s: State)
    requires Init(s)
    ensures NobodyLost(s) && CountsSleepers(s) && AtMostOne(s)
  {
  }

  lemma HandOffOwned(s: State, m: Mid, i: nat)
    requires Inv(s) && m < |s.owner| && s.owner[m] == Some(s.cur) && i < |s.waiters[m]|
    ensures var r := HandOff(s, m, i); var n := s.waiters[m][i];
      m in r.owned[n] && m !in r.owned[s.cur] && !s.ready[n]
  {
    hide RunQueue, SemaphoreQueues, Ranges;
    assert s.waiters[m][i] in s.waiters[m];
    MinusMembers(s.owned[s.cur], m);
    assert HandOff(s, m, i).owned[s.waiters[m][i]][0] == m;
  }

  /** Unlocking a contended mutex hands it to the first waiter of maximal priority; the rest keep their order. */
  lemma UnlockHandsOff(cfg: Config, s: State, m: Mid) returns (a: seq<Tid>, n: Tid, b: seq<Tid>)
    requires Inv(s) && m < |s.owner| && s.owner[m] == Some(s.cur) && s.waiters[m] != []
    ensures n < |s.ready| && Below(a, |s.ready|) && Below(b, |s.ready|)
    ensures s.waiters[m] == a + [n] + b
    ensures (forall w :: w in a ==> s.eff[w] < s.eff[n]) && (forall w :: w in b ==> s.eff[w] <= s.eff[n])
    ensures var r := MutexUnlock(cfg, s, m);
      && r.waiters == s.waiters[m := a + b]
      && r.owner == s.owner[m := Some(n)]
      && r.ready == s.ready[n := true] && r.waitingOn == s.waitingOn[n := None]
      && m in r.owned[n] && m !in r.owned[s.cur]
  {
    hide RunQueue, SemaphoreQueues, MutexQueues, Ownership, PreemptEnable, UnlockOwned, Ranges;
    var q := s.waiters[m];
    var i := PopIndex(s.eff, q);
    n := q[i];
    a, b := q[..i], q[i + 1..];
    assert q == a + [n] + b;
    HandOffOwned(s, m, i);
    StepIsCore(cfg, s, Unlock(m));
  }

  // ---- As written ----

  /** Blocking on m keeps the earlier waiters queued exactly when there are none or the step is repaired. */
  lemma BlockingLosesEarlierWaiters(cfg: Config, s: State, m: Mid)
    requires Inv(s) && Enabled(s, Lock(m)) && Blocks(s, Lock(m)) && MutexLock(cfg, s, m).Running?
    ensures var r := MutexLock(cfg, s, m).s;
      && ((forall t :: t in s.waiters[m] ==> t in r.waiters[m]) <==> cfg.repaired || s.waiters[m] == [])
      && (!cfg.repaired ==> forall t :: t in s.waiters[m] ==> Lost(r, t))
  {
    hide RunQueue, Ownership, PreemptEnable, Ranges, RecomputedPriority, Lost;
    var r := MutexLock(cfg, s, m).s;
    StepIsCore(cfg, s, Lock(m));
    assert r.waiters == s.waiters[m := AfterBlock(cfg, s.cur, s.waiters[m])] && r.sleepers == s.sleepers;
    if s.waiters[m] != [] { assert s.waiters[m][0] in s.waiters[m] && !s.ready[s.waiters[m][0]]; }
    if cfg.repaired {
      assert r.waiters[m][1..] == s.waiters[m];
    } else {
      forall t | t in s.waiters[m] ensures Lost(r, t) { Forgotten(s, r, m, t); }
    }
  }

  lemma Forgotten(s: State, r: State, m: Mid, t: Tid)
    requires Inv(s) && Sized(r) && m < |s.owner| && t in s.waiters[m]
    requires r.waiters == s.waiters[m := [s.cur]] && r.sleepers == s.sleepers && r.ready == s.ready[s.cur := false] && r.owner == s.owner
    ensures Lost(r, t)
  {
    hide RunQueue, Ownership, Ranges;
    forall x | 0 <= x < |s.owner| ensures t !in r.waiters[x] {
      assert t in s.waiters[x] ==> s.waitingOn[t] == Some(x);
    }
  }

  /** The same for sem_down: the earlier sleepers stay queued exactly when there are none or the step is repaired. */
  lemma SleepingLosesEarlierSleepers(cfg: Config, s: State, k: Sid)
    requires Inv(s) && Enabled(s, Down(k)) && Blocks(s, Down(k))
    ensures var r := SemDown(cfg, s, k);
      && ((forall t :: t in s.sleepers[k] ==> t in r.sleepers[k]) <==> cfg.repaired || s.sleepers[k] == [])
      && (!cfg.repaired ==> forall t :: t in s.sleepers[k] ==> Lost(r, t))
  {
    hide RunQueue, Ownership, PreemptEnable, Ranges, Lost;
    var r := SemDown(cfg, s, k);
    StepIsCore(cfg, s, Down(k));
    assert r.sleepers == s.sleepers[k := AfterBlock(cfg, s.cur, s.sleepers[k])] && r.waiters == s.waiters;
    if s.sleepers[k] != [] { assert s.sleepers[k][0] in s.sleepers[k] && !s.ready[s.sleepers[k][0]]; }
    if cfg.repaired {
      assert r.sleepers[k][1..] == s.sleepers[k];
    } else {
      forall t | t in s.sleepers[k] ensures Lost(r, t) { SleptThrough(s, r, k, t); }
    }
  }

  lemma SleptThrough(s: State, r: State, k: Sid, t: Tid)
    requires Inv(s) && Sized(r) && k < |s.count| && t in s.sleepers[k] && r.waiters == s.waiters && r.owner == s.owner
    requires r.sleepers == s.sleepers[k := [s.cur]] && r.ready == s.ready[s.cur := false]
    ensures Lost(r, t)
  {
    hide RunQueue, Ownership, Ranges;
    assert t < |s.ready| && !s.ready[t] && s.waitingOn[t].None?;
    forall j | 0 <= j < |r.sleepers| ensures t !in r.sleepers[j] {
      assert t in s.sleepers[j] ==> j == k;
    }
    forall m | 0 <= m < |r.owner| ensures t !in r.waiters[m] {
      assert t !in s.waiters[m];
    }
  }

  /** As written no queue ever holds two threads. */
  lemma QueuesHoldAtMostOne(cfg: Config, d: Discipline, s0: State, steps: seq<Step>, s: State)
    requires !cfg.repaired && Init(s0) && Runs(cfg, d, s0, steps, s)
    ensures Sized(s) && AtMostOne(s)
  {
    hide Structure, Ranges, References, Init, Runs, Lost;
    InitInv(s0);
    InitQueues(s0);
    RunProgress(cfg, d, s0, steps, s);
  }

  /** A lost thread never runs again, whatever the others do. */
  lemma LostForever(cfg: Config, d: Discipline, s: State, t: Tid, steps: seq<Step>, r: State)
    requires Inv(s) && Lost(s, t) && Runs(cfg, d, s, steps, r)
    ensures Sized(r) && Lost(r, t) && r.cur != t
  {
    RunProgress(cfg, d, s, steps, r);
  }
}
