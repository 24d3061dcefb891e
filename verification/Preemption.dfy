/** When a wake-up takes the processor away at once, under either policy. */
module Preemption {
  import opened Prelude
  import opened KernelState
  import opened KernelInvariant
  import opened Outcomes
  import RoundRobin

  /** A request raised for n, READY and not current, alone decides whether the tail switches. */
  lemma TailPreempts(cfg: Config, b: State, n: Tid)
    requires Inv(b) && n < |b.ready| && b.ready[n] && n != b.cur
    requires b.need == if b.eff[n] > b.eff[b.cur] then NEED_NORMAL else NEED_NONE
    ensures PreemptEnable(cfg, b).cur != b.cur <==> b.eff[n] > b.eff[b.cur]
  {
    hide MutexQueues, SemaphoreQueues, Ownership, PickNext, RingAfter;
    CurrentQueued(b);
    assert n in b.rq;
    if b.need != NEED_NONE {
      if cfg.prio {
        PickIsMaximal(b, false, false);
      } else {
        RoundRobin.TailMovesOn(cfg, b);
        var i :| 0 <= i < |b.rq| && b.rq[i] == b.cur;
        var j :| 0 <= j < |b.rq| && b.rq[j] == n;
        assert PreemptEnable(cfg, b).cur == RoundRobin.After(b.rq, i);
      }
    }
  }

  /** With nothing pending a contended unlock gives up the processor if and only if the new owner is now above the caller. */
  lemma UnlockPreempts(cfg: Config, s: State, m: Mid)
    requires Inv(s) && s.need == NEED_NONE && m < |s.owner| && s.owner[m] == Some(s.cur) && s.waiters[m] != []
    ensures var r, n := MutexUnlock(cfg, s, m), s.waiters[m][PopIndex(s.eff, s.waiters[m])];
      Inv(r) && n < |r.eff| && s.cur < |r.eff| && (r.cur != s.cur <==> r.eff[n] > r.eff[s.cur])
  {
    hide Structure, Ranges, PopIndex, HandOff, UnlockOwned, PreemptEnable, MutexUnlock;
    var b, n := UnlockOwned(cfg, s, m), s.waiters[m][PopIndex(s.eff, s.waiters[m])];
    WaiterFacts(s, m, PopIndex(s.eff, s.waiters[m]));
    HandOffWakes(s, m, PopIndex(s.eff, s.waiters[m]));
    UnlockBudget(cfg, s, m);
    UnlockNeed(cfg, s, m);
    UnlockOwnedKeeps(cfg, s, m);
    CurrentQueued(b);
    PreemptEnableKeeps(cfg, b);
    UnlockIsTail(cfg, s, m);
    assert n != s.cur;
    TailPreempts(cfg, b, n);
  }

  lemma UnlockNeed(cfg: Config, s: State, m: Mid)
    requires Inv(s) && s.need == NEED_NONE && m < |s.owner| && s.owner[m] == Some(s.cur) && s.waiters[m] != []
    ensures var b, n := UnlockOwned(cfg, s, m), s.waiters[m][PopIndex(s.eff, s.waiters[m])];
      && n < |b.eff| && b.cur == s.cur && |b.ready| == |s.ready|
      && b.need == if b.eff[n] > b.eff[b.cur] then NEED_NORMAL else NEED_NONE
  {
    hide Structure, Ranges, PopIndex, RecomputedPriority, HandOff;
    HandOffNeed(s, m, PopIndex(s.eff, s.waiters[m]));
  }

  lemma HandOffNeed(s: State, m: Mid, i: nat)
    requires Sized(s) && m < |s.owner| && i < |s.waiters[m]|
    ensures s.waiters[m][i] < |s.ready|
    ensures var b := HandOff(s, m, i);
      b.need == s.need && b.cur == s.cur && |b.ready| == |s.ready| && |b.owner| == |s.owner|
  {
    hide Release, Without;
    assert s.waiters[m][i] in s.waiters[m];
  }

  /** So does a sem_up that wakes a sleeper, if and only if the sleeper is above the caller. */
  lemma UpPreempts(cfg: Config, s: State, k: Sid)
    requires Inv(s) && s.need == NEED_NONE && k < |s.count| && Wakes(s, k)
    ensures var r, n := SemUp(cfg, s, k), s.sleepers[k][PopIndex(s.eff, s.sleepers[k])];
      Inv(r) && n < |s.eff| && r.eff == s.eff && (r.cur != s.cur <==> s.eff[n] > s.eff[s.cur])
  {
    hide Structure, Ranges, PopIndex, SemUp, PreemptEnable, UpCore;
    var w, n := UpCore(s, k), s.sleepers[k][PopIndex(s.eff, s.sleepers[k])];
    UpCoreKeeps(s, k);
    UpIsTail(cfg, s, k);
    UpNeed(s, k);
    CurrentQueued(w);
    PreemptEnableKeeps(cfg, w);
    TailPreempts(cfg, w, n);
  }

  lemma UpNeed(s: State, k: Sid)
    requires Inv(s) && s.need == NEED_NONE && k < |s.count| && Wakes(s, k)
    ensures var w, n := UpCore(s, k), s.sleepers[k][PopIndex(s.eff, s.sleepers[k])];
      && n < |s.ready| && n != s.cur && w.cur == s.cur && w.eff == s.eff && |w.ready| == |s.ready| && w.ready[n]
      && w.need == if s.eff[n] > s.eff[s.cur] then NEED_NORMAL else NEED_NONE
  {
    hide RunQueue, MutexQueues, Ownership, Ranges, Without;
    var i := PopIndex(s.eff, s.sleepers[k]);
    hide PopIndex;
    assert s.sleepers[k][i] in s.sleepers[k] && !s.ready[s.sleepers[k][i]];
  }
}
