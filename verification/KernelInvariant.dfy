/** What every step keeps: queue membership, ownership, priorities, and a READY current thread. */
module KernelInvariant {
  import opened Prelude
  import opened KernelState

  /** The run queue holds exactly the READY threads, each once. */
  ghost predicate RunQueue(rq: seq<Tid>, ready: seq<bool>) {
    && Distinct(rq)
    && (forall t :: 0 <= t < |ready| ==> (t in rq <==> ready[t]))
  }

  /** A member of a mutex queue is BLOCKED waiting on that mutex, and appears there once. */
  ghost predicate MutexQueues(waiters: seq<seq<Tid>>, waitingOn: seq<Option<Mid>>, ready: seq<bool>)
    requires |waitingOn| == |ready|
  {
    && (forall m :: 0 <= m < |waiters| ==> Distinct(waiters[m]))
    && (forall m, t :: 0 <= m < |waiters| && t in waiters[m] ==> t < |ready| && !ready[t] && waitingOn[t] == Some(m))
    && (forall t :: 0 <= t < |ready| && ready[t] ==> waitingOn[t].None?)
  }

  /** A member of a semaphore queue is BLOCKED on no mutex, and appears in one queue, once. */
  ghost predicate SemaphoreQueues(sleepers: seq<seq<Tid>>, waitingOn: seq<Option<Mid>>, ready: seq<bool>)
    requires |waitingOn| == |ready|
  {
    && (forall k :: 0 <= k < |sleepers| ==> Distinct(sleepers[k]))
    && (forall k, t :: 0 <= k < |sleepers| && t in sleepers[k] ==> t < |ready| && !ready[t] && waitingOn[t].None?)
    && (forall j, k, t :: 0 <= j < |sleepers| && 0 <= k < |sleepers| && t in sleepers[j] && t in sleepers[k] ==> j == k)
  }

  /** Owned lists partition the owned mutexes; a mutex with waiters has an owner; nobody waits for its own. */
  ghost predicate Ownership(owned: seq<seq<Mid>>, owner: seq<Option<Tid>>, waiters: seq<seq<Tid>>,
                            waitingOn: seq<Option<Mid>>)
    requires |waiters| == |owner|
  {
    && (forall t :: 0 <= t < |owned| ==> Distinct(owned[t]))
    && (forall t, m :: 0 <= t < |owned| && m in owned[t] ==> m < |owner| && owner[m] == Some(t))
    && (forall m :: 0 <= m < |owner| && owner[m].Some? ==> owner[m].value < |owned| && m in owned[owner[m].value])
    && (forall m :: 0 <= m < |owner| && waiters[m] != [] ==> owner[m].Some?)
    && (forall t :: 0 <= t < |waitingOn| && waitingOn[t].Some? ==>
          waitingOn[t].value < |owner| && owner[waitingOn[t].value] != Some(t))
  }

  ghost predicate Structure(s: State)
    requires Sized(s)
  {
    && RunQueue(s.rq, s.ready)
    && MutexQueues(s.waiters, s.waitingOn, s.ready)
    && SemaphoreQueues(s.sleepers, s.waitingOn, s.ready)
    && Ownership(s.owned, s.owner, s.waiters, s.waitingOn)
  }

  ghost predicate Ranges(s: State)
    requires Sized(s)
  {
    && (forall t :: 0 <= t < |s.ready| ==> 0 <= s.base[t] <= s.eff[t] <= MAX_PRIORITY)
    && (forall t :: 0 <= t < |s.ready| ==> 1 <= s.budget[t] <= QUANTUM_TICKS)
  }

  ghost predicate Inv(s: State) {
    Sized(s) && Structure(s) && Ranges(s) && s.ready[s.cur]
  }

  /** s and r agree on everything `Structure` looks at. */
  ghost predicate SameStructure(s: State, r: State) {
    && r.ready == s.ready && r.waitingOn == s.waitingOn && r.owned == s.owned
    && r.owner == s.owner && r.waiters == s.waiters
    && r.count == s.count && r.sleepers == s.sleepers && r.rq == s.rq
  }

  lemma SameStructureKeeps(s: State, r: State)
    requires Sized(s) && Sized(r) && SameStructure(s, r) && Structure(s)
    ensures Structure(r)
  {
  }

  // ---- Choice of the next thread ----

  /** The thread sched_resched_from_irq_tail selects under PRIO is READY and of maximal priority. */
  lemma PickIsMaximal(s: State, exclude: bool, rotate: bool)
    requires Sized(s) && RunQueue(s.rq, s.ready) && Ranges(s) && s.rq != []
    ensures var t := PickNext(s, exclude, rotate);
      t in s.rq && s.ready[t] && forall u :: u in s.rq ==> s.eff[u] <= s.eff[t]
  {
    hide RingAfter, FirstBest, MaxReady;
    assert s.rq[0] in s.rq && s.ready[s.rq[0]];
    var best := MaxReady(s, s.rq);
    var t :| t in s.rq && IsBest(s, t, best);
    var order := if exclude || rotate then RingAfter(s.rq, s.cur) else s.rq;
    assert t in order;
  }

  /** prio_pick_next never falls through to its last `return rq_head`. */
  lemma FallbackUnreachable(s: State, exclude: bool, rotate: bool)
    requires Sized(s) && RunQueue(s.rq, s.ready) && Ranges(s) && s.rq != []
    ensures var best := MaxReady(s, s.rq);
      var order := if exclude || rotate then RingAfter(s.rq, s.cur) else s.rq;
      best >= 0 && (FirstBest(s, order, best, if exclude then Some(s.cur) else None).Some? || IsBest(s, s.cur, best))
  {
    assert s.rq[0] in s.rq && s.ready[s.rq[0]];
    var best := MaxReady(s, s.rq);
    var t :| t in s.rq && IsBest(s, t, best);
    var order := if exclude || rotate then RingAfter(s.rq, s.cur) else s.rq;
    assert t in order;
  }

  lemma ReschedChoosesReady(cfg: Config, s: State)
    requires Sized(s) && RunQueue(s.rq, s.ready) && Ranges(s) && s.rq != []
    ensures ReschedChoice(cfg, s) in s.rq && s.ready[ReschedChoice(cfg, s)]
  {
    if cfg.prio {
      PickIsMaximal(s, s.need == NEED_ROTATE, s.need == NEED_ROTATE);
    } else {
      assert s.rq[0] in s.rq && RingAfter(s.rq, s.cur)[0] in RingAfter(s.rq, s.cur);
    }
  }

  // ---- Steps that leave the structure alone ----

  lemma PreemptEnableKeeps(cfg: Config, s: State)
    requires Sized(s) && Structure(s) && Ranges(s) && s.rq != [] && (s.need == NEED_NONE ==> s.ready[s.cur])
    ensures Inv(PreemptEnable(cfg, s)) && SameStructure(s, PreemptEnable(cfg, s))
    ensures PreemptEnable(cfg, s).eff == s.eff && PreemptEnable(cfg, s).base == s.base
    ensures PreemptEnable(cfg, s).budget == s.budget && PreemptEnable(cfg, s).piOn == s.piOn
  {
    hide RunQueue, MutexQueues, SemaphoreQueues, Ownership, Sized, ReschedChoice;
    ReschedChoosesReady(cfg, s);
    SameStructureKeeps(s, PreemptEnable(cfg, s));
  }

  lemma YieldKeeps(cfg: Config, s: State)
    requires Inv(s)
    ensures Inv(ThreadYield(cfg, s)) && SameStructure(s, ThreadYield(cfg, s))
  {
    assert s.cur in s.rq;
    if cfg.prio {
      PickIsMaximal(s, true, true);
    } else {
      assert RingAfter(s.rq, s.cur)[0] in RingAfter(s.rq, s.cur);
    }
  }

  lemma TickKeeps(cfg: Config, s: State)
    requires Inv(s)
    ensures Inv(SchedOnTick(cfg, s)) && SameStructure(s, SchedOnTick(cfg, s))
    ensures SchedOnTick(cfg, s).eff == s.eff && SchedOnTick(cfg, s).cur == s.cur
  {
    hide Structure;
    SameStructureKeeps(s, SchedOnTick(cfg, s));
  }

  lemma RecomputeKeeps(cfg: Config, s: State, t: Tid)
    requires Sized(s) && Structure(s) && Ranges(s) && t < |s.ready|
    ensures var r := Recompute(cfg, s, t);
      Structure(r) && Ranges(r) && SameStructure(s, r) && r.cur == s.cur && r.need == s.need
  {
    hide Structure;
    SameStructureKeeps(s, Recompute(cfg, s, t));
  }

  // ---- Steps that move threads between queues ----

  lemma AcquireKeeps(s: State, m: Mid)
    requires Inv(s) && m < |s.owner| && s.owner[m].None?
    ensures Inv(Acquire(s, m))
  {
    hide RunQueue, SemaphoreQueues;
    assert s.waitingOn[s.cur := None] == s.waitingOn;
    AcquireOwnership(s, m);
  }

  lemma AcquireOwnership(s: State, m: Mid)
    requires Sized(s) && Ownership(s.owned, s.owner, s.waiters, s.waitingOn)
    requires m < |s.owner| && s.owner[m].None? && s.waitingOn[s.cur].None?
    ensures var r := Acquire(s, m); Ownership(r.owned, r.owner, r.waiters, r.waitingOn)
  {
    var r := Acquire(s, m);
    assert forall t :: 0 <= t < |s.ready| ==> m !in s.owned[t];
    assert r.owned[s.cur][0] == m && r.owned[s.cur][1..] == s.owned[s.cur];
    assert forall x :: x in r.owned[s.cur] <==> x == m || x in s.owned[s.cur];
  }

  lemma BlockRunQueue(s: State)
    requires Sized(s) && RunQueue(s.rq, s.ready) && s.ready[s.cur]
    ensures RunQueue(Block(s).rq, Block(s).ready) && |Block(s).rq| == |s.rq| - 1
  {
    MinusMembers(s.rq, s.cur);
    assert s.cur in s.rq;
  }

  /** c joins the queue q of which it is not yet a member. */
  lemma PushedQueue(cfg: Config, c: Tid, q: seq<Tid>)
    requires Distinct(q) && c !in q
    ensures var r := AfterBlock(cfg, c, q);
      Distinct(r) && c in r && forall t :: t in r ==> t == c || t in q
  {
    assert c == AfterBlock(cfg, c, q)[0];
  }

  lemma BlockMutexQueues(cfg: Config, s: State, r: State, m: Mid)
    requires Sized(s) && Sized(r) && MutexQueues(s.waiters, s.waitingOn, s.ready) && m < |s.owner| && s.ready[s.cur]
    requires r.ready == s.ready[s.cur := false] && r.waitingOn == s.waitingOn[s.cur := Some(m)]
    requires r.waiters == s.waiters[m := AfterBlock(cfg, s.cur, s.waiters[m])] && r.owner == s.owner
    ensures MutexQueues(r.waiters, r.waitingOn, r.ready)
  {
    PushedQueue(cfg, s.cur, s.waiters[m]);
  }

  lemma BlockSemaphoreQueues(cfg: Config, s: State, r: State, k: Sid)
    requires Sized(s) && Sized(r) && SemaphoreQueues(s.sleepers, s.waitingOn, s.ready)
    requires k < |s.count| && s.ready[s.cur] && s.waitingOn[s.cur].None?
    requires r.ready == s.ready[s.cur := false] && r.waitingOn == s.waitingOn && r.count == s.count
    requires r.sleepers == s.sleepers[k := AfterBlock(cfg, s.cur, s.sleepers[k])]
    ensures SemaphoreQueues(r.sleepers, r.waitingOn, r.ready)
  {
    PushedQueue(cfg, s.cur, s.sleepers[k]);
    assert forall j :: 0 <= j < |s.count| ==> s.cur !in s.sleepers[j];
  }

  lemma BlockOwnership(s: State, r: State, m: Mid, q: seq<Tid>)
    requires Sized(s) && Sized(r) && Ownership(s.owned, s.owner, s.waiters, s.waitingOn)
    requires m < |s.owner| && s.owner[m].Some? && s.owner[m] != Some(s.cur)
    requires r.owned == s.owned && r.owner == s.owner && r.waiters == s.waiters[m := q]
    requires r.waitingOn == s.waitingOn[s.cur := Some(m)]
    ensures Ownership(r.owned, r.owner, r.waiters, r.waitingOn)
  {
  }

  lemma BlockedElsewhere(s: State, r: State, m: Mid)
    requires Sized(s) && Sized(r) && SemaphoreQueues(s.sleepers, s.waitingOn, s.ready) && s.ready[s.cur]
    requires r.ready == s.ready[s.cur := false] && r.waitingOn == s.waitingOn[s.cur := Some(m)] && r.sleepers == s.sleepers
    ensures SemaphoreQueues(r.sleepers, r.waitingOn, r.ready)
  {
  }

  lemma BlockOnMutexKeeps(cfg: Config, s: State, m: Mid)
    requires Inv(s) && Enabled(s, Lock(m)) && Blocks(s, Lock(m))
    ensures var r := BlockOnMutex(cfg, s, m);
      Sized(r) && Structure(r) && Ranges(r) && r.rq != [] && r.need != NEED_NONE
  {
    hide References;
    var r := BlockOnMutex(cfg, s, m);
    BlockRunQueue(s);
    BlockMutexQueues(cfg, s, r, m);
    BlockedElsewhere(s, r, m);
    BlockOwnership(s, r, m, AfterBlock(cfg, s.cur, s.waiters[m]));
  }

  lemma BlockOnSemaphoreKeeps(cfg: Config, s: State, k: Sid)
    requires Inv(s) && k < |s.count| && |s.rq| >= 2
    ensures var r := BlockOnSemaphore(cfg, s, k);
      Sized(r) && Structure(r) && Ranges(r) && r.rq != [] && r.need != NEED_NONE
  {
    hide SemaphoreQueues, Ownership;
    var r := BlockOnSemaphore(cfg, s, k);
    assert s.waitingOn[s.cur := None] == s.waitingOn;
    BlockRunQueue(s);
    BlockSemaphoreQueues(cfg, s, r, k);
  }

  lemma ReleaseKeeps(s: State, m: Mid)
    requires Inv(s) && m < |s.owner| && s.owner[m] == Some(s.cur) && s.waiters[m] == []
    ensures Inv(Release(s, m)) && Release(s, m).cur == s.cur
  {
    hide RunQueue, SemaphoreQueues;
    MinusMembers(s.owned[s.cur], m);
  }

  lemma WakeRunQueue(s: State, r: State, n: Tid)
    requires Sized(s) && Sized(r) && RunQueue(s.rq, s.ready) && n < |s.ready| && !s.ready[n]
    requires r.ready == s.ready[n := true] && r.rq == s.rq + [n]
    ensures RunQueue(r.rq, r.ready)
  {
    assert n in r.rq && forall t :: t in r.rq <==> t in s.rq || t == n;
  }

  lemma HandOffMutexQueues(s: State, r: State, m: Mid, i: nat)
    requires Sized(s) && Sized(r) && MutexQueues(s.waiters, s.waitingOn, s.ready) && m < |s.owner| && i < |s.waiters[m]|
    requires var n := s.waiters[m][i];
      && r.ready == s.ready[n := true] && r.waitingOn == s.waitingOn[n := None]
      && r.waiters == s.waiters[m := Without(s.waiters[m], i)] && |r.owner| == |s.owner|
    ensures MutexQueues(r.waiters, r.waitingOn, r.ready)
  {
    var n := s.waiters[m][i];
    assert n in s.waiters[m];
    WithoutKeepsOthers(s.waiters[m], i);
    forall x, t | 0 <= x < |s.owner| && t in r.waiters[x] ensures !r.ready[t] && r.waitingOn[t] == Some(x) {
      assert t in s.waiters[x] && s.waitingOn[t] == Some(x);
    }
  }

  lemma HandOffOwnership(s: State, m: Mid, i: nat)
    requires Sized(s) && Ownership(s.owned, s.owner, s.waiters, s.waitingOn)
    requires m < |s.owner| && s.owner[m] == Some(s.cur) && i < |s.waiters[m]|
    requires s.waitingOn[s.cur].None? && s.waitingOn[s.waiters[m][i]] == Some(m)
    requires forall j :: 0 <= j < |s.waiters[m]| && j != i ==> s.waiters[m][j] != s.waiters[m][i]
    requires forall t :: 0 <= t < |s.ready| && s.waitingOn[t] == Some(m) && t != s.waiters[m][i] ==> t != s.cur
    requires !s.ready[s.waiters[m][i]]
    ensures var r := HandOff(s, m, i); Ownership(r.owned, r.owner, r.waiters, r.waitingOn)
  {
    var r := HandOff(s, m, i);
    var n := s.waiters[m][i];
    MinusMembers(s.owned[s.cur], m);
    assert n != s.cur && m !in s.owned[n];
    assert r.owned[n] == [m] + s.owned[n];
    assert r.owned[n][0] == m && r.owned[n][1..] == s.owned[n];
    assert forall x :: x in r.owned[n] <==> x == m || x in s.owned[n];
  }

  lemma HandOffKeeps(s: State, m: Mid, i: nat)
    requires Inv(s) && m < |s.owner| && s.owner[m] == Some(s.cur) && i < |s.waiters[m]|
    ensures var r := HandOff(s, m, i);
      Inv(r) && r.cur == s.cur && |r.owner| == |s.owner| && |r.ready| == |s.ready|
  {
    WaiterFacts(s, m, i);
    hide RunQueue, MutexQueues, SemaphoreQueues, Ownership;
    var r := HandOff(s, m, i);
    WakeRunQueue(s, r, s.waiters[m][i]);
    HandOffMutexQueues(s, r, m, i);
    HandOffOwnership(s, m, i);
    HandOffSleepers(s, s.waiters[m][i], m);
  }

  /** A waiter of m is blocked on m, is not the current thread and stands in the queue once. */
  lemma WaiterFacts(s: State, m: Mid, i: nat)
    requires Inv(s) && m < |s.owner| && i < |s.waiters[m]|
    ensures var n := s.waiters[m][i]; n < |s.ready| && !s.ready[n] && s.waitingOn[n] == Some(m)
    ensures s.waitingOn[s.cur].None?
    ensures forall j :: 0 <= j < |s.waiters[m]| && j != i ==> s.waiters[m][j] != s.waiters[m][i]
  {
    hide RunQueue, SemaphoreQueues, Ranges;
    assert s.waiters[m][i] in s.waiters[m];
  }

  lemma HandOffSleepers(s: State, n: Tid, m: Mid)
    requires Sized(s) && SemaphoreQueues(s.sleepers, s.waitingOn, s.ready) && n < |s.ready| && s.waitingOn[n] == Some(m)
    ensures SemaphoreQueues(s.sleepers, s.waitingOn[n := None], s.ready[n := true])
  {
  }

  lemma WakeKeeps(s: State, k: Sid, i: nat)
    requires Inv(s) && k < |s.count| && i < |s.sleepers[k]|
    ensures Inv(Wake(s, k, i))
  {
    hide Ownership, MutexQueues;
    var q := s.sleepers[k];
    var r := Wake(s, k, i);
    assert q[i] in q;
    WakeRunQueue(s, r, q[i]);
    WithoutKeepsOthers(q, i);
    WakeMutexQueues(s, r, q[i]);
  }

  lemma WakeMutexQueues(s: State, r: State, n: Tid)
    requires Sized(s) && Sized(r) && MutexQueues(s.waiters, s.waitingOn, s.ready) && n < |s.ready| && s.waitingOn[n].None?
    requires r.ready == s.ready[n := true] && r.waitingOn == s.waitingOn && r.waiters == s.waiters && r.owner == s.owner
    ensures MutexQueues(r.waiters, r.waitingOn, r.ready)
  {
  }

  lemma ApplyPiKeeps(cfg: Config, s: State, m: Mid)
    requires Sized(s) && Structure(s) && Ranges(s) && m < |s.owner|
    ensures var r := ApplyPi(cfg, s, m);
      Structure(r) && Ranges(r) && SameStructure(s, r) && r.cur == s.cur && r.need == s.need
  {
    hide Structure, Ranges;
    if s.owner[m].Some? { RecomputeKeeps(cfg, s, s.owner[m].value); }
  }

  lemma UnlockOwnedKeeps(cfg: Config, s: State, m: Mid)
    requires Inv(s) && m < |s.owner| && s.owner[m] == Some(s.cur)
    ensures Inv(UnlockOwned(cfg, s, m))
  {
    hide RunQueue, MutexQueues, SemaphoreQueues, Ownership, Ranges, HandOff, Recompute, ApplyPi, Release;
    if s.waiters[m] == [] {
      ReleaseKeeps(s, m);
      RecomputeKeeps(cfg, Release(s, m), s.cur);
    } else {
      var i := PopIndex(s.eff, s.waiters[m]);
      var s1 := HandOff(s, m, i);
      HandOffKeeps(s, m, i);
      ApplyPiKeeps(cfg, s1, m);
      RecomputeKeeps(cfg, ApplyPi(cfg, s1, m), s.cur);
      var s3 := Recompute(cfg, ApplyPi(cfg, s1, m), s.cur);
      RaiseNeedKeeps(s3, s.waiters[m][i]);
    }
  }

  lemma RaiseNeedKeeps(s: State, t: Tid)
    requires Inv(s) && t < |s.ready|
    ensures Inv(RaiseNeed(s, t))
  {
    hide Structure;
    SameStructureKeeps(s, RaiseNeed(s, t));
  }

  lemma SetPiKeeps(cfg: Config, s: State, m: Mid, on: bool)
    requires Inv(s) && m < |s.owner|
    ensures Inv(MutexSetPi(cfg, s, m, on))
  {
    hide RunQueue, MutexQueues, SemaphoreQueues, Ownership, Recompute, PreemptEnable;
    CurrentQueued(s);
    var s1 := s.(piOn := s.piOn[m := on]);
    if s.owner[m].Some? {
      RecomputeKeeps(cfg, s1, s.owner[m].value);
      PreemptEnableKeeps(cfg, Recompute(cfg, s1, s.owner[m].value));
    } else {
      PreemptEnableKeeps(cfg, s1);
    }
  }

  lemma CountKeeps(s: State, k: Sid, v: int)
    requires Inv(s) && k < |s.count|
    ensures Inv(s.(count := s.count[k := v]))
  {
    hide RunQueue, MutexQueues, SemaphoreQueues, Ownership;
  }

  lemma UpKeeps(cfg: Config, s: State, k: Sid)
    requires Inv(s) && k < |s.count|
    ensures Inv(SemUp(cfg, s, k))
  {
    hide Structure, Ranges, Wake, PreemptEnable, SameStructure;
    var s1 := s.(count := s.count[k := s.count[k] + 1]);
    CountKeeps(s, k, s.count[k] + 1);
    if s1.count[k] <= 0 && s1.sleepers[k] != [] {
      var i := PopIndex(s1.eff, s1.sleepers[k]);
      WakeKeeps(s1, k, i);
      CurrentQueued(Wake(s1, k, i));
      PreemptEnableKeeps(cfg, Wake(s1, k, i));
    } else {
      CurrentQueued(s1);
      PreemptEnableKeeps(cfg, s1);
    }
  }

  // ---- Every step, every run ----

  lemma StepKeeps(cfg: Config, s: State, step: Step)
    requires Inv(s) && Enabled(s, step)
    ensures Next(cfg, s, step).Running? ==> Inv(Next(cfg, s, step).s)
  {
    hide Structure, Ranges, References, BlockOnMutex, BlockOnSemaphore, UnlockOwned, Acquire, Wake, Recompute,
      PreemptEnable, SchedOnTick, ThreadYield, LockdepWalk, SameStructure;
    CurrentQueued(s);
    match step
    case Lock(m) =>
      if s.owner[m] == Some(s.cur) {
        PreemptEnableKeeps(cfg, s);
      } else if s.owner[m].None? {
        AcquireKeeps(s, m);
        CurrentQueued(Acquire(s, m));
        PreemptEnableKeeps(cfg, Acquire(s, m));
      } else {
        BlockOnMutexKeeps(cfg, s, m);
        PreemptEnableKeeps(cfg, BlockOnMutex(cfg, s, m));
      }
    case TryLock(m) =>
      if s.owner[m].None? {
        AcquireKeeps(s, m);
        CurrentQueued(Acquire(s, m));
        PreemptEnableKeeps(cfg, Acquire(s, m));
      } else {
        PreemptEnableKeeps(cfg, s);
      }
    case Unlock(m) =>
      if s.owner[m] == Some(s.cur) {
        UnlockOwnedKeeps(cfg, s, m);
        CurrentQueued(UnlockOwned(cfg, s, m));
        PreemptEnableKeeps(cfg, UnlockOwned(cfg, s, m));
      } else {
        PreemptEnableKeeps(cfg, s);
      }
    case SetPi(m, on) =>
      SetPiKeeps(cfg, s, m, on);
    case Down(k) =>
      var s1 := s.(count := s.count[k := s.count[k] - 1]);
      CountKeeps(s, k, s.count[k] - 1);
      if s1.count[k] >= 0 {
        PreemptEnableKeeps(cfg, s1);
      } else {
        BlockOnSemaphoreKeeps(cfg, s1, k);
        PreemptEnableKeeps(cfg, BlockOnSemaphore(cfg, s1, k));
      }
    case Up(k) =>
      UpKeeps(cfg, s, k);
    case Yield => YieldKeeps(cfg, s);
    case Tick =>
      TickKeeps(cfg, s);
      CurrentQueued(SchedOnTick(cfg, s));
      PreemptEnableKeeps(cfg, SchedOnTick(cfg, s));
    case PreemptPair => PreemptEnableKeeps(cfg, s);
  }

  lemma CurrentQueued(s: State)
    requires Inv(s)
    ensures s.cur in s.rq && s.rq != [] && s.waitingOn[s.cur].None? && s.waitingOn[s.cur := None] == s.waitingOn
  {
  }

  lemma InitInv(s: State)
    requires Init(s)
    ensures Inv(s)
  {
  }

  lemma {:induction false} RunKeeps(cfg: Config, d: Discipline, s: State, steps: seq<Step>, s': State)
    requires Inv(s) && Runs(cfg, d, s, steps, s')
    ensures Inv(s')
    decreases |steps|
  {
    if steps != [] {
      StepKeeps(cfg, s, steps[0]);
      RunKeeps(cfg, d, Next(cfg, s, steps[0]).s, steps[1..], s');
    }
  }

  /** In every reachable state the invariant holds. */
  lemma ReachableInv(cfg: Config, d: Discipline, s0: State, steps: seq<Step>, s: State)
    requires Init(s0) && Runs(cfg, d, s0, steps, s)
    ensures Inv(s)
  {
    InitInv(s0);
    RunKeeps(cfg, d, s0, steps, s);
  }

  // ---- The part of a step that touches queues and ownership ----

  ghost function LockCore(cfg: Config, s: State, m: Mid): (r: State)
    requires Sized(s) && m < |s.owner|
    ensures Sized(r)
  {
    if s.owner[m] == Some(s.cur) then s
    else if s.owner[m].None? then Acquire(s, m)
    else BlockOnMutex(cfg, s, m)
  }

  ghost function UnlockCore(s: State, m: Mid): (r: State)
    requires Sized(s) && m < |s.owner|
    ensures Sized(r)
  {
    if s.owner[m] != Some(s.cur) then s
    else if s.waiters[m] == [] then Release(s, m)
    else HandOff(s, m, PopIndex(s.eff, s.waiters[m]))
  }

  ghost function Counted(s: State, k: Sid, d: int): (r: State)
    requires Sized(s) && k < |s.count|
    ensures Sized(r)
  {
    s.(count := s.count[k := s.count[k] + d])
  }

  ghost function DownCore(cfg: Config, s: State, k: Sid): (r: State)
    requires Sized(s) && k < |s.count|
    ensures Sized(r)
  {
    if s.count[k] > 0 then Counted(s, k, -1) else BlockOnSemaphore(cfg, Counted(s, k, -1), k)
  }

  ghost predicate Wakes(s: State, k: Sid)
    requires Sized(s) && k < |s.count|
  {
    s.count[k] < 0 && s.sleepers[k] != []
  }

  ghost function UpCore(s: State, k: Sid): (r: State)
    requires Sized(s) && k < |s.count|
    ensures Sized(r)
  {
    if Wakes(s, k) then Wake(Counted(s, k, 1), k, PopIndex(s.eff, s.sleepers[k])) else Counted(s, k, 1)
  }

  ghost function Core(cfg: Config, s: State, step: Step): (r: State)
    requires Sized(s) && Enabled(s, step)
    ensures Sized(r)
  {
    match step
    case Lock(m) => LockCore(cfg, s, m)
    case TryLock(m) => if s.owner[m].None? then Acquire(s, m) else s
    case Unlock(m) => UnlockCore(s, m)
    case Down(k) => DownCore(cfg, s, k)
    case Up(k) => UpCore(s, k)
    case _ => s
  }

  lemma PreemptEnableSame(cfg: Config, s: State)
    requires Sized(s)
    ensures SameStructure(s, PreemptEnable(cfg, s))
  {
    hide ReschedChoice;
  }

  lemma SetPiSame(cfg: Config, s: State, m: Mid, on: bool)
    requires Sized(s) && m < |s.owner|
    ensures SameStructure(s, MutexSetPi(cfg, s, m, on))
  {
    hide RecomputedPriority, PreemptEnable;
    var s1 := s.(piOn := s.piOn[m := on]);
    PreemptEnableSame(cfg, if s.owner[m].Some? then Recompute(cfg, s1, s.owner[m].value) else s1);
  }

  lemma MutexStepIsCore(cfg: Config, s: State, step: Step)
    requires Inv(s) && Enabled(s, step) && Next(cfg, s, step).Running? && (step.Lock? || step.TryLock? || step.Unlock?)
    ensures SameStructure(Core(cfg, s, step), Next(cfg, s, step).s)
  {
    hide Structure, Ranges, References, RecomputedPriority, PreemptEnable, LockdepWalk, PickNext;
    CurrentQueued(s);
    match step
    case Lock(m) => PreemptEnableSame(cfg, LockCore(cfg, s, m));
    case TryLock(m) => PreemptEnableSame(cfg, Core(cfg, s, step));
    case Unlock(m) => PreemptEnableSame(cfg, if s.owner[m] == Some(s.cur) then UnlockOwned(cfg, s, m) else s);
  }

  /** Everything else a step does leaves queues and ownership alone. */
  lemma StepIsCore(cfg: Config, s: State, step: Step)
    requires Inv(s) && Enabled(s, step) && Next(cfg, s, step).Running?
    ensures SameStructure(Core(cfg, s, step), Next(cfg, s, step).s)
  {
    hide Structure, Ranges, References, RecomputedPriority, PreemptEnable, PickNext, MutexLock, MutexTryLock,
      MutexUnlock, PopIndex, Without,
      MutexSetPi, RingAfter;
    CurrentQueued(s);
    match step
    case Lock(m) => MutexStepIsCore(cfg, s, step);
    case TryLock(m) => MutexStepIsCore(cfg, s, step);
    case Unlock(m) => MutexStepIsCore(cfg, s, step);
    case SetPi(m, on) => SetPiSame(cfg, s, m, on);
    case Down(k) => PreemptEnableSame(cfg, DownCore(cfg, s, k));
    case Up(k) => PreemptEnableSame(cfg, UpCore(s, k));
    case Yield =>
    case Tick => PreemptEnableSame(cfg, SchedOnTick(cfg, s));
    case PreemptPair => PreemptEnableSame(cfg, s);
  }
}
