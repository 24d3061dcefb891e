/** The code as written: a second contender makes a mutex, or a semaphore, forget the first, for good. */
module LostWaiter {
  import opened Prelude
  import opened KernelState
  import opened KernelInvariant
  import opened WaitQueues
  import opened Schedules
  import opened Semaphores

  /** Two READY threads are two entries of the run queue. */
  lemma TwoReady(s: State, t: Tid, u: Tid)
    requires Inv(s) && t < |s.ready| && u < |s.ready| && t != u && s.ready[t] && s.ready[u]
    ensures |s.rq| >= 2
  {
    assert t in s.rq && u in s.rq;
    var i :| 0 <= i < |s.rq| && s.rq[i] == t;
    var j :| 0 <= j < |s.rq| && s.rq[j] == u;
  }

  lemma Takes(cfg: Config, s: State, t: Tid, m: Mid) returns (steps: seq<Step>, r: State)
    requires !cfg.prio && Inv(s) && t < |s.ready| && s.ready[t] && m < |s.owner| && s.owner[m].None?
    ensures Runs(cfg, AnyClient, s, steps, r) && Inv(r)
    ensures r.owner == s.owner[m := Some(t)] && r.waiters == s.waiters && r.waitingOn == s.waitingOn
    ensures r.ready == s.ready && r.owned == s.owned[t := [m] + s.owned[t]] && r.sleepers == s.sleepers
  {
    hide Structure, Ranges, References, Runs, PreemptEnable;
    var x;
    steps, x, r := LetTake(cfg, AnyClient, s, t, Lock(m));
    CurrentQueued(x);
  }

  /** Thread t blocks on m, past lockdep, while u stays READY. */
  lemma Contends(cfg: Config, s: State, t: Tid, u: Tid, m: Mid) returns (steps: seq<Step>, r: State)
    requires !cfg.prio && Inv(s) && t < |s.ready| && u < |s.ready| && t != u && s.ready[t] && s.ready[u]
    requires m < |s.owner| && s.owner[m].Some? && s.owner[m] != Some(t)
    requires cfg.lockdep ==> !LockdepWalk(s.waitingOn, s.owner, t, s.owner[m], LOCKDEP_DEPTH)
    ensures Runs(cfg, AnyClient, s, steps, r) && Inv(r)
    ensures r.owner == s.owner && r.waiters == s.waiters[m := AfterBlock(cfg, t, s.waiters[m])] && r.sleepers == s.sleepers
    ensures r.ready == s.ready[t := false] && r.waitingOn == s.waitingOn[t := Some(m)] && r.owned == s.owned
  {
    hide Structure, Ranges, References, Runs, PreemptEnable;
    forall x: State | Inv(x) && SameButCurrent(s, x) && x.cur == t
      ensures Enabled(x, Lock(m)) && Next(cfg, x, Lock(m)).Running?
    {
      TwoReady(x, t, u);
    }
    var x;
    steps, x, r := LetTake(cfg, AnyClient, s, t, Lock(m));
  }

  lemma Releases(cfg: Config, s: State, m: Mid) returns (steps: seq<Step>, r: State)
    requires !cfg.prio && Inv(s) && m < |s.owner| && s.owner[m].Some? && s.ready[s.owner[m].value]
    ensures Runs(cfg, AnyClient, s, steps, r) && Inv(r)
    ensures s.waiters[m] == [] ==> r.owner == s.owner[m := None] && r.waiters == s.waiters && r.ready == s.ready && r.waitingOn == s.waitingOn
    ensures |s.waiters[m]| == 1 ==>
      var n := s.waiters[m][0];
      && n < |s.ready| && r.owner == s.owner[m := Some(n)] && r.waiters == s.waiters[m := []]
      && r.ready == s.ready[n := true] && r.waitingOn == s.waitingOn[n := None]
    ensures r.sleepers == s.sleepers
  {
    hide MutexQueues, SemaphoreQueues, Ownership, RunQueue, Ranges, Runs, UnlockOwned, PreemptEnable;
    var x;
    steps, x, r := LetTake(cfg, AnyClient, s, s.owner[m].value, Unlock(m));
    if |s.waiters[m]| == 1 {
      assert s.waiters[m][0] in s.waiters[m];
      NotReadyQueued(x, m, 0);
      assert Without(s.waiters[m], 0) == [];
    }
  }

  lemma NotReadyQueued(s: State, m: Mid, i: nat)
    requires Inv(s) && m < |s.owner| && i < |s.waiters[m]|
    ensures !s.ready[s.waiters[m][i]]
  {
    assert s.waiters[m][i] in s.waiters[m];
  }

  /**
   * From every initial state with four threads there is a run after which m is free while thread 1 is
   * still BLOCKED waiting on it, in no queue (and so forever, by WaitQueues.LostForever).
   */
  lemma TwoWaiterLoss(cfg: Config, s0: State, m: Mid) returns (steps: seq<Step>, s: State)
    requires !cfg.repaired && !cfg.prio && Init(s0) && |s0.ready| >= 4 && m < |s0.owner|
    ensures Runs(cfg, AnyClient, s0, steps, s)
    ensures Sized(s) && Lost(s, 1) && s.waitingOn[1] == Some(m) && s.owner[m].None?
  {
    hide Structure, Ranges, References, Runs, Asleep;
    InitInv(s0);
    var a, b, c, d, e, s1, s2, s3, s4;
    a, s1 := Takes(cfg, s0, 0, m);
    b, s2 := Contends(cfg, s1, 1, 3, m);
    c, s3 := Contends(cfg, s2, 2, 3, m);
    d, s4 := Releases(cfg, s3, m);
    e, s := Releases(cfg, s4, m);
    RunsAppend(cfg, AnyClient, s3, d, s4, e, s);
    RunsAppend(cfg, AnyClient, s2, c, s3, d + e, s);
    RunsAppend(cfg, AnyClient, s1, b, s2, c + (d + e), s);
    RunsAppend(cfg, AnyClient, s0, a, s1, b + (c + (d + e)), s);
    steps := a + (b + (c + (d + e)));
    assert forall k :: 0 <= k < |s.count| ==> s.sleepers[k] == s0.sleepers[k] == [];
    NobodyAsleep(s);
  }

  lemma NobodyAsleep(s: State)
    requires Sized(s) && forall k :: 0 <= k < |s.sleepers| ==> s.sleepers[k] == []
    ensures forall t :: !Asleep(s.sleepers, t)
  {
  }

  // ---- Semaphores ----

  /** Thread t takes every unit there is. */
  lemma {:induction false} Drains(cfg: Config, s: State, t: Tid, k: Sid) returns (steps: seq<Step>, r: State)
    requires !cfg.prio && Inv(s) && t < |s.ready| && s.ready[t] && k < |s.count| && s.count[k] >= 0
    ensures Runs(cfg, AnyClient, s, steps, r) && Inv(r) && r.count == s.count[k := 0]
    ensures r.ready == s.ready && r.sleepers == s.sleepers && r.waiters == s.waiters && r.owner == s.owner
    decreases s.count[k]
  {
    hide Structure, Ranges, References, PreemptEnable;
    if s.count[k] == 0 {
      steps, r := [], s;
    } else {
      var a, x, s1;
      a, x, s1 := LetTake(cfg, AnyClient, s, t, Down(k));
      var b;
      b, r := Drains(cfg, s1, t, k);
      RunsAppend(cfg, AnyClient, s, a, s1, b, r);
      steps := a + b;
    }
  }

  /** Thread t finds no unit and goes to sleep while u stays READY. */
  lemma Sleeps(cfg: Config, s: State, t: Tid, u: Tid, k: Sid) returns (steps: seq<Step>, r: State)
    requires !cfg.prio && Inv(s) && t < |s.ready| && u < |s.ready| && t != u && s.ready[t] && s.ready[u]
    requires k < |s.count| && s.count[k] <= 0
    ensures Runs(cfg, AnyClient, s, steps, r) && Inv(r) && r.count == s.count[k := s.count[k] - 1]
    ensures r.sleepers == s.sleepers[k := AfterBlock(cfg, t, s.sleepers[k])] && r.ready == s.ready[t := false]
    ensures r.waiters == s.waiters && r.owner == s.owner
  {
    hide Structure, Ranges, References, Runs, PreemptEnable;
    forall x: State | Inv(x) && SameButCurrent(s, x) && x.cur == t
      ensures Enabled(x, Down(k)) && Next(cfg, x, Down(k)).Running?
    {
      TwoReady(x, t, u);
    }
    var x;
    steps, x, r := LetTake(cfg, AnyClient, s, t, Down(k));
  }

  /** Thread t returns a unit somebody is owed; the queue of k holds at most one thread. */
  lemma Returns(cfg: Config, s: State, t: Tid, k: Sid) returns (steps: seq<Step>, r: State)
    requires !cfg.prio && Inv(s) && t < |s.ready| && s.ready[t]
    requires k < |s.count| && s.count[k] < 0 && |s.sleepers[k]| <= 1
    ensures Runs(cfg, AnyClient, s, steps, r) && Inv(r) && r.count == s.count[k := s.count[k] + 1]
    ensures r.sleepers == s.sleepers[k := []] && r.waiters == s.waiters && r.owner == s.owner
    ensures s.sleepers[k] == [] ==> r.ready == s.ready
    ensures |s.sleepers[k]| == 1 ==> s.sleepers[k][0] < |s.ready| && r.ready == s.ready[s.sleepers[k][0] := true]
  {
    hide MutexQueues, Ownership, RunQueue, Ranges, Runs, PreemptEnable;
    var x;
    steps, x, r := LetTake(cfg, AnyClient, s, t, Up(k));
    if s.sleepers[k] != [] {
      assert s.sleepers[k][0] in s.sleepers[k];
      assert Without(s.sleepers[k], 0) == [];
    } else {
      assert s.sleepers[k := []] == s.sleepers;
    }
  }

  /**
   * From every initial state with three threads there is a run that gives as many units as downs were
   * started, and ends with count 0 and thread 1 still BLOCKED, in no queue: its wake-up is lost.
   */
  lemma TwoSleeperLoss(cfg: Config, s0: State, k: Sid) returns (steps: seq<Step>, s: State)
    requires !cfg.repaired && !cfg.prio && Init(s0) && |s0.ready| >= 3 && k < |s0.count|
    ensures Runs(cfg, AnyClient, s0, steps, s)
    ensures Starts(steps, k) == s0.count[k] + Ups(steps, k)
    ensures Sized(s) && Lost(s, 1) && |s.count| == |s0.count| && s.count[k] == 0 && s.sleepers[k] == []
  {
    hide Structure, Ranges, References, Runs, Asleep;
    InitInv(s0);
    var a, b, c, d, e, s1, s2, s3, s4;
    a, s1 := Drains(cfg, s0, 0, k);
    b, s2 := Sleeps(cfg, s1, 1, 0, k);
    c, s3 := Sleeps(cfg, s2, 2, 0, k);
    d, s4 := Returns(cfg, s3, 0, k);
    e, s := Returns(cfg, s4, 0, k);
    RunsAppend(cfg, AnyClient, s3, d, s4, e, s);
    RunsAppend(cfg, AnyClient, s2, c, s3, d + e, s);
    RunsAppend(cfg, AnyClient, s1, b, s2, c + (d + e), s);
    RunsAppend(cfg, AnyClient, s0, a, s1, b + (c + (d + e)), s);
    steps := a + (b + (c + (d + e)));
    Conservation(cfg, AnyClient, s0, steps, s, k);
    assert forall j :: 0 <= j < |s.count| && j != k ==> s.sleepers[j] == s0.sleepers[j] == [];
    NobodyAsleep(s);
  }
}
