/** lockdep_would_deadlock against the wait-for graph: exact up to 17 threads, and enough to keep it acyclic. */
module Lockdep {
  import opened Prelude
  import opened KernelState
  import opened KernelInvariant
  import opened WaitQueues
  import opened Schedules
  import opened LostWaiter

  type Waits = seq<Option<Mid>>
  type Owners = seq<Option<Tid>>

  /** The thread n hops down the wait chain from x. */
  ghost function Hop(w: Waits, o: Owners, x: Option<Tid>, n: nat): Option<Tid>
    decreases n
  {
    if n == 0 || x.None? then x else Hop(w, o, Blocker(w, o, x.value), n - 1)
  }

  ghost predicate Acyclic(w: Waits, o: Owners) {
    forall t: Tid, n: nat :: n >= 1 ==> Hop(w, o, Some(t), n) != Some(t)
  }

  lemma {:induction false} HopAdd(w: Waits, o: Owners, x: Option<Tid>, a: nat, b: nat)
    ensures Hop(w, o, x, a + b) == Hop(w, o, Hop(w, o, x, a), b)
    decreases a
  {
    if a > 0 && x.Some? { HopAdd(w, o, Blocker(w, o, x.value), a - 1, b); }
  }

  // ---- The walk ----

  /** c is among the first `left` threads of the chain from x. */
  ghost predicate Within(w: Waits, o: Owners, c: Tid, x: Option<Tid>, left: nat) {
    exists n: nat :: n < left && Hop(w, o, x, n) == Some(c)
  }

  lemma {:induction false} WalkIsReach(w: Waits, o: Owners, c: Tid, x: Option<Tid>, left: nat)
    ensures LockdepWalk(w, o, c, x, left) <==> Within(w, o, c, x, left)
    decreases left
  {
    if left > 0 && x.Some? && x.value != c {
      var y := Blocker(w, o, x.value);
      WalkIsReach(w, o, c, y, left - 1);
      if Within(w, o, c, y, left - 1) {
        var n: nat :| n < left - 1 && Hop(w, o, y, n) == Some(c);
        var p: nat := n + 1;
        assert Hop(w, o, x, p) == Some(c);
      }
      if Within(w, o, c, x, left) {
        var n: nat :| n < left && Hop(w, o, x, n) == Some(c);
        var p: nat := n - 1;
        assert Hop(w, o, y, p) == Some(c);
      }
    } else if left > 0 && x.Some? {
      assert Hop(w, o, x, 0) == Some(c);
    }
  }

  /** With the edge c -> m added, the chain from x agrees with the old one until it reaches c. */
  lemma {:induction false} SameUntil(w: Waits, o: Owners, c: Tid, m: Mid, x: Option<Tid>, n: nat) returns (k: nat)
    requires c < |w|
    ensures k <= n
    ensures Hop(w, o, x, k) == Hop(w[c := Some(m)], o, x, k)
    ensures k < n ==> Hop(w, o, x, k) == Some(c)
    decreases n
  {
    if n == 0 || x.None? || x == Some(c) {
      k := if x == Some(c) then 0 else n;
    } else {
      var y := Blocker(w, o, x.value);
      assert y == Blocker(w[c := Some(m)], o, x.value);
      k := SameUntil(w, o, c, m, y, n - 1);
      k := k + 1;
    }
  }

  /** Adding c -> m closes a cycle exactly when the owner of m already leads to c. */
  lemma ClosesCycle(w: Waits, o: Owners, c: Tid, m: Mid)
    requires c < |w| && m < |o| && Acyclic(w, o)
    ensures !Acyclic(w[c := Some(m)], o) <==> exists n: nat :: Hop(w, o, o[m], n) == Some(c)
  {
    var w' := w[c := Some(m)];
    if n: nat :| Hop(w, o, o[m], n) == Some(c) {
      ReachCloses(w, o, c, m, n);
    }
    if !Acyclic(w', o) {
      var t: Tid, n: nat :| n >= 1 && Hop(w', o, Some(t), n) == Some(t);
      var k := SameUntil(w, o, c, m, Some(t), n);
      assert k < n;
      // c lies on the cycle of t, so it also lies n hops from itself
      HopAdd(w', o, Some(t), k, n - k);
      HopAdd(w', o, Some(c), n - k, k);
      assert Hop(w', o, Some(c), n) == Some(c);
      assert Blocker(w', o, c) == o[m];
      assert Hop(w', o, o[m], n - 1) == Some(c);
      var j := SameUntil(w, o, c, m, o[m], n - 1);
      assert Hop(w, o, o[m], j) == Some(c);
    }
  }

  /** Reaching c from the owner of m is a cycle once c waits on m, whether or not there were cycles before. */
  lemma ReachCloses(w: Waits, o: Owners, c: Tid, m: Mid, n: nat)
    requires c < |w| && m < |o| && Hop(w, o, o[m], n) == Some(c)
    ensures !Acyclic(w[c := Some(m)], o)
  {
    var w' := w[c := Some(m)];
    var k := SameUntil(w, o, c, m, o[m], n);
    assert Hop(w', o, o[m], k) == Some(c);
    assert Blocker(w', o, c) == o[m];
    assert Hop(w', o, Some(c), k + 1) == Some(c);
  }

  /** In an acyclic graph the chain from x visits a new thread at every hop. */
  lemma Visited(w: Waits, o: Owners, x: Option<Tid>, n: nat, bound: nat) returns (path: seq<nat>)
    requires Acyclic(w, o) && Hop(w, o, x, n).Some?
    requires (x.Some? ==> x.value < bound) && forall m :: 0 <= m < |o| && o[m].Some? ==> o[m].value < bound
    ensures |path| == n + 1 && Distinct(path)
    ensures forall k :: 0 <= k <= n ==> path[k] < bound && Hop(w, o, x, k) == Some(path[k])
  {
    forall k | 0 <= k <= n ensures Hop(w, o, x, k).Some? && Hop(w, o, x, k).value < bound {
      HopAdd(w, o, x, k, n - k);
      if k > 0 { HopAdd(w, o, x, k - 1, 1); }
    }
    path := seq(n + 1, k requires 0 <= k <= n => Hop(w, o, x, k).value);
    forall i, j | 0 <= i < j < |path| ensures path[i] != path[j] {
      HopAdd(w, o, x, i, j - i);
    }
  }

  /** In an acyclic graph over N threads every chain is over after fewer than N hops. */
  lemma ChainIsShort(w: Waits, o: Owners, x: Option<Tid>, n: nat, bound: nat)
    requires Acyclic(w, o) && Hop(w, o, x, n).Some?
    requires (x.Some? ==> x.value < bound) && forall m :: 0 <= m < |o| && o[m].Some? ==> o[m].value < bound
    ensures n < bound
  {
    var path := Visited(w, o, x, n, bound);
    Pigeonhole(path, bound);
  }

  /** Every thread of a chain but the last waits, so a chain has no more hops than there are BLOCKED threads. */
  lemma HopsAreBlocked(s: State, x: Option<Tid>, n: nat)
    requires Inv(s) && Acyclic(s.waitingOn, s.owner) && Hop(s.waitingOn, s.owner, x, n).Some?
    requires x.Some? ==> x.value < |s.ready|
    ensures n + |s.rq| <= |s.ready|
  {
    hide SemaphoreQueues, Ownership, Ranges, Acyclic;
    var path := Visited(s.waitingOn, s.owner, x, n, |s.ready|);
    var all := path[..n] + s.rq;
    forall k | 0 <= k < n ensures path[k] !in s.rq {
      HopAdd(s.waitingOn, s.owner, x, k, 1);
      assert Blocker(s.waitingOn, s.owner, path[k]) == Some(path[k + 1]);
    }
    forall i, j | 0 <= i < j < |all| ensures all[i] != all[j] {
      if i < n <= j { assert all[j] in s.rq; }
    }
    Pigeonhole(all, |s.ready|);
  }

  /** A report is never false, for any number of threads. */
  lemma ReportMeansCycle(s: State, m: Mid)
    requires Inv(s) && m < |s.owner| && LockdepWalk(s.waitingOn, s.owner, s.cur, s.owner[m], LOCKDEP_DEPTH)
    ensures !Acyclic(s.waitingOn[s.cur := Some(m)], s.owner)
  {
    WalkIsReach(s.waitingOn, s.owner, s.cur, s.owner[m], LOCKDEP_DEPTH);
    var n: nat :| n < LOCKDEP_DEPTH && Hop(s.waitingOn, s.owner, s.owner[m], n) == Some(s.cur);
    ReachCloses(s.waitingOn, s.owner, s.cur, m, n);
  }

  /**
   * While fewer than 16 threads are BLOCKED, mutex_lock halts exactly when blocking would close a
   * wait-for cycle. As another thread is READY whenever the caller blocks, 17 threads are few enough.
   */
  lemma LockdepExact(cfg: Config, s: State, m: Mid)
    requires cfg.lockdep && Inv(s) && Acyclic(s.waitingOn, s.owner) && |s.ready| - |s.rq| < LOCKDEP_DEPTH
    requires m < |s.owner| && s.owner[m].Some? && s.owner[m] != Some(s.cur)
    ensures MutexLock(cfg, s, m).Halted? <==> !Acyclic(s.waitingOn[s.cur := Some(m)], s.owner)
  {
    hide Structure, Ranges, PreemptEnable;
    ClosesCycle(s.waitingOn, s.owner, s.cur, m);
    WalkIsReach(s.waitingOn, s.owner, s.cur, s.owner[m], LOCKDEP_DEPTH);
    if n: nat :| Hop(s.waitingOn, s.owner, s.owner[m], n) == Some(s.cur) {
      HopsAreBlocked(s, s.owner[m], n);
    }
  }

  // ---- Runs ----

  /** Dropping edges, or sending them to threads that wait for nobody, creates no cycle. */
  lemma Redirect(w: Waits, o: Owners, w': Waits, o': Owners)
    requires Acyclic(w, o)
    requires forall t: Tid :: var b := Blocker(w', o', t);
      b == Blocker(w, o, t) || b.None? || Blocker(w', o', b.value).None?
    ensures Acyclic(w', o')
  {
    forall t: Tid, n: nat | n >= 1 ensures Hop(w', o', Some(t), n) != Some(t) {
      if Hop(w', o', Some(t), n) == Some(t) {
        RedirectSame(w, o, w', o', Some(t), t, n);
      }
    }
  }

  lemma {:induction false} RedirectSame(w: Waits, o: Owners, w': Waits, o': Owners, x: Option<Tid>, t: Tid, n: nat)
    requires forall u: Tid :: var b := Blocker(w', o', u);
      b == Blocker(w, o, u) || b.None? || Blocker(w', o', b.value).None?
    requires Hop(w', o', x, n) == Some(t) && Blocker(w', o', t).Some?
    ensures Hop(w, o, x, n) == Some(t)
    decreases n
  {
    if n > 0 {
      var y := Blocker(w', o', x.value);
      assert Hop(w', o', y, n - 1) == Some(t);
      assert y.Some?;
      RedirectSame(w, o, w', o', y, t, n - 1);
    }
  }

  lemma AcquireAcyclic(s: State, m: Mid)
    requires Inv(s) && Acyclic(s.waitingOn, s.owner) && m < |s.owner| && s.owner[m].None?
    ensures var c := Acquire(s, m); Acyclic(c.waitingOn, c.owner)
  {
    hide Acyclic, Ranges, RunQueue, SemaphoreQueues;
    Redirect(s.waitingOn, s.owner, Acquire(s, m).waitingOn, Acquire(s, m).owner);
  }

  lemma UnlockAcyclic(s: State, m: Mid)
    requires Inv(s) && Acyclic(s.waitingOn, s.owner) && m < |s.owner|
    ensures var c := UnlockCore(s, m); Acyclic(c.waitingOn, c.owner)
  {
    hide Acyclic, Ranges, RunQueue, SemaphoreQueues, Ownership;
    Redirect(s.waitingOn, s.owner, UnlockCore(s, m).waitingOn, UnlockCore(s, m).owner);
  }

  lemma CoreAcyclic(cfg: Config, s: State, step: Step)
    requires cfg.lockdep && Inv(s) && Acyclic(s.waitingOn, s.owner) && |s.ready| <= LOCKDEP_DEPTH + 1
    requires Enabled(s, step) && Next(cfg, s, step).Running?
    ensures var c := Core(cfg, s, step); Acyclic(c.waitingOn, c.owner)
  {
    hide Acyclic, Structure, Ranges, References, PreemptEnable, LockdepWalk, RecomputedPriority, Acquire, UnlockCore,
      Wake;
    CurrentQueued(s);
    match step
    case Lock(m) =>
      if s.owner[m].None? {
        AcquireAcyclic(s, m);
      } else if s.owner[m] != Some(s.cur) {
        LockdepExact(cfg, s, m);
      }
    case TryLock(m) => if s.owner[m].None? { AcquireAcyclic(s, m); }
    case Unlock(m) => UnlockAcyclic(s, m);
    case Up(k) => assert UpCore(s, k).waitingOn == s.waitingOn && UpCore(s, k).owner == s.owner by { WakeOnly(s, k); }
    case _ =>
  }

  lemma WakeOnly(s: State, k: Sid)
    requires Sized(s) && k < |s.count|
    ensures UpCore(s, k).waitingOn == s.waitingOn && UpCore(s, k).owner == s.owner && UpCore(s, k).owned == s.owned
  {
  }

  lemma {:induction false} RunAcyclic(cfg: Config, d: Discipline, s: State, steps: seq<Step>, r: State)
    requires cfg.lockdep && Inv(s) && Acyclic(s.waitingOn, s.owner) && |s.ready| <= LOCKDEP_DEPTH + 1
    requires Runs(cfg, d, s, steps, r)
    ensures Inv(r) && Acyclic(r.waitingOn, r.owner) && |r.ready| == |s.ready|
    decreases |steps|
  {
    hide Acyclic, Structure, Ranges, References, Next, Core;
    if steps != [] {
      var s1 := Next(cfg, s, steps[0]).s;
      StepKeeps(cfg, s, steps[0]);
      StepIsCore(cfg, s, steps[0]);
      CoreAcyclic(cfg, s, steps[0]);
      SameLength(cfg, s, steps[0]);
      RunAcyclic(cfg, d, s1, steps[1..], r);
    }
  }

  lemma SameLength(cfg: Config, s: State, step: Step)
    requires Inv(s) && Enabled(s, step)
    ensures |Core(cfg, s, step).ready| == |s.ready| && |Core(cfg, s, step).owner| == |s.owner|
  {
    hide Structure, Ranges, References, RecomputedPriority;
  }

  lemma InitAcyclic(s: State)
    requires Init(s)
    ensures Acyclic(s.waitingOn, s.owner)
  {
    forall t: Tid, n: nat | n >= 1 ensures Hop(s.waitingOn, s.owner, Some(t), n) != Some(t) {
      assert Blocker(s.waitingOn, s.owner, t).None?;
    }
  }

  /** With lockdep and at most 17 threads, no reachable state has a wait-for cycle. */
  lemma ReachableAcyclic(cfg: Config, d: Discipline, s0: State, steps: seq<Step>, s: State)
    requires cfg.lockdep && Init(s0) && |s0.ready| <= LOCKDEP_DEPTH + 1 && Runs(cfg, d, s0, steps, s)
    ensures Inv(s) && Acyclic(s.waitingOn, s.owner)
  {
    InitInv(s0);
    InitAcyclic(s0);
    RunAcyclic(cfg, d, s0, steps, s);
  }

  /**
   * The wait chain of any thread ends after fewer hops than there are threads, in a thread nobody
   * blocks: one not waiting on a mutex or, only as written, one left behind on a free mutex.
   */
  lemma ChainEnds(cfg: Config, d: Discipline, s0: State, steps: seq<Step>, s: State, t: Tid) returns (n: nat, last: Tid)
    requires cfg.lockdep && Init(s0) && |s0.ready| <= LOCKDEP_DEPTH + 1 && Runs(cfg, d, s0, steps, s)
    requires Sized(s) && t < |s.ready|
    ensures n < |s.ready| && last < |s.ready| && Hop(s.waitingOn, s.owner, Some(t), n) == Some(last)
    ensures s.waitingOn[last].Some? ==> !cfg.repaired && s.owner[s.waitingOn[last].value].None?
  {
    ReachableAcyclic(cfg, d, s0, steps, s);
    if cfg.repaired { NoLostWaiter(cfg, d, s0, steps, s); }
    n, last := ChainOf(s, t);
  }

  lemma ChainOf(s: State, t: Tid) returns (n: nat, last: Tid)
    requires Sized(s) && Acyclic(s.waitingOn, s.owner) && t < |s.ready|
    ensures n < |s.ready| && last < |s.ready| && Hop(s.waitingOn, s.owner, Some(t), n) == Some(last)
    ensures Blocker(s.waitingOn, s.owner, last).None?
  {
    hide Acyclic;
    n, last := 0, t;
    while Blocker(s.waitingOn, s.owner, last).Some?
      invariant last < |s.ready| && Hop(s.waitingOn, s.owner, Some(t), n) == Some(last) && n < |s.ready|
      decreases |s.ready| - n
    {
      HopAdd(s.waitingOn, s.owner, Some(t), n, 1);
      n, last := n + 1, Blocker(s.waitingOn, s.owner, last).value;
      ChainIsShort(s.waitingOn, s.owner, Some(t), n, |s.ready|);
    }
  }

  // ---- Eighteen threads ----

  lemma {:induction false} TakeOwn(cfg: Config, s0: State, n: nat) returns (steps: seq<Step>, s: State)
    requires !cfg.prio && Init(s0) && n <= |s0.ready| && n <= |s0.owner|
    ensures Runs(cfg, AnyClient, s0, steps, s) && Inv(s)
    ensures s.ready == s0.ready && s.waitingOn == s0.waitingOn && |s.owner| == |s0.owner|
    ensures forall i :: 0 <= i < |s.owner| ==> s.owner[i] == if i < n then Some(i) else None
  {
    hide Structure, Ranges, References, Runs;
    if n == 0 {
      InitInv(s0);
      steps, s := [], s0;
      assert Runs(cfg, AnyClient, s0, [], s0) by { StartsEmpty(cfg, s0); }
    } else {
      var a, s1 := TakeOwn(cfg, s0, n - 1);
      InitInv(s0);
      var b;
      b, s := Takes(cfg, s1, n - 1, n - 1);
      RunsAppend(cfg, AnyClient, s0, a, s1, b, s);
      steps := a + b;
    }
  }

  lemma StartsEmpty(cfg: Config, s: State)
    requires Inv(s)
    ensures Runs(cfg, AnyClient, s, [], s)
  {
  }

  /** Threads 0..n-1 each wait for the mutex of the next one; thread `idle` stays READY. */
  lemma {:induction false} WaitForNext(cfg: Config, s0: State, n: nat, k: nat, idle: Tid) returns (steps: seq<Step>, s: State)
    requires !cfg.prio && Init(s0) && n <= k < idle < |s0.ready| && k < |s0.owner|
    ensures Runs(cfg, AnyClient, s0, steps, s) && Inv(s) && |s.ready| == |s0.ready| && |s.owner| == |s0.owner|
    ensures forall i :: 0 <= i < |s.owner| ==> s.owner[i] == if i <= k then Some(i) else None
    ensures forall i :: 0 <= i < |s.ready| ==> s.waitingOn[i] == if i < n then Some(i + 1) else None
    ensures forall i :: n <= i < |s.ready| ==> s.ready[i]
  {
    hide Structure, Ranges, References, Runs, LockdepWalk;
    if n == 0 {
      steps, s := TakeOwn(cfg, s0, k + 1);
    } else {
      var a, s1 := WaitForNext(cfg, s0, n - 1, k, idle);
      assert !LockdepWalk(s1.waitingOn, s1.owner, n - 1, s1.owner[n], LOCKDEP_DEPTH) by {
        NotWaiting(s1.waitingOn, s1.owner, n - 1, n);
      }
      InitInv(s0);
      var b;
      b, s := Contends(cfg, s1, n - 1, idle, n);
      RunsAppend(cfg, AnyClient, s0, a, s1, b, s);
      steps := a + b;
    }
  }

  lemma NotWaiting(w: Waits, o: Owners, c: Tid, x: Tid)
    requires c != x && x < |w| && w[x].None?
    ensures !LockdepWalk(w, o, c, Some(x), LOCKDEP_DEPTH)
  {
  }

  lemma {:induction false} ChainHops(w: Waits, o: Owners, k: nat, n: nat)
    requires n <= k < |o| && k < |w|
    requires forall i :: 0 <= i <= k ==> o[i] == Some(i)
    requires forall i :: 0 <= i < k ==> w[i] == Some(i + 1)
    ensures Hop(w, o, Some(0), n) == Some(n)
  {
    if n > 0 {
      ChainHops(w, o, k, n - 1);
      HopAdd(w, o, Some(0), n - 1, 1);
    }
  }

  /**
   * Beyond 17 threads the bounded walk is not enough: from every initial state with 18 threads and 17
   * mutexes there is a run, with lockdep on, that ends in a wait-for cycle of 17 threads.
   */
  lemma SeventeenMissed(cfg: Config, s0: State) returns (steps: seq<Step>, s: State)
    requires cfg.lockdep && !cfg.prio && Init(s0) && |s0.ready| >= 18 && |s0.owner| >= 17
    ensures Runs(cfg, AnyClient, s0, steps, s)
    ensures Hop(s.waitingOn, s.owner, Some(0), 17) == Some(0) && !Acyclic(s.waitingOn, s.owner)
  {
    hide Structure, Ranges, References, Runs, LockdepWalk;
    var a, s1 := WaitForNext(cfg, s0, 16, 16, 17);
    forall n: nat | n < LOCKDEP_DEPTH ensures Hop(s1.waitingOn, s1.owner, s1.owner[0], n) != Some(16) {
      ChainHops(s1.waitingOn, s1.owner, 16, n);
    }
    WalkIsReach(s1.waitingOn, s1.owner, 16, s1.owner[0], LOCKDEP_DEPTH);
    InitInv(s0);
    var b;
    b, s := Contends(cfg, s1, 16, 17, 0);
    RunsAppend(cfg, AnyClient, s0, a, s1, b, s);
    steps := a + b;
    ChainHops(s.waitingOn, s.owner, 16, 16);
    HopAdd(s.waitingOn, s.owner, Some(0), 16, 1);
  }
}
