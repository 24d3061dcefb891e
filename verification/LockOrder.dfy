/** Address-ordered locking and try-lock with back-off: neither can deadlock, for any number of threads. */
module LockOrder {
  import opened Prelude
  import opened KernelState
  import opened KernelInvariant
  import opened Lockdep

  /** Whoever waits for m owns only mutexes below m. */
  ghost predicate WaitsUpwards(owned: seq<seq<Mid>>, waitingOn: seq<Option<Mid>>) {
    forall t, x :: 0 <= t < |waitingOn| && t < |owned| && waitingOn[t].Some? && x in owned[t] ==> x < waitingOn[t].value
  }

  /** Along a wait chain the awaited mutex strictly increases, so no chain comes back. */
  lemma {:induction false} ChainClimbs(s: State, t: Tid, n: nat)
    requires Inv(s) && WaitsUpwards(s.owned, s.waitingOn) && t < |s.ready| && n >= 1
    requires Hop(s.waitingOn, s.owner, Some(t), n).Some?
    ensures var u := Hop(s.waitingOn, s.owner, Some(t), n).value;
      u < |s.ready| && s.waitingOn[t].Some? && (s.waitingOn[u].Some? ==> s.waitingOn[t].value < s.waitingOn[u].value)
    decreases n
  {
    hide RunQueue, MutexQueues, SemaphoreQueues, Ranges;
    var b := Blocker(s.waitingOn, s.owner, t).value;
    assert s.waitingOn[t].value in s.owned[b];
    if n > 1 { ChainClimbs(s, b, n - 1); }
  }

  lemma UpwardsIsAcyclic(s: State)
    requires Inv(s) && WaitsUpwards(s.owned, s.waitingOn)
    ensures Acyclic(s.waitingOn, s.owner)
  {
    forall t: Tid, n: nat | n >= 1 ensures Hop(s.waitingOn, s.owner, Some(t), n) != Some(t) {
      if Hop(s.waitingOn, s.owner, Some(t), n) == Some(t) {
        if t < |s.ready| { ChainClimbs(s, t, n); }
      }
    }
  }

  lemma UnlockUpwards(s: State, m: Mid)
    requires Inv(s) && WaitsUpwards(s.owned, s.waitingOn) && m < |s.owner|
    ensures var c := UnlockCore(s, m); WaitsUpwards(c.owned, c.waitingOn)
  {
    hide RunQueue, SemaphoreQueues, Ranges, Ownership;
    CurrentQueued(s);
    if s.owner[m] == Some(s.cur) { UnlockOwners(s, m); }
  }

  /** Ownership and waiting after an unlock by the owner. */
  lemma UnlockOwners(s: State, m: Mid)
    requires Inv(s) && m < |s.owner| && s.owner[m] == Some(s.cur)
    ensures var c := UnlockCore(s, m);
      && |c.owned| == |s.owned| && |c.waitingOn| == |s.waitingOn| && |c.owner| == |s.owner|
      && (forall x :: x in c.owned[s.cur] <==> x in s.owned[s.cur] && x != m)
      && (forall t :: 0 <= t < |s.owned| && t != s.cur && c.owned[t] != s.owned[t] ==>
            s.waitingOn[t] == Some(m) && c.waitingOn[t].None? && c.owned[t] == [m] + s.owned[t])
      && (forall t :: 0 <= t < |s.waitingOn| && c.waitingOn[t] != s.waitingOn[t] ==> s.waitingOn[t] == Some(m) && c.waitingOn[t].None?)
  {
    MinusMembers(s.owned[s.cur], m);
    if s.waiters[m] != [] { WaiterFacts(s, m, PopIndex(s.eff, s.waiters[m])); }
    hide Structure, Ranges, PopIndex, Minus;
  }

  lemma CoreUpwards(cfg: Config, s: State, step: Step)
    requires Inv(s) && WaitsUpwards(s.owned, s.waitingOn) && Enabled(s, step) && Allowed(Ascending, s, step)
    ensures var c := Core(cfg, s, step); WaitsUpwards(c.owned, c.waitingOn)
  {
    hide Structure, Ranges, References, RecomputedPriority, UnlockCore, Wake;
    CurrentQueued(s);
    if step.Unlock? { UnlockUpwards(s, step.m); }
    if step.Up? { WakeOnly(s, step.k); }
  }

  lemma {:induction false} RunUpwards(cfg: Config, s: State, steps: seq<Step>, r: State)
    requires Inv(s) && WaitsUpwards(s.owned, s.waitingOn) && Runs(cfg, Ascending, s, steps, r)
    ensures Inv(r) && WaitsUpwards(r.owned, r.waitingOn)
    decreases |steps|
  {
    hide Structure, Ranges, References, WaitsUpwards, Next, Core;
    if steps != [] {
      StepKeeps(cfg, s, steps[0]);
      StepIsCore(cfg, s, steps[0]);
      CoreUpwards(cfg, s, steps[0]);
      RunUpwards(cfg, Next(cfg, s, steps[0]).s, steps[1..], r);
    }
  }

  /** If threads block only on mutexes above all they own, no reachable state has a wait-for cycle. */
  lemma AscendingExcludesDeadlock(cfg: Config, s0: State, steps: seq<Step>, s: State)
    requires Init(s0) && Runs(cfg, Ascending, s0, steps, s)
    ensures Inv(s) && Acyclic(s.waitingOn, s.owner)
  {
    InitInv(s0);
    RunUpwards(cfg, s0, steps, s);
    UpwardsIsAcyclic(s);
  }

  // ---- The two protocols of the deadlock lab, thread by thread ----

  /**
   * Where a thread is in dl_lock_two_ordered / dl_unlock_two_ordered (Low, Both, Last) or in
   * dl_lock_two_trylock_backoff and the unlocks after it (First, Got, Last).
   */
  datatype Pc =
    | Idle
    | Low(lo: Mid, hi: Mid)      // called mutex_lock(lo)
    | Both(lo: Mid, hi: Mid)     // then mutex_lock(hi)
    | First(f: Mid, g: Mid)      // called mutex_lock(f), about to try g
    | Got(f: Mid, g: Mid)        // mutex_trylock(g) succeeded
    | Last(m: Mid)               // only m is left to unlock

  /** The moves of the current thread; re-executing mutex_lock after a wake-up keeps the position. */
  ghost predicate Moves(cfg: Config, s: State, pc: Pc, step: Step, pc': Pc)
    requires Sized(s) && Enabled(s, step) && Named(pc, |s.owner|)
  {
    var c := Some(s.cur);
    match step
    case Lock(m) =>
      || (pc.Idle? && ((pc'.Low? && pc'.lo == m && m < pc'.hi) || (pc'.First? && pc'.f == m) || pc' == Last(m)))
      || (pc.Low? && pc.hi == m && s.owner[pc.lo] == c && pc' == Both(pc.lo, pc.hi))
      || (pc' == pc && ((pc.Low? && pc.lo == m) || (pc.Both? && pc.hi == m) || (pc.First? && pc.f == m) || pc == Last(m)))
    case TryLock(m) =>
      pc.First? && pc.g == m && s.owner[pc.f] == c && pc' == if MutexTryLock(cfg, s, m).1 then Got(pc.f, pc.g) else Last(pc.f)
    case Unlock(m) =>
      || (pc.Both? && pc.hi == m && s.owner[m] == c && pc' == Last(pc.lo))
      || (pc.Got? && pc.g == m && s.owner[m] == c && pc' == Last(pc.f))
      || (pc == Last(m) && s.owner[m] == c && pc' == Idle)
    case _ => pc' == pc
  }

  /** The mutexes named at a position exist, and its order is ascending. */
  ghost predicate Named(pc: Pc, n: nat) {
    match pc
    case Idle => true
    case Low(lo, hi) => lo < hi && lo < n
    case Both(lo, hi) => lo < hi && lo < n
    case First(f, g) => f < n
    case Got(f, g) => f < n
    case Last(m) => m < n
  }

  /** What a thread at a position owns and waits for: it waits for the mutex it is locking until it owns it. */
  ghost predicate Consistent(pc: Pc, owned: seq<Mid>, waits: Option<Mid>) {
    match pc
    case Idle => owned == [] && waits.None?
    case Low(lo, hi) => lo < hi && Getting(owned, waits, {}, lo)
    case Both(lo, hi) => lo < hi && Getting(owned, waits, {lo}, hi)
    case First(f, g) => Getting(owned, waits, {}, f)
    case Got(f, g) => Owns(owned, {f, g}) && waits.None?
    case Last(m) => (forall x :: x in owned ==> x == m) && (waits.None? || (waits == Some(m) && owned == []))
  }

  ghost predicate Owns(owned: seq<Mid>, ms: set<Mid>) {
    forall x :: x in owned <==> x in ms
  }

  /** The thread owns `ms` and waits for m, or owns m as well and waits for nothing. */
  ghost predicate Getting(owned: seq<Mid>, waits: Option<Mid>, ms: set<Mid>, m: Mid) {
    if waits.None? then Owns(owned, ms + {m}) else waits == Some(m) && Owns(owned, ms)
  }

  ghost predicate ClientsConsistent(s: State, pcs: seq<Pc>)
    requires Sized(s)
  {
    && |pcs| == |s.ready|
    && (forall t :: 0 <= t < |pcs| ==> Named(pcs[t], |s.owner|) && Consistent(pcs[t], s.owned[t], s.waitingOn[t]))
  }

  /** A run in which every thread follows one of the two protocols, starting at pcs and ending at pcs'. */
  ghost predicate ClientRuns(cfg: Config, s: State, pcs: seq<Pc>, steps: seq<Step>, s': State, pcs': seq<Pc>)
    requires Sized(s) && |pcs| == |s.ready|
    decreases |steps|
  {
    if steps == [] then s == s' && pcs == pcs'
    else
      && Enabled(s, steps[0])
      && Next(cfg, s, steps[0]).Running?
      && |Next(cfg, s, steps[0]).s.ready| == |s.ready|
      && Named(pcs[s.cur], |s.owner|)
      && exists pc :: Named(pc, |s.owner|) && Moves(cfg, s, pcs[s.cur], steps[0], pc)
           && ClientRuns(cfg, Next(cfg, s, steps[0]).s, pcs[s.cur := pc], steps[1..], s', pcs')
  }

  /** A move of a protocol blocks only upwards. */
  lemma MoveIsAscending(cfg: Config, s: State, pcs: seq<Pc>, step: Step, pc: Pc)
    requires Inv(s) && ClientsConsistent(s, pcs) && Enabled(s, step) && Moves(cfg, s, pcs[s.cur], step, pc)
    ensures Allowed(Ascending, s, step)
  {
    hide RunQueue, MutexQueues, SemaphoreQueues, Ranges;
    CurrentQueued(s);
    assert Consistent(pcs[s.cur], s.owned[s.cur], s.waitingOn[s.cur]);
  }

  /** A thread that is given the mutex it waits for is where it was, as its owner. */
  lemma Given(pc: Pc, owned: seq<Mid>, m: Mid)
    requires Consistent(pc, owned, Some(m))
    ensures Consistent(pc, [m] + owned, None)
  {
    Joined(owned, m);
  }

  lemma Joined(owned: seq<Mid>, m: Mid)
    ensures forall x :: x in [m] + owned <==> x == m || x in owned
  {
    assert ([m] + owned)[0] == m && ([m] + owned)[1..] == owned;
  }

  lemma UnlockConsistent(cfg: Config, s: State, pcs: seq<Pc>, m: Mid, pc: Pc)
    requires Inv(s) && ClientsConsistent(s, pcs) && m < |s.owner|
    requires Named(pc, |s.owner|) && Moves(cfg, s, pcs[s.cur], Unlock(m), pc)
    ensures ClientsConsistent(UnlockCore(s, m), pcs[s.cur := pc])
  {
    hide Structure, Ranges, UnlockCore, Consistent;
    CurrentQueued(s);
    UnlockMove(cfg, s, pcs[s.cur], m, pc);
    UnlockOwners(s, m);
    var c := UnlockCore(s, m);
    forall t | 0 <= t < |pcs| && t != s.cur ensures Consistent(pcs[t], c.owned[t], c.waitingOn[t]) {
      assert Consistent(pcs[t], s.owned[t], s.waitingOn[t]);
      UnlockOther(s, m, t);
      if s.waitingOn[t] == Some(m) && c.owned[t] != s.owned[t] { Given(pcs[t], s.owned[t], m); }
    }
  }

  /** A thread's share of an unlock by another: nothing, or the mutex it waits for. */
  lemma UnlockOther(s: State, m: Mid, t: Tid)
    requires Inv(s) && m < |s.owner| && s.owner[m] == Some(s.cur) && t < |s.ready| && t != s.cur
    ensures var c := UnlockCore(s, m);
      || (c.owned[t] == s.owned[t] && c.waitingOn[t] == s.waitingOn[t])
      || (s.waitingOn[t] == Some(m) && c.owned[t] == [m] + s.owned[t] && c.waitingOn[t].None?)
  {
    if s.waiters[m] != [] { WaiterFacts(s, m, PopIndex(s.eff, s.waiters[m])); }
    hide Structure, Ranges, PopIndex, Minus;
  }

  lemma UnlockMove(cfg: Config, s: State, pc: Pc, m: Mid, pc': Pc)
    requires Inv(s) && m < |s.owner| && Named(pc, |s.owner|) && Moves(cfg, s, pc, Unlock(m), pc')
    requires Consistent(pc, s.owned[s.cur], s.waitingOn[s.cur])
    ensures s.owner[m] == Some(s.cur)
    ensures var c := UnlockCore(s, m);
      |c.owned| == |c.waitingOn| == |s.ready| && Consistent(pc', c.owned[s.cur], c.waitingOn[s.cur])
  {
    hide Structure, Ranges, UnlockCore;
    CurrentQueued(s);
    UnlockOwners(s, m);
    var c := UnlockCore(s, m);
    Nonempty(c.owned[s.cur]);
  }

  lemma Nonempty<T>(q: seq<T>)
    ensures q != [] ==> exists x :: x in q
  {
    if q != [] { assert q[0] in q; }
  }

  lemma LockConsistent(cfg: Config, s: State, pcs: seq<Pc>, m: Mid, pc: Pc)
    requires Inv(s) && ClientsConsistent(s, pcs) && Enabled(s, Lock(m)) && Next(cfg, s, Lock(m)).Running?
    requires Named(pc, |s.owner|) && Moves(cfg, s, pcs[s.cur], Lock(m), pc)
    ensures ClientsConsistent(Core(cfg, s, Lock(m)), pcs[s.cur := pc])
  {
    hide Ownership, RunQueue, MutexQueues, SemaphoreQueues, Ranges, References, RecomputedPriority, PreemptEnable,
      LockdepWalk, Next, MaxReady, RingAfter, Consistent, Moves;
    CurrentQueued(s);
    OwnedIsOwner(s);
    LockMove(cfg, s, pcs[s.cur], m, pc);
  }

  lemma OwnedIsOwner(s: State)
    requires Inv(s)
    ensures forall m :: 0 <= m < |s.owner| ==> (s.owner[m] == Some(s.cur) <==> m in s.owned[s.cur])
  {
  }

  lemma LockMove(cfg: Config, s: State, pc: Pc, m: Mid, pc': Pc)
    requires Sized(s) && Enabled(s, Lock(m)) && Named(pc, |s.owner|) && Moves(cfg, s, pc, Lock(m), pc')
    requires s.waitingOn[s.cur].None?
    requires Consistent(pc, s.owned[s.cur], None) && Named(pc', |s.owner|)
    requires forall x :: 0 <= x < |s.owner| ==> (s.owner[x] == Some(s.cur) <==> x in s.owned[s.cur])
    ensures m in s.owned[s.cur] ==> Consistent(pc', s.owned[s.cur], None)
    ensures m !in s.owned[s.cur] ==> Consistent(pc', [m] + s.owned[s.cur], None) && Consistent(pc', s.owned[s.cur], Some(m))
  {
    hide References;
    Joined(s.owned[s.cur], m);
    Nonempty(s.owned[s.cur]);
  }

  lemma MoveConsistent(cfg: Config, s: State, pcs: seq<Pc>, step: Step, pc: Pc)
    requires Inv(s) && ClientsConsistent(s, pcs) && Enabled(s, step) && Next(cfg, s, step).Running?
    requires Named(pc, |s.owner|) && Moves(cfg, s, pcs[s.cur], step, pc)
    ensures ClientsConsistent(Core(cfg, s, step), pcs[s.cur := pc])
  {
    hide Structure, Ranges, References, RecomputedPriority, PreemptEnable, UnlockCore, Wake, LockCore, BlockOnMutex,
      Consistent;
    assert Consistent(pcs[s.cur], s.owned[s.cur], s.waitingOn[s.cur]);
    CurrentQueued(s);
    if step.Lock? { LockConsistent(cfg, s, pcs, step.m, pc); }
    if step.TryLock? { TryLockMove(cfg, s, pcs[s.cur], step.m, pc); }
    if step.Unlock? { UnlockConsistent(cfg, s, pcs, step.m, pc); }
    if step.Up? { WakeOnly(s, step.k); }
  }

  lemma TryLockMove(cfg: Config, s: State, pc: Pc, m: Mid, pc': Pc)
    requires Inv(s) && m < |s.owner| && Named(pc, |s.owner|) && Moves(cfg, s, pc, TryLock(m), pc')
    requires Consistent(pc, s.owned[s.cur], None)
    ensures Consistent(pc', if s.owner[m].None? then [m] + s.owned[s.cur] else s.owned[s.cur], None)
  {
    hide RunQueue, MutexQueues, SemaphoreQueues, Ranges, PreemptEnable;
    Joined(s.owned[s.cur], m);
  }

  lemma {:induction false} ClientsAreAscending(cfg: Config, s: State, pcs: seq<Pc>, steps: seq<Step>, r: State, pcs': seq<Pc>)
    requires Inv(s) && ClientsConsistent(s, pcs) && ClientRuns(cfg, s, pcs, steps, r, pcs')
    ensures Runs(cfg, Ascending, s, steps, r) && Inv(r) && ClientsConsistent(r, pcs')
    decreases |steps|
  {
    hide Structure, Ranges, References, Next, Core, Moves, Named, Consistent, Allowed;
    if steps != [] {
      var s1 := Next(cfg, s, steps[0]).s;
      var pc :| Named(pc, |s.owner|) && Moves(cfg, s, pcs[s.cur], steps[0], pc)
        && ClientRuns(cfg, s1, pcs[s.cur := pc], steps[1..], r, pcs');
      StepKeeps(cfg, s, steps[0]);
      StepIsCore(cfg, s, steps[0]);
      MoveIsAscending(cfg, s, pcs, steps[0], pc);
      MoveConsistent(cfg, s, pcs, steps[0], pc);
      ClientsAreAscending(cfg, s1, pcs[s.cur := pc], steps[1..], r, pcs');
    }
  }

  lemma InitClients(s: State, pcs: seq<Pc>)
    requires Init(s) && |pcs| == |s.ready| && forall t :: 0 <= t < |pcs| ==> pcs[t] == Idle
    ensures ClientsConsistent(s, pcs)
  {
  }

  /** Past mutex_lock(hi) of the ordered protocol, or past a successful mutex_trylock(g), t owns both mutexes. */
  ghost predicate OwnsBoth(s: State, pc: Pc, t: Tid)
    requires Sized(s) && t < |s.ready|
  {
    && (pc.Got? ==> {pc.f, pc.g} <= OwnedBy(s, t))
    && (pc.Both? && s.waitingOn[t].None? ==> {pc.lo, pc.hi} <= OwnedBy(s, t))
  }

  ghost function OwnedBy(s: State, t: Tid): set<Mid> {
    set m | 0 <= m < |s.owner| && s.owner[m] == Some(t)
  }

  lemma BothOwned(s: State, pc: Pc, t: Tid)
    requires Inv(s) && t < |s.ready| && Consistent(pc, s.owned[t], s.waitingOn[t])
    ensures OwnsBoth(s, pc, t)
  {
    hide RunQueue, MutexQueues, SemaphoreQueues, Ranges;
  }

  /**
   * Threads that take pairs of mutexes in address order, or with try-lock and back-off, in any mixture,
   * never reach a wait-for cycle. A thread blocked by the back-off protocol owns nothing, and one that is
   * past both of its locks owns both mutexes.
   */
  lemma ProtocolsExcludeDeadlock(cfg: Config, s0: State, steps: seq<Step>, s: State, pcs: seq<Pc>)
    requires Init(s0)
    requires ClientRuns(cfg, s0, seq(|s0.ready|, i => Idle), steps, s, pcs)
    ensures Inv(s) && Acyclic(s.waitingOn, s.owner) && |pcs| == |s.ready|
    ensures forall t :: 0 <= t < |s.ready| && pcs[t].First? && s.waitingOn[t].Some? ==> s.owned[t] == []
    ensures forall t :: 0 <= t < |s.ready| ==> OwnsBoth(s, pcs[t], t)
  {
    hide Structure, Ranges, References, ClientRuns, Runs, Acyclic;
    var idle := seq(|s0.ready|, i => Idle);
    InitInv(s0);
    InitClients(s0, idle);
    ClientsAreAscending(cfg, s0, idle, steps, s, pcs);
    AscendingExcludesDeadlock(cfg, s0, steps, s);
    forall t | 0 <= t < |s.ready| && pcs[t].First? && s.waitingOn[t].Some? ensures s.owned[t] == [] {
      assert Consistent(pcs[t], s.owned[t], s.waitingOn[t]);
      Nonempty(s.owned[t]);
    }
    forall t | 0 <= t < |s.ready| ensures OwnsBoth(s, pcs[t], t) {
      assert Consistent(pcs[t], s.owned[t], s.waitingOn[t]);
      BothOwned(s, pcs[t], t);
    }
  }
}
