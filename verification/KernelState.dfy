/**
 * Scheduler, mutexes and semaphores of the single-core kernel as values.
 *
 * Every field of `struct Thread`, `mutex` and `semaphore` is a table indexed by the object, and
 * every intrusive list (run queue, wait queues, owned-mutex lists) is the sequence of its members,
 * head first. `KernelLinks.Kernel` keeps the pointers themselves and refines the functions below.
 *
 * Each section the source brackets with preempt_disable/preempt_enable is one step: a tick returns
 * early while the preemption count is non-zero, and no switch happens inside.
 */
module KernelState {
  import opened Prelude

  type Tid = nat
  type Mid = nat
  type Sid = nat

  const MAX_PRIORITY := 31
  const QUANTUM_TICKS := 5
  const NEED_NONE: nat := 0
  const NEED_NORMAL: nat := 1
  const NEED_ROTATE: nat := 2
  const LOCKDEP_DEPTH: nat := 16

  /**
   * Build-time choices. `repaired` is the one deviation from the source: it makes
   * sched_block_current leave `wait_next` alone, as the two callers that just stored it intend.
   */
  datatype Config = Config(prio: bool, pi: bool, lockdep: bool, repaired: bool)

  datatype State = State(
    // struct Thread
    ready: seq<bool>,
    waitingOn: seq<Option<Mid>>,
    owned: seq<seq<Mid>>,
    base: seq<int>,
    eff: seq<int>,
    budget: seq<int>,
    inTail: seq<bool>,  // switched out inside sched_resched_from_irq_tail, so need_resched is cleared on resume
    // struct mutex
    owner: seq<Option<Tid>>,
    waiters: seq<seq<Tid>>,
    piOn: seq<bool>,
    // struct semaphore
    count: seq<int>,
    sleepers: seq<seq<Tid>>,
    // scheduler globals and cpu_local
    rq: seq<Tid>,
    cur: Tid,
    need: nat)

  ghost predicate Below(q: seq<nat>, n: nat) {
    forall i :: 0 <= i < |q| ==> q[i] < n
  }

  /** All tables have the right length and every reference names an existing object. */
  ghost predicate Sized(s: State) {
    Lengths(s) && References(s)
  }

  ghost predicate Lengths(s: State) {
    && |s.waitingOn| == |s.owned| == |s.base| == |s.eff| == |s.budget| == |s.inTail| == |s.ready|
    && |s.waiters| == |s.piOn| == |s.owner|
    && |s.sleepers| == |s.count|
    && s.cur < |s.ready|
  }

  ghost predicate References(s: State)
    requires Lengths(s)
  {
    && Below(s.rq, |s.ready|)
    && (forall t :: 0 <= t < |s.ready| ==> Below(s.owned[t], |s.owner|))
    && (forall t :: 0 <= t < |s.ready| && s.waitingOn[t].Some? ==> s.waitingOn[t].value < |s.owner|)
    && (forall m :: 0 <= m < |s.owner| ==> Below(s.waiters[m], |s.ready|))
    && (forall m :: 0 <= m < |s.owner| && s.owner[m].Some? ==> s.owner[m].value < |s.ready|)
    && (forall k :: 0 <= k < |s.count| ==> Below(s.sleepers[k], |s.ready|))
  }

  // ---- Priorities ----

  function ClampPriority(p: int): int {
    if p < 0 then 0 else if p > MAX_PRIORITY then MAX_PRIORITY else p
  }

  function SetEffective(base: int, p: int): int {
    Max(ClampPriority(p), base)
  }

  /** waitq_max_priority. */
  function MaxWaiterPriority(eff: seq<int>, q: seq<Tid>): (r: int)
    requires Below(q, |eff|)
    ensures r >= -1 && forall t :: t in q ==> eff[t] <= r
    ensures r == -1 || exists t :: t in q && eff[t] == r
  {
    if q == [] then -1
    else
      assert forall x :: x in q[1..] ==> x in q;
      var rest := MaxWaiterPriority(eff, q[1..]);
      assert forall t :: t in q ==> t == q[0] || t in q[1..];
      assert q[0] in q;
      Max(eff[q[0]], rest)
  }

  /** The loop of recompute_effective_priority over the owned mutexes `ms`, from the value `e`. */
  function Inherited(s: State, ms: seq<Mid>, e: int): (r: int)
    requires Sized(s) && Below(ms, |s.owner|)
    ensures r >= e
  {
    if ms == [] then e
    else
      assert ms[0] in ms && forall x :: x in ms[1..] ==> x in ms;
      var w := if s.piOn[ms[0]] then MaxWaiterPriority(s.eff, s.waiters[ms[0]]) else e;
      Inherited(s, ms[1..], Max(e, w))
  }

  function RecomputedPriority(cfg: Config, s: State, t: Tid): int
    requires Sized(s) && t < |s.ready|
  {
    SetEffective(s.base[t], if cfg.pi then Inherited(s, s.owned[t], s.base[t]) else s.base[t])
  }

  function Recompute(cfg: Config, s: State, t: Tid): (r: State)
    requires Sized(s) && t < |s.ready|
    ensures Sized(r)
  {
    s.(eff := s.eff[t := RecomputedPriority(cfg, s, t)])
  }

  function ApplyPi(cfg: Config, s: State, m: Mid): (r: State)
    requires Sized(s) && m < |s.owner|
    ensures Sized(r)
  {
    if s.piOn[m] && s.owner[m].Some? then Recompute(cfg, s, s.owner[m].value) else s
  }

  /** Position waitq_pop_highest removes: the first thread of maximal effective priority. */
  function PopIndex(eff: seq<int>, q: seq<Tid>): (i: nat)
    requires q != [] && Below(q, |eff|)
    ensures i < |q|
    ensures forall k :: 0 <= k < |q| ==> eff[q[k]] <= eff[q[i]]
    ensures forall k :: 0 <= k < i ==> eff[q[k]] < eff[q[i]]
  {
    if |q| == 1 then 0
    else
      var front := q[..|q| - 1];
      assert forall x :: x in front ==> x in q;
      var i := PopIndex(eff, front);
      assert forall k :: 0 <= k < |front| ==> front[k] == q[k];
      if eff[q[|q| - 1]] > eff[q[i]] then |q| - 1 else i
  }

  // ---- Run queue and choice ----

  predicate IsBest(s: State, t: Tid, best: int)
    requires Sized(s) && t < |s.ready|
  {
    s.ready[t] && s.eff[t] == best
  }

  /** rq_max_ready_priority over the queue `q`. */
  function MaxReady(s: State, q: seq<Tid>): (r: int)
    requires Sized(s) && Below(q, |s.ready|)
    ensures r >= -1
    ensures forall t :: t in q && s.ready[t] ==> s.eff[t] <= r
    ensures r > -1 ==> exists t :: t in q && IsBest(s, t, r)
  {
    if q == [] then -1
    else
      assert q[0] in q && (forall x :: x in q[1..] ==> x in q) && forall t :: t in q ==> t == q[0] || t in q[1..];
      var rest := MaxReady(s, q[1..]);
      if s.ready[q[0]] && s.eff[q[0]] > rest then
        assert IsBest(s, q[0], s.eff[q[0]]);
        s.eff[q[0]]
      else rest
  }

  /** First thread of `q` that is ready at priority `best` and is not the excluded one. */
  function FirstBest(s: State, q: seq<Tid>, best: int, excluded: Option<Tid>): (r: Option<Tid>)
    requires Sized(s) && Below(q, |s.ready|)
    ensures r.Some? ==> r.value in q && IsBest(s, r.value, best) && excluded != r
    ensures r.None? ==> forall t :: t in q && IsBest(s, t, best) ==> excluded == Some(t)
  {
    if q == [] then None
    else
      assert q[0] in q && (forall x :: x in q[1..] ==> x in q) && forall t :: t in q ==> t == q[0] || t in q[1..];
      if IsBest(s, q[0], best) && excluded != Some(q[0]) then Some(q[0])
      else FirstBest(s, q[1..], best, excluded)
  }

  /** The ring read once round, starting just after `t` (or at the head when `t` is not queued). */
  function RingAfter(q: seq<Tid>, t: Tid): (r: seq<Tid>)
    ensures forall x :: x in r <==> x in q
    ensures |r| == |q|
  {
    var i := IndexOf(q, t);
    if i < |q| then
      assert q == q[..i + 1] + q[i + 1..];
      q[i + 1..] + q[..i + 1]
    else q
  }

  /** prio_pick_next with a non-null current thread. */
  function PickNext(s: State, exclude: bool, rotate: bool): (r: Tid)
    requires Sized(s)
    ensures r < |s.ready|
  {
    var best := MaxReady(s, s.rq);
    if s.rq == [] || best < 0 then s.cur
    else if !exclude && !rotate && IsBest(s, s.cur, best) then s.cur
    else
      var order := if exclude || rotate then RingAfter(s.rq, s.cur) else s.rq;
      match FirstBest(s, order, best, if exclude then Some(s.cur) else None)
      case Some(t) => t
      case None =>
        assert s.rq[0] in s.rq;
        if IsBest(s, s.cur, best) then s.cur else s.rq[0]
  }

  /** do_switch; a thread that left through the reschedule tail clears need_resched when it resumes. */
  function SwitchTo(s: State, next: Tid, viaTail: bool): (r: State)
    requires Sized(s) && next < |s.ready|
    ensures Sized(r)
  {
    s.(inTail := s.inTail[s.cur := viaTail], cur := next, need := if s.inTail[next] then NEED_NONE else s.need)
  }

  function ReschedChoice(cfg: Config, s: State): (r: Tid)
    requires Sized(s)
    ensures r < |s.ready|
  {
    if cfg.prio then PickNext(s, s.need == NEED_ROTATE, s.need == NEED_ROTATE)
    else if s.rq == [] then s.cur
    else
      assert s.rq[0] in s.rq && RingAfter(s.rq, s.cur)[0] in RingAfter(s.rq, s.cur);
      if s.ready[s.cur] then RingAfter(s.rq, s.cur)[0] else s.rq[0]
  }

  /** sched_resched_from_irq_tail with preempt_cnt == 0. */
  function Resched(cfg: Config, s: State): (r: State)
    requires Sized(s)
    ensures Sized(r)
  {
    var next := ReschedChoice(cfg, s);
    if next == s.cur then s.(need := NEED_NONE) else SwitchTo(s, next, true)
  }

  /** The preempt_enable that brings preempt_cnt back to zero outside IRQs; also preempt_return. */
  function PreemptEnable(cfg: Config, s: State): (r: State)
    requires Sized(s)
    ensures Sized(r)
  {
    if s.need != NEED_NONE then Resched(cfg, s) else s
  }

  function ThreadYield(cfg: Config, s: State): (r: State)
    requires Sized(s)
    ensures Sized(r)
  {
    var next :=
      if cfg.prio then PickNext(s, true, true)
      else if s.cur in s.rq then
        assert RingAfter(s.rq, s.cur)[0] in RingAfter(s.rq, s.cur);
        RingAfter(s.rq, s.cur)[0]
      else s.cur;
    if next == s.cur then s else SwitchTo(s, next, false)
  }

  /** sched_on_tick with preempt_cnt == 0 and an intact stack guard. */
  function SchedOnTick(cfg: Config, s: State): (r: State)
    requires Sized(s)
    ensures Sized(r)
  {
    if cfg.prio && (!s.ready[s.cur] || MaxReady(s, s.rq) > s.eff[s.cur]) then s.(need := NEED_NORMAL)
    else
      var b := if s.budget[s.cur] > 0 then s.budget[s.cur] - 1 else s.budget[s.cur];
      if b <= 0 then
        s.(budget := s.budget[s.cur := QUANTUM_TICKS], need := if cfg.prio then NEED_ROTATE else NEED_NORMAL)
      else s.(budget := s.budget[s.cur := b])
  }

  function Block(s: State): (r: State)
    requires Sized(s)
    ensures Sized(r)
  {
    assert forall x :: x in Minus(s.rq, s.cur) ==> x in s.rq;
    s.(rq := Minus(s.rq, s.cur), ready := s.ready[s.cur := false])
  }

  function MakeRunnable(s: State, t: Tid): (r: State)
    requires Sized(s) && t < |s.ready|
    ensures Sized(r)
  {
    if s.ready[t] then s
    else s.(ready := s.ready[t := true], budget := s.budget[t := QUANTUM_TICKS], rq := s.rq + [t])
  }

  /** What is left of a wait queue once the current thread, just pushed, has been blocked. */
  function AfterBlock(cfg: Config, cur: Tid, q: seq<Tid>): seq<Tid> {
    if cfg.repaired then [cur] + q else [cur]
  }

  // ---- Lockdep ----

  /** The owner of the mutex t waits on: one hop of the thread -> waiting_on -> owner graph. */
  function Blocker(waitingOn: seq<Option<Mid>>, owner: seq<Option<Tid>>, t: Tid): Option<Tid> {
    if t < |waitingOn| && waitingOn[t].Some? && waitingOn[t].value < |owner| then owner[waitingOn[t].value] else None
  }

  /** lockdep_would_deadlock from the owner o, `left` owners before the bound. */
  predicate LockdepWalk(waitingOn: seq<Option<Mid>>, owner: seq<Option<Tid>>, c: Tid, o: Option<Tid>, left: nat)
    decreases left
  {
    left > 0 && o.Some? &&
    (o.value == c || LockdepWalk(waitingOn, owner, c, Blocker(waitingOn, owner, o.value), left - 1))
  }

  // ---- Mutexes and semaphores ----

  datatype Outcome = Running(s: State) | Halted

  /** The acquiring branch of mutex_lock and mutex_trylock. */
  function Acquire(s: State, m: Mid): (r: State)
    requires Sized(s) && m < |s.owner|
    ensures Sized(r)
  {
    s.(owner := s.owner[m := Some(s.cur)], owned := s.owned[s.cur := [m] + s.owned[s.cur]],
       waitingOn := s.waitingOn[s.cur := None])
  }

  /** The blocking branch of mutex_lock up to preempt_enable. */
  function BlockOnMutex(cfg: Config, s: State, m: Mid): (r: State)
    requires Sized(s) && m < |s.owner|
    ensures Sized(r)
  {
    var s1 := s.(waitingOn := s.waitingOn[s.cur := Some(m)], waiters := s.waiters[m := [s.cur] + s.waiters[m]]);
    var s2 := ApplyPi(cfg, s1, m);
    Block(s2).(waiters := s2.waiters[m := AfterBlock(cfg, s.cur, s.waiters[m])], need := NEED_NORMAL)
  }

  function MutexLock(cfg: Config, s: State, m: Mid): (r: Outcome)
    requires Sized(s) && m < |s.owner|
    ensures r.Running? ==> Sized(r.s)
  {
    if s.owner[m] == Some(s.cur) then
      Running(PreemptEnable(cfg, s.(waitingOn := s.waitingOn[s.cur := None])))
    else if s.owner[m].None? then Running(PreemptEnable(cfg, Acquire(s, m)))
    else if cfg.lockdep && LockdepWalk(s.waitingOn, s.owner, s.cur, s.owner[m], LOCKDEP_DEPTH) then Halted
    else Running(PreemptEnable(cfg, BlockOnMutex(cfg, s, m)))
  }

  /** The new state and whether the lock is held on return. */
  function MutexTryLock(cfg: Config, s: State, m: Mid): (r: (State, bool))
    requires Sized(s) && m < |s.owner|
    ensures Sized(r.0)
  {
    if s.owner[m].None? then (PreemptEnable(cfg, Acquire(s, m)), true)
    else if s.owner[m] == Some(s.cur) then
      (PreemptEnable(cfg, s.(waitingOn := s.waitingOn[s.cur := None])), true)
    else (PreemptEnable(cfg, s), false)
  }

  /** Waiter number i of m owns it in place of the current thread. */
  function Pass(s: State, m: Mid, i: nat): (r: State)
    requires Sized(s) && m < |s.owner| && i < |s.waiters[m]|
    ensures Sized(r) && |r.ready| == |s.ready|
  {
    var q := s.waiters[m];
    var n := q[i];
    assert n in q && forall x :: x in Without(q, i) ==> x in q;
    var owned1 := Release(s, m).owned;
    s.(owner := s.owner[m := Some(n)], waiters := s.waiters[m := Without(q, i)],
       waitingOn := s.waitingOn[n := None], owned := owned1[n := [m] + owned1[n]])
  }

  /** The current thread gives m to waiter number i, up to the priority recomputations. */
  function HandOff(s: State, m: Mid, i: nat): (r: State)
    requires Sized(s) && m < |s.owner| && i < |s.waiters[m]|
    ensures Sized(r)
  {
    assert s.waiters[m][i] in s.waiters[m];
    MakeRunnable(Pass(s, m, i), s.waiters[m][i])
  }

  function Release(s: State, m: Mid): (r: State)
    requires Sized(s) && m < |s.owner|
    ensures Sized(r)
  {
    assert forall x :: x in Minus(s.owned[s.cur], m) ==> x in s.owned[s.cur];
    s.(owner := s.owner[m := None], owned := s.owned[s.cur := Minus(s.owned[s.cur], m)])
  }

  function RaiseNeed(s: State, t: Tid): (r: State)
    requires Sized(s) && t < |s.ready|
    ensures Sized(r)
  {
    if s.eff[t] > s.eff[s.cur] then s.(need := NEED_NORMAL) else s
  }

  /** mutex_unlock by the owner, up to preempt_enable. */
  function UnlockOwned(cfg: Config, s: State, m: Mid): (r: State)
    requires Sized(s) && m < |s.owner|
    ensures Sized(r)
  {
    if s.waiters[m] == [] then Recompute(cfg, Release(s, m), s.cur)
    else
      var i := PopIndex(s.eff, s.waiters[m]);
      var n := s.waiters[m][i];
      assert n in s.waiters[m];
      RaiseNeed(Recompute(cfg, ApplyPi(cfg, HandOff(s, m, i), m), s.cur), n)
  }

  function MutexUnlock(cfg: Config, s: State, m: Mid): (r: State)
    requires Sized(s) && m < |s.owner|
    ensures Sized(r)
  {
    PreemptEnable(cfg, if s.owner[m] == Some(s.cur) then UnlockOwned(cfg, s, m) else s)
  }

  function MutexSetPi(cfg: Config, s: State, m: Mid, on: bool): (r: State)
    requires Sized(s) && m < |s.owner|
    ensures Sized(r)
  {
    var s1 := s.(piOn := s.piOn[m := on]);
    PreemptEnable(cfg, if s.owner[m].Some? then Recompute(cfg, s1, s.owner[m].value) else s1)
  }

  function SemDown(cfg: Config, s: State, k: Sid): (r: State)
    requires Sized(s) && k < |s.count|
    ensures Sized(r)
  {
    var s1 := s.(count := s.count[k := s.count[k] - 1]);
    PreemptEnable(cfg, if s1.count[k] >= 0 then s1 else BlockOnSemaphore(cfg, s1, k))
  }

  function BlockOnSemaphore(cfg: Config, s: State, k: Sid): (r: State)
    requires Sized(s) && k < |s.count|
    ensures Sized(r)
  {
    Block(s.(waitingOn := s.waitingOn[s.cur := None]))
      .(sleepers := s.sleepers[k := AfterBlock(cfg, s.cur, s.sleepers[k])], need := NEED_NORMAL)
  }

  /** Wakes sleeper number i of semaphore k. */
  function Wake(s: State, k: Sid, i: nat): (r: State)
    requires Sized(s) && k < |s.count| && i < |s.sleepers[k]|
    ensures Sized(r)
  {
    var q := s.sleepers[k];
    assert q[i] in q && forall x :: x in Without(q, i) ==> x in q;
    RaiseNeed(MakeRunnable(s.(sleepers := s.sleepers[k := Without(q, i)]), q[i]), q[i])
  }

  function SemUp(cfg: Config, s: State, k: Sid): (r: State)
    requires Sized(s) && k < |s.count|
    ensures Sized(r)
  {
    var s1 := s.(count := s.count[k := s.count[k] + 1]);
    PreemptEnable(cfg,
      if s1.count[k] <= 0 && s1.sleepers[k] != [] then Wake(s1, k, PopIndex(s1.eff, s1.sleepers[k])) else s1)
  }

  // ---- Steps and runs ----

  datatype Step =
    | Lock(m: Mid) | TryLock(m: Mid) | Unlock(m: Mid) | SetPi(m: Mid, on: bool)
    | Down(k: Sid) | Up(k: Sid)
    | Yield | Tick | PreemptPair

  /** Does the step put the current thread to sleep? */
  predicate Blocks(s: State, step: Step)
    requires Sized(s)
  {
    match step
    case Lock(m) => m < |s.owner| && s.owner[m].Some? && s.owner[m] != Some(s.cur)
    case Down(k) => k < |s.count| && s.count[k] <= 0
    case _ => false
  }

  /** The objects exist, and some other thread is READY when the caller blocks. */
  predicate Enabled(s: State, step: Step)
    requires Sized(s)
  {
    && (step.Lock? || step.TryLock? || step.Unlock? || step.SetPi? ==> step.m < |s.owner|)
    && (step.Down? || step.Up? ==> step.k < |s.count|)
    && (Blocks(s, step) ==> |s.rq| >= 2)
  }

  function Next(cfg: Config, s: State, step: Step): (r: Outcome)
    requires Sized(s) && Enabled(s, step)
    ensures r.Running? ==> Sized(r.s)
  {
    match step
    case Lock(m) => MutexLock(cfg, s, m)
    case TryLock(m) => Running(MutexTryLock(cfg, s, m).0)
    case Unlock(m) => Running(MutexUnlock(cfg, s, m))
    case SetPi(m, on) => Running(MutexSetPi(cfg, s, m, on))
    case Down(k) => Running(SemDown(cfg, s, k))
    case Up(k) => Running(SemUp(cfg, s, k))
    case Yield => Running(ThreadYield(cfg, s))
    case Tick => Running(PreemptEnable(cfg, SchedOnTick(cfg, s)))
    case PreemptPair => Running(PreemptEnable(cfg, s))
  }

  /** Client disciplines under which some of the results hold. */
  datatype Discipline = AnyClient | NoNesting | Ascending

  predicate Allowed(d: Discipline, s: State, step: Step)
    requires Sized(s)
  {
    match d
    case AnyClient => true
    case NoNesting => step.Lock? && Blocks(s, step) ==> s.owned[s.cur] == []
    case Ascending => step.Lock? && Blocks(s, step) ==> forall x :: x in s.owned[s.cur] ==> x < step.m
  }

  /** `steps`, taken from s under discipline d, run to s' without lockdep halting the machine. */
  ghost predicate Runs(cfg: Config, d: Discipline, s: State, steps: seq<Step>, s': State)
    requires Sized(s)
    decreases |steps|
  {
    if steps == [] then s == s'
    else
      && Enabled(s, steps[0])
      && Allowed(d, s, steps[0])
      && Next(cfg, s, steps[0]).Running?
      && Runs(cfg, d, Next(cfg, s, steps[0]).s, steps[1..], s')
  }

  /** After the threads were added and sched_start picked one: nothing owned, nobody waiting. */
  ghost predicate Init(s: State) {
    && Sized(s)
    && (forall t :: 0 <= t < |s.ready| ==>
          && s.ready[t] && s.waitingOn[t].None? && s.owned[t] == [] && !s.inTail[t]
          && 0 <= s.base[t] <= MAX_PRIORITY && s.eff[t] == s.base[t] && s.budget[t] == QUANTUM_TICKS)
    && (forall m :: 0 <= m < |s.owner| ==> s.owner[m].None? && s.waiters[m] == [])
    && (forall k :: 0 <= k < |s.count| ==> s.count[k] >= 0 && s.sleepers[k] == [])
    && Distinct(s.rq)
    && (forall t :: 0 <= t < |s.ready| ==> t in s.rq)
    && s.need == NEED_NONE
  }
}
