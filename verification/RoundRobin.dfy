/** The default policy: the run queue is a circle, and the processor goes round it a quantum at a time. */
module RoundRobin {
  import opened Prelude
  import opened KernelState
  import opened KernelInvariant
  import opened Schedules
  import opened Rotation

  /** The thread after position i of the circle q. */
  function After(q: seq<Tid>, i: nat): Tid
    requires i < |q|
  {
    q[if i + 1 < |q| then i + 1 else 0]
  }

  lemma RingStartsAfter(q: seq<Tid>, i: nat)
    requires Distinct(q) && i < |q|
    ensures RingAfter(q, q[i]) != [] && RingAfter(q, q[i])[0] == After(q, i)
  {
    RingAfterAt(q, i);
  }

  /**
   * The reschedule tail, once asked for: the thread after the current one in the circle, or the head of the
   * queue when the current thread has just left it.
   */
  lemma TailMovesOn(cfg: Config, s: State)
    requires !cfg.prio && Sized(s) && RunQueue(s.rq, s.ready) && s.rq != [] && s.need != NEED_NONE
    ensures !s.ready[s.cur] ==> PreemptEnable(cfg, s).cur == s.rq[0]
    ensures forall i :: 0 <= i < |s.rq| && s.rq[i] == s.cur ==> PreemptEnable(cfg, s).cur == After(s.rq, i)
  {
    hide RingAfter;
    if i :| 0 <= i < |s.rq| && s.rq[i] == s.cur {
      assert s.cur in s.rq;
      RingStartsAfter(s.rq, i);
    }
  }

  /** A thread that goes to sleep leaves the processor to the head of the queue. */
  lemma SleepGoesToHead(cfg: Config, s: State, step: Step)
    requires !cfg.prio && Inv(s) && Enabled(s, step) && Blocks(s, step) && Next(cfg, s, step).Running?
    ensures var r := Next(cfg, s, step).s; r.rq == Minus(s.rq, s.cur) && r.rq != [] && r.cur == r.rq[0]
  {
    hide Structure, Ranges, References, PreemptEnable, BlockOnMutex, BlockOnSemaphore, LockdepWalk;
    match step
    case Lock(m) =>
      BlockOnMutexKeeps(cfg, s, m);
      SleptMutex(cfg, s, m);
      SleptTail(cfg, BlockOnMutex(cfg, s, m));
    case Down(k) =>
      var c := s.(count := s.count[k := s.count[k] - 1]);
      CountKeeps(s, k, s.count[k] - 1);
      BlockOnSemaphoreKeeps(cfg, c, k);
      SleptSemaphore(cfg, c, k);
      SleptTail(cfg, BlockOnSemaphore(cfg, c, k));
  }

  lemma SleptTail(cfg: Config, b: State)
    requires !cfg.prio && Sized(b) && Structure(b) && Ranges(b) && b.rq != [] && b.need != NEED_NONE && !b.ready[b.cur]
    ensures PreemptEnable(cfg, b).rq == b.rq && PreemptEnable(cfg, b).cur == b.rq[0]
  {
    hide Ranges, PreemptEnable, RunQueue, MutexQueues, SemaphoreQueues, Ownership;
    TailMovesOn(cfg, b);
    PreemptEnableSame(cfg, b);
  }

  lemma SleptMutex(cfg: Config, s: State, m: Mid)
    requires Sized(s) && m < |s.owner|
    ensures var b := BlockOnMutex(cfg, s, m); b.rq == Minus(s.rq, s.cur) && b.cur == s.cur && !b.ready[b.cur]
  {
    hide References, RecomputedPriority, Minus;
  }

  lemma SleptSemaphore(cfg: Config, s: State, k: Sid)
    requires Sized(s) && k < |s.count|
    ensures var b := BlockOnSemaphore(cfg, s, k); b.rq == Minus(s.rq, s.cur) && b.cur == s.cur && !b.ready[b.cur]
  {
    hide References, Minus;
  }

  // ---- Ticks, yields and preempt_enables ----

  /** A yield, a tick that uses up the budget, and whatever finds a reschedule pending. */
  predicate GoesOn(s: State, step: Step)
    requires Sized(s)
  {
    step.Yield? || s.need != NEED_NONE || (step.Tick? && s.budget[s.cur] <= 1)
  }

  /**
   * Exactly what such a step does under RR: the processor goes to the next thread of the circle if and only
   * if the step goes on, the current budget is spent by a tick alone, and nothing else of either moves.
   */
  lemma StepRound(cfg: Config, s: State, step: Step, i: nat)
    requires !cfg.prio && Inv(s) && IsTurn(step) && i < |s.rq| && s.rq[i] == s.cur
    ensures Enabled(s, step) && Next(cfg, s, step).Running?
    ensures var r := Next(cfg, s, step).s;
      && Inv(r) && SameStructure(s, r)
      && r.cur == (if GoesOn(s, step) then After(s.rq, i) else s.cur)
      && r.budget == (if step.Tick? then s.budget[s.cur := Spent(s.budget[s.cur])] else s.budget)
      && (!GoesOn(s, step) ==> r.need == NEED_NONE)
  {
    hide MutexQueues, SemaphoreQueues, Ownership, References, PreemptEnable, ThreadYield, SchedOnTick, RunQueue;
    StepKeeps(cfg, s, step);
    StepIsCore(cfg, s, step);
    match step
    case Yield =>
      OneYield(s, cfg);
      YieldBudget(cfg, s);
      SameIndex(s, i);
    case Tick =>
      TickKeeps(cfg, s);
      TickSpends(cfg, s);
      TailRound(cfg, SchedOnTick(cfg, s), i);
    case PreemptPair =>
      TailRound(cfg, s, i);
  }

  lemma SameIndex(s: State, i: nat)
    requires Inv(s) && i < |s.rq| && s.rq[i] == s.cur
    ensures IndexOf(s.rq, s.cur) == i
  {
    IndexUnique(s.rq, IndexOf(s.rq, s.cur), i);
  }

  lemma YieldBudget(cfg: Config, s: State)
    requires Sized(s)
    ensures ThreadYield(cfg, s).budget == s.budget
  {
    hide PickNext;
  }

  /** sched_on_tick under RR: a reschedule is asked for if and only if the budget is used up. */
  lemma TickSpends(cfg: Config, s: State)
    requires !cfg.prio && Inv(s)
    ensures SchedOnTick(cfg, s)
         == s.(budget := s.budget[s.cur := Spent(s.budget[s.cur])],
               need := if s.budget[s.cur] == 1 then NEED_NORMAL else s.need)
  {
    hide Structure;
  }

  lemma TailRound(cfg: Config, s: State, i: nat)
    requires !cfg.prio && Inv(s) && i < |s.rq| && s.rq[i] == s.cur
    ensures var r := PreemptEnable(cfg, s);
      r.budget == s.budget && (if s.need == NEED_NONE then r == s else r.cur == After(s.rq, i))
  {
    hide MutexQueues, SemaphoreQueues, Ownership, References, ReschedChoice;
    if s.need != NEED_NONE { TailMovesOn(cfg, s); }
  }

  // ---- How long a thread waits ----

  /** Ticks the thread at position j may still have to wait: a quantum per thread between, and the current one's rest. */
  ghost function Waiting(s: State, i: nat, j: nat): int
    requires Sized(s) && i < |s.rq| && j < |s.rq|
  {
    QUANTUM_TICKS * ((if i < j then j - i else |s.rq| + j - i) - 1) + s.budget[s.cur]
  }

  lemma {:induction false} WaitsInLine(cfg: Config, s: State, steps: seq<Step>, i: nat, j: nat)
    requires !cfg.prio && Inv(s) && i < |s.rq| && s.rq[i] == s.cur && j < |s.rq|
    requires forall k :: 0 <= k < |steps| ==> IsTurn(steps[k])
    requires i == j || Ticks(steps) >= Waiting(s, i, j)
    ensures GetsToRun(cfg, s, steps, s.rq[j])
    decreases |steps|
  {
    hide Structure, References, Next, Enabled, GoesOn;
    if i != j {
      BudgetIn(s);
      StepRound(cfg, s, steps[0], i);
      var r := Next(cfg, s, steps[0]).s;
      BudgetIn(r);
      assert forall k :: 0 <= k < |steps[1..]| ==> IsTurn(steps[1..][k]);
      var i' := if GoesOn(s, steps[0]) then (if i + 1 < |s.rq| then i + 1 else 0) else i;
      assert r.rq[i'] == r.cur;
      WaitShrinks(cfg, s, steps[0], i, i', j);
      WaitsInLine(cfg, r, steps[1..], i', j);
    }
  }

  lemma WaitShrinks(cfg: Config, s: State, step: Step, i: nat, i': nat, j: nat)
    requires !cfg.prio && Inv(s) && IsTurn(step) && i < |s.rq| && s.rq[i] == s.cur && j < |s.rq| && i != j
    requires i' == if GoesOn(s, step) then (if i + 1 < |s.rq| then i + 1 else 0) else i
    ensures Enabled(s, step) && Next(cfg, s, step).Running?
    ensures var r := Next(cfg, s, step).s;
      && Inv(r) && r.rq == s.rq && (i' == j || Waiting(r, i', j) <= Waiting(s, i, j) - if step.Tick? then 1 else 0)
  {
    hide Structure, References, Next, Enabled;
    StepRound(cfg, s, step, i);
    BudgetIn(s);
    BudgetIn(Next(cfg, s, step).s);
  }

  lemma BudgetIn(s: State)
    requires Inv(s)
    ensures 1 <= s.budget[s.cur] <= QUANTUM_TICKS
  {
  }

  /**
   * With k READY threads each of them runs within 5*(k-1) ticks, however yields and preempt_enables are
   * interleaved, while nobody blocks or wakes.
   */
  lemma RoundRobinBound(cfg: Config, s: State, steps: seq<Step>, t: Tid)
    requires !cfg.prio && Inv(s) && t < |s.ready| && s.ready[t]
    requires forall k :: 0 <= k < |steps| ==> IsTurn(steps[k])
    requires Ticks(steps) >= QUANTUM_TICKS * (|s.rq| - 1)
    ensures GetsToRun(cfg, s, steps, t)
  {
    hide MutexQueues, SemaphoreQueues, Ownership, References, GetsToRun;
    CurrentQueued(s);
    BudgetIn(s);
    assert t in s.rq;
    var i :| 0 <= i < |s.rq| && s.rq[i] == s.cur;
    var j :| 0 <= j < |s.rq| && s.rq[j] == t;
    WaitsInLine(cfg, s, steps, i, j);
  }

  // ---- How long a thread keeps the processor ----

  /** With no reschedule pending a thread keeps the processor until a tick uses up its budget. */
  lemma {:induction false} KeepsQuantum(cfg: Config, s: State, steps: seq<Step>, r: State)
    requires !cfg.prio && Inv(s) && s.need == NEED_NONE && Runs(cfg, AnyClient, s, steps, r)
    requires forall k :: 0 <= k < |steps| ==> steps[k].Tick? || steps[k].PreemptPair?
    requires Ticks(steps) < s.budget[s.cur]
    ensures Inv(r) && SameStructure(s, r) && r.cur == s.cur && r.need == NEED_NONE
    ensures r.budget[r.cur] == s.budget[s.cur] - Ticks(steps)
    decreases |steps|
  {
    hide Structure, Ranges, References, Next, Enabled;
    if steps != [] {
      CurrentQueued(s);
      var i :| 0 <= i < |s.rq| && s.rq[i] == s.cur;
      StepRound(cfg, s, steps[0], i);
      KeepsQuantum(cfg, Next(cfg, s, steps[0]).s, steps[1..], r);
    }
  }
}
