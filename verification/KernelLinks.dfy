/**
 * The scheduler and the synchronisation primitives over their intrusive lists, as the source has them.
 *
 * Every field of `struct Thread`, `mutex` and `semaphore` is a table; an object is its index and a null
 * pointer is None. Methods follow links with loops; the ghost sequences say what the links spell, and
 * each method is proved to take `St()` where the functions of KernelState say.
 */
module KernelLinks {
  import opened Prelude
  import opened KernelState
  import opened KernelInvariant
  import opened Links
  import Outcomes

  class Kernel {
    const cfg: Config

    // struct Thread
    var next: seq<Link>
    var ready: seq<bool>
    var base: seq<int>
    var eff: seq<int>
    var budget: seq<int>
    var waitNext: seq<Link>
    var waitingOn: seq<Option<Mid>>
    var ownedHead: seq<Link>
    var inTail: seq<bool>  // the saved return address lies in sched_resched_from_irq_tail
    // struct mutex
    var owner: seq<Option<Tid>>
    var waiterHead: seq<Link>
    var ownerNext: seq<Link>
    var piOn: seq<bool>
    // struct semaphore
    var count: seq<int>
    var sleeperHead: seq<Link>
    // run queue and cpu_local
    var rqHead: Link
    var rqTail: Link
    var cur: Tid
    var preemptCnt: nat
    var need: nat
    var irqDepth: nat
    // what the links spell
    ghost var rq: seq<Tid>
    ghost var waiters: seq<seq<Tid>>
    ghost var sleepers: seq<seq<Tid>>
    ghost var owned: seq<seq<Mid>>

    ghost function St(): State
      reads this
    {
      State(ready, waitingOn, owned, base, eff, budget, inTail, owner, waiters, piOn, count, sleepers, rq, cur, need)
    }

    ghost predicate Tables()
      reads `next, `ready, `waitNext, `ownerNext, `owner
    {
      |next| == |ready| && |waitNext| == |ready| && |ownerNext| == |owner|
    }

    ghost predicate RunQueueLinked()
      reads `next, `rqHead, `rqTail, `rq
    {
      && Distinct(rq) && Ring(next, rqHead, rqTail, rq)
      && (forall t :: 0 <= t < |next| && t !in rq ==> next[t] == None)
    }

    ghost predicate WaitQueuesLinked()
      reads `waitNext, `waiterHead, `waiters, `sleeperHead, `sleepers
    {
      && |waiterHead| == |waiters| && |sleeperHead| == |sleepers|
      && (forall m :: 0 <= m < |waiters| ==> Chain(waitNext, waiterHead[m], waiters[m]))
      && (forall k :: 0 <= k < |sleepers| ==> Chain(waitNext, sleeperHead[k], sleepers[k]))
    }

    ghost predicate OwnedLinked()
      reads `ownerNext, `ownedHead, `owned
    {
      && |ownedHead| == |owned|
      && (forall t :: 0 <= t < |owned| ==> Chain(ownerNext, ownedHead[t], owned[t]))
    }

    ghost predicate Linked()
      reads `next, `ready, `waitNext, `ownerNext, `owner, `rqHead, `rqTail, `rq, `waiterHead, `waiters,
        `sleeperHead, `sleepers, `ownedHead, `owned
    {
      Tables() && RunQueueLinked() && WaitQueuesLinked() && OwnedLinked()
    }

    /** Between two steps: links in order, the invariant of every run, preemption enabled, no IRQ. */
    ghost predicate Valid()
      reads this
    {
      Linked() && Inv(St()) && preemptCnt == 0 && irqDepth == 0
    }

    // ---- Start-up ----

    /** Threads of the given priorities, mutexes and semaphores, as created, initialised and added in order. */
    constructor (cfg: Config, priorities: seq<int>, mutexes: nat, counts: seq<nat>)
      requires |priorities| > 0
      ensures Valid() && this.cfg == cfg && Init(St()) && AsGiven(St(), cfg, priorities, mutexes, counts)
    {
      hide Inv, Init, Sized, Initial, RunQueueLinked, WaitQueuesLinked, OwnedLinked, Nulls;
      InitialIsInit(cfg, priorities, mutexes, counts);
      InitialAsGiven(cfg, priorities, mutexes, counts);
      var s := Initial(cfg, priorities, mutexes, counts);
      this.cfg := cfg;
      ready, base, eff, budget := s.ready, s.base, s.eff, s.budget;
      waitingOn, inTail := s.waitingOn, s.inTail;
      owner, piOn, count := s.owner, s.piOn, s.count;
      next := Nulls(|s.ready|);
      waitNext := Nulls(|s.ready|);
      ownedHead := Nulls(|s.ready|);
      waiterHead := Nulls(|s.owner|);
      ownerNext := Nulls(|s.owner|);
      sleeperHead := Nulls(|s.count|);
      rqHead, rqTail := None, None;
      cur, preemptCnt, need, irqDepth := s.cur, 0, s.need, 0;
      rq, waiters, sleepers, owned := [], s.waiters, s.sleepers, s.owned;
      new;
      NothingLinked();
      AddThreads();
    }

    lemma NothingLinked()
      requires rq == [] && rqHead.None? && rqTail.None? && forall t :: 0 <= t < |next| ==> next[t] == None
      requires |waiterHead| == |waiters| && forall m :: 0 <= m < |waiters| ==> waiterHead[m] == None && waiters[m] == []
      requires |sleeperHead| == |sleepers| && forall k :: 0 <= k < |sleepers| ==> sleeperHead[k] == None && sleepers[k] == []
      requires |ownedHead| == |owned| && forall t :: 0 <= t < |owned| ==> ownedHead[t] == None && owned[t] == []
      ensures RunQueueLinked() && WaitQueuesLinked() && OwnedLinked()
    {
    }

    /** sched_add for every thread, in order of creation. */
    method AddThreads()
      requires Tables() && RunQueueLinked() && rq == []
      modifies this`next, this`rqHead, this`rqTail, this`rq
      ensures Tables() && RunQueueLinked() && rq == seq(|ready|, i => i)
    {
      hide RunQueueLinked;
      var t := 0;
      while t < |ready|
        invariant t <= |ready| && Tables() && RunQueueLinked() && rq == seq(t, i => i)
      {
        RqAppend(t);
        t := t + 1;
      }
    }

    /** sched_start: the first thread of maximal priority under PRIO, the head of the queue otherwise. */
    method SchedStart()
      requires Valid() && Init(St())
      modifies this`cur, this`budget
      ensures Valid() && Init(St()) && cur in rq
      ensures cfg.prio ==> forall u :: 0 <= u < |ready| ==> eff[u] <= eff[cur]
      ensures !cfg.prio ==> Some(cur) == rqHead
    {
      assert |budget| == |ready|;
      hide Inv, Init, Linked, References;
      var t := FirstThread();
      StartedInit(St(), t);
      assert |budget| == |ready|;
      budget := budget[t := QUANTUM_TICKS];
      cur := t;
    }

    method FirstThread() returns (t: Tid)
      requires Linked() && Init(St()) && Inv(St())
      ensures t in rq && (!cfg.prio ==> Some(t) == rqHead)
      ensures t < |ready| && (cfg.prio ==> forall u :: 0 <= u < |ready| ==> eff[u] <= eff[t])
    {
      hide References, RunQueue, MutexQueues, SemaphoreQueues, Ownership, MaxReady, FirstBest;
      CurrentQueued(St());
      t := rqHead.value;
      if cfg.prio {
        StartChoice(St());
        CircleFromHead();
        var best := RqMaxReadyPriority();
        var found := ScanRing(t, best, false, rq);
        t := found.value;
      }
      assert t in rq;
    }

    // ---- Run queue ----

    method RqAppend(t: Tid)
      requires Tables() && RunQueueLinked() && t < |next| && t !in rq
      modifies this`next, this`rqHead, this`rqTail, this`rq
      ensures Tables() && RunQueueLinked() && rq == old(rq) + [t]
    {
      if rqHead.None? {
        rqHead := Some(t);
        rqTail := Some(t);
        next := next[t := Some(t)];
        rq := [t];
        return;
      }
      RingAppend(next, rq, t, next[t := rqHead][rqTail.value := Some(t)]);
      assert rq[|rq| - 1] in rq;
      next := next[t := rqHead];
      next := next[rqTail.value := Some(t)];
      rqTail := Some(t);
      rq := rq + [t];
      assert t in rq && forall x :: x in old(rq) ==> x in rq;
    }

    method RqRemove(t: Tid)
      requires Tables() && RunQueueLinked() && t < |next|
      modifies this`next, this`rqHead, this`rqTail, this`rq
      ensures Tables() && RunQueueLinked() && rq == Minus(old(rq), t)
    {
      if rqHead.None? {
        return;
      }
      MinusMembers(rq, t);
      ghost var i := IndexOf(rq, t);
      if rqHead == Some(t) && rqTail == Some(t) {
        SingleRing();
        rqHead := None;
        rqTail := None;
        next := next[t := None];
        rq := [];
        return;
      }
      var prev, j := FindPredecessor(t);
      if next[prev] != Some(t) {
        return;
      }
      PredecessorOf(t, j);
      Unlink(t, prev, i);
    }

    /** Takes t, at position i and linked from prev, out of a ring of several. */
    method Unlink(t: Tid, prev: Tid, ghost i: nat)
      requires Tables() && RunQueueLinked() && 2 <= |rq| && i < |rq| && rq[i] == t
      requires prev == rq[if i == 0 then |rq| - 1 else i - 1]
      modifies this`next, this`rqHead, this`rqTail, this`rq
      ensures Tables() && RunQueueLinked() && rq == Without(old(rq), i)
    {
      ghost var r := Without(rq, i);
      RingUnlink(next, rq, i, next[prev := next[t]][t := None]);
      WithoutEnds(rq, i);
      WithoutKeepsOthers(rq, i);
      hide Without, Distinct;
      next := next[prev := next[t]];
      if rqHead == Some(t) { rqHead := next[t]; }
      if rqTail == Some(t) { rqTail := Some(prev); }
      next := next[t := None];
      rq := r;
    }

    /** The walk of rq_remove: the node linking to t, or the tail when t is not queued. */
    method FindPredecessor(t: Tid) returns (prev: Tid, ghost j: nat)
      requires Tables() && RunQueueLinked() && rq != []
      ensures j < |rq| && prev == rq[j] && (next[prev] == Some(t) || t !in rq)
    {
      prev := rqHead.value;
      j := 0;
      CircleFromHead();
      while next[prev] != Some(t) && next[prev] != rqHead
        invariant 0 <= j < |rq| && prev == rq[j]
        invariant forall k :: 1 <= k <= j ==> rq[k] != t
        decreases |rq| - j
      {
        CircleNext(rq, j);
        prev := next[prev].value;
        j := j + 1;
      }
      CircleNext(rq, j);
    }

    lemma WithoutEnds(q: seq<Tid>, i: nat)
      requires |q| >= 2 && i < |q|
      ensures var r := Without(q, i);
        r[0] == (if i == 0 then q[1] else q[0]) && r[|r| - 1] == if i == |q| - 1 then q[i - 1] else q[|q| - 1]
    {
    }

    lemma SingleRing()
      requires Tables() && RunQueueLinked() && rqHead.Some? && rqHead == rqTail
      ensures rq == [rqHead.value] && Minus(rq, rqHead.value) == []
    {
      assert |rq| == 1;
    }

    lemma PredecessorOf(t: Tid, j: nat)
      requires Tables() && RunQueueLinked() && j < |rq| && next[rq[j]] == Some(t) && !(rqHead == Some(t) && rqTail == Some(t))
      ensures var i := IndexOf(rq, t);
        |rq| >= 2 && i < |rq| && j == if i == 0 then |rq| - 1 else i - 1
    {
      var p := if j < |rq| - 1 then j + 1 else 0;
      assert rq[p] == t && t in rq;
      assert IndexOf(rq, t) == p;
    }

    // ---- Choice of the next thread ----

    /** One turn of a ring read in the order `order`. */
    ghost predicate Circle(order: seq<Tid>)
      reads `next
    {
      && order != [] && Distinct(order) && Below(order, |next|)
      && (forall i :: 0 <= i < |order| - 1 ==> next[order[i]] == Some(order[i + 1]))
      && next[order[|order| - 1]] == Some(order[0])
    }

    lemma CircleNext(order: seq<Tid>, j: nat)
      requires Circle(order) && j < |order|
      ensures next[order[j]] == Some(order[if j + 1 < |order| then j + 1 else 0])
      ensures next[order[j]] != Some(order[0]) <==> j + 1 < |order|
    {
    }

    lemma CircleFromHead()
      requires Tables() && RunQueueLinked() && rq != []
      ensures Circle(rq)
    {
    }

    lemma CircleAfter(t: Tid)
      requires Tables() && RunQueueLinked() && t in rq
      ensures Circle(RingAfter(rq, t)) && next[t] == Some(RingAfter(rq, t)[0])
    {
      var i := IndexOf(rq, t);
      RingRotate(next, rq, i, RingAfter(rq, t));
    }

    method RqMaxReadyPriority() returns (best: int)
      requires Tables() && RunQueueLinked() && Sized(St())
      ensures best == MaxReady(St(), rq)
    {
      if rqHead.None? { return -1; }
      best := -1;
      CircleFromHead();
      var start := rqHead.value;
      var t := start;
      var going := true;
      ghost var j := 0;
      assert rq[..0] == [];
      while going
        invariant 0 <= j <= |rq| && (going ==> j < |rq| && t == rq[j]) && (!going ==> j == |rq|)
        invariant Below(rq[..j], |ready|) && best == MaxPrefix(St(), rq[..j])
        decreases |rq| - j
      {
        assert rq[..j + 1] == rq[..j] + [t];
        MaxPrefixStep(St(), rq[..j], t);
        if ready[t] && eff[t] > best { best := eff[t]; }
        CircleNext(rq, j);
        t := next[t].value;
        j := j + 1;
        going := t != start;
      }
      assert rq[..j] == rq;
      MaxPrefixIsMax(St(), rq);
    }

    method PrioPickNext(exclude: bool, rotate: bool) returns (r: Tid)
      requires Tables() && RunQueueLinked() && Sized(St())
      ensures r == PickNext(St(), exclude, rotate)
    {
      hide References, MaxReady, FirstBest, RingAfter;
      if rqHead.None? { return cur; }
      var best := RqMaxReadyPriority();
      if best < 0 { return cur; }
      if !exclude && !rotate && ready[cur] && eff[cur] == best { return cur; }
      var start := rqHead.value;
      ghost var order := if exclude || rotate then RingAfter(rq, cur) else rq;
      CircleFromHead();
      if exclude || rotate {
        if next[cur].Some? { start := next[cur].value; }
        if cur in rq { CircleAfter(cur); } else { RingAfterAbsent(rq, cur); }
      }
      var found := ScanRing(start, best, exclude, order);
      if found.Some? { return found.value; }
      // the source tests this and would otherwise fall back to rq_head: it never does
      OnlyCurrentIsBest(St(), order, best, exclude);
      return cur;
    }

    /** The scanning loop of prio_pick_next. */
    method ScanRing(start: Tid, best: int, exclude: bool, ghost order: seq<Tid>) returns (r: Option<Tid>)
      requires Sized(St()) && |next| == |ready| && Circle(order) && start == order[0]
      ensures Below(order, |ready|) && r == FirstBest(St(), order, best, if exclude then Some(cur) else None)
    {
      ghost var excluded := if exclude then Some(cur) else None;
      var t := start;
      var going := true;
      ghost var j := 0;
      assert order[0..] == order && Below(order, |ready|);
      hide FirstBest, Distinct;
      while going
        invariant 0 <= j <= |order| && (going ==> j < |order| && t == order[j]) && (!going ==> j == |order|)
        invariant FirstBest(St(), order, best, excluded) == FirstBest(St(), order[j..], best, excluded)
        decreases |order| - j
      {
        FirstBestStep(St(), order, j, best, excluded);
        if ready[t] && eff[t] == best && (!exclude || t != cur) { return Some(t); }
        CircleNext(order, j);
        t := next[t].value;
        j := j + 1;
        going := t != start;
      }
      NoneLeft(St(), order, best, excluded);
      return None;
    }

    method RqHasReadyPrioGt(prio: int) returns (r: bool)
      requires Tables() && RunQueueLinked() && Sized(St()) && prio >= -1
      ensures r == (MaxReady(St(), rq) > prio)
    {
      hide References, MaxReady;
      if rqHead.None? {
        assert rq == [];
        return false;
      }
      CircleFromHead();
      var start := rqHead.value;
      var t := start;
      var going := true;
      ghost var j := 0;
      while going
        invariant 0 <= j <= |rq| && (going ==> j < |rq| && t == rq[j]) && (!going ==> j == |rq|)
        invariant forall k :: 0 <= k < j ==> !(ready[rq[k]] && eff[rq[k]] > prio)
        decreases |rq| - j
      {
        if ready[t] && eff[t] > prio {
          assert t in rq;
          return true;
        }
        CircleNext(rq, j);
        t := next[t].value;
        j := j + 1;
        going := t != start;
      }
      return false;
    }

    // ---- Switching ----

    /** do_switch: `t` runs next, from wherever it last left the processor. */
    method DoSwitch(t: Tid, viaTail: bool)
      requires Sized(St()) && t < |ready| && t != cur
      modifies this`inTail, this`cur, this`need
      ensures St() == SwitchTo(old(St()), t, viaTail)
    {
      inTail := inTail[cur := viaTail];
      cur := t;
      // t resumes: if it had left through the reschedule tail, the rest of that function runs now
      if inTail[cur] { need := NEED_NONE; }
    }

    method SchedReschedFromIrqTail()
      requires Tables() && RunQueueLinked() && Sized(St())
      modifies this`inTail, this`cur, this`need
      ensures St() == if preemptCnt == 0 then Resched(cfg, old(St())) else old(St())
    {
      hide References, PickNext, MaxReady;
      if preemptCnt != 0 { return; }
      var t: Link := None;
      if cfg.prio {
        var rotate := need == NEED_ROTATE;
        var p := PrioPickNext(rotate, rotate);
        t := Some(p);
      } else {
        RingNext();
        if ready[cur] && next[cur].Some? { t := next[cur]; } else { t := rqHead; }
      }
      if t.None? || t.value == cur {
        need := NEED_NONE;
        return;
      }
      DoSwitch(t.value, true);
    }

    /** The link of the current thread, in the terms of the specification. */
    lemma RingNext()
      requires Tables() && RunQueueLinked() && Sized(St())
      ensures rqHead == if rq == [] then None else Some(rq[0])
      ensures next[cur] == if cur in rq then Some(RingAfter(rq, cur)[0]) else None
      ensures cur !in rq ==> RingAfter(rq, cur) == rq
      ensures forall t :: t in rq ==> t < |ready|
      ensures rq != [] ==> RingAfter(rq, cur)[0] in rq
    {
      if cur in rq { CircleAfter(cur); } else { RingAfterAbsent(rq, cur); }
    }

    method PreemptDisable()
      modifies this`preemptCnt
      ensures preemptCnt == old(preemptCnt) + 1
    {
      preemptCnt := preemptCnt + 1;
    }

    /** preempt_enable: the outermost one outside IRQs reschedules when asked to. */
    method PreemptEnable()
      requires Tables() && RunQueueLinked() && Sized(St())
      modifies this`preemptCnt, this`inTail, this`cur, this`need
      ensures preemptCnt == if old(preemptCnt) == 0 then 0 else old(preemptCnt) - 1
      ensures St() == if old(preemptCnt) == 1 && irqDepth == 0 then KernelState.PreemptEnable(cfg, old(St())) else old(St())
    {
      if preemptCnt == 0 { return; }
      preemptCnt := preemptCnt - 1;
      if preemptCnt == 0 && need != NEED_NONE && irqDepth == 0 {
        SchedReschedFromIrqTail();
      }
    }

    /** preempt_return, where an interrupted thread resumes when the tick asked for a reschedule. */
    method PreemptReturn()
      requires Tables() && RunQueueLinked() && Sized(St())
      modifies this`inTail, this`cur, this`need
      ensures St() == if preemptCnt == 0 then KernelState.PreemptEnable(cfg, old(St())) else old(St())
    {
      if preemptCnt == 0 && need != NEED_NONE { SchedReschedFromIrqTail(); }
    }

    method ThreadYield()
      requires Tables() && RunQueueLinked() && Sized(St())
      modifies this`inTail, this`cur, this`need
      ensures St() == if preemptCnt == 0 then KernelState.ThreadYield(cfg, old(St())) else old(St())
    {
      hide References, PickNext;
      if preemptCnt != 0 { return; }
      var t := cur;
      if cfg.prio {
        t := PrioPickNext(true, true);
      } else {
        RingNext();
        if next[cur].Some? { t := next[cur].value; }
      }
      if t != cur { DoSwitch(t, false); }
    }

    method SchedOnTick()
      requires Tables() && RunQueueLinked() && Sized(St()) && eff[cur] >= -1
      modifies this`budget, this`need
      ensures St() == if preemptCnt == 0 then KernelState.SchedOnTick(cfg, old(St())) else old(St())
    {
      hide References, MaxReady;
      if preemptCnt != 0 { return; }
      if cfg.prio {
        if !ready[cur] {
          need := NEED_NORMAL;
          return;
        }
        var higher := RqHasReadyPrioGt(eff[cur]);
        if higher {
          need := NEED_NORMAL;
          return;
        }
      }
      var b := budget[cur];
      if b > 0 { b := b - 1; }
      if b <= 0 {
        need := if cfg.prio then NEED_ROTATE else NEED_NORMAL;
        b := QUANTUM_TICKS;
      }
      budget := budget[cur := b];
    }

    /** The timer branch of irq_handler_el1 and the return through preempt_return. */
    method TimerIrq()
      requires Tables() && RunQueueLinked() && Sized(St()) && eff[cur] >= -1
      modifies this`irqDepth, this`budget, this`inTail, this`cur, this`need
      ensures irqDepth == old(irqDepth)
      ensures St() ==
        if preemptCnt == 0 then KernelState.PreemptEnable(cfg, KernelState.SchedOnTick(cfg, old(St()))) else old(St())
    {
      irqDepth := irqDepth + 1;
      SchedOnTick();
      var redirect := preemptCnt == 0 && need != NEED_NONE;
      irqDepth := irqDepth - 1;
      if redirect { PreemptReturn(); }
    }

    /** A yield between two operations. */
    method Yield()
      requires Valid()
      modifies this
      ensures Valid() && Enabled(old(St()), Step.Yield) && Running(St()) == Next(cfg, old(St()), Step.Yield)
    {
      hide Inv, Structure, Ranges, References, RunQueueLinked, OwnedLinked, WaitQueuesLinked, KernelState.ThreadYield;
      Facts();
      TurnKeeps(cfg, St(), Step.Yield);
      ThreadYield();
    }

    /** A timer tick between two operations. */
    method Tick()
      requires Valid()
      modifies this
      ensures Valid() && Enabled(old(St()), Step.Tick) && Running(St()) == Next(cfg, old(St()), Step.Tick)
    {
      hide Inv, Structure, Ranges, References, RunQueueLinked, OwnedLinked, WaitQueuesLinked, KernelState.SchedOnTick,
        KernelState.PreemptEnable;
      Facts();
      TurnKeeps(cfg, St(), Step.Tick);
      TimerIrq();
    }

    lemma Parts()
      requires Linked()
      ensures Tables() && RunQueueLinked() && WaitQueuesLinked() && OwnedLinked()
    {
    }

    /** The preempt_enable that ends an operation. */
    method Leave()
      requires Linked() && Sized(St()) && preemptCnt == 1 && irqDepth == 0
      modifies this`preemptCnt, this`inTail, this`cur, this`need
      ensures Linked() && preemptCnt == 0 && St() == KernelState.PreemptEnable(cfg, old(St()))
    {
      hide Sized, RunQueueLinked, WaitQueuesLinked, OwnedLinked, KernelState.PreemptEnable;
      PreemptEnable();
    }

    // ---- Priorities ----

    method WaitqMaxPriority(head: Link, ghost q: seq<Tid>) returns (best: int)
      requires Chain(waitNext, head, q) && Below(q, |eff|) && |waitNext| == |eff|
      ensures best == MaxWaiterPriority(eff, q)
    {
      best := -1;
      var t := head;
      ghost var j := 0;
      while t.Some?
        invariant j <= |q| && Chain(waitNext, t, q[j..])
        invariant best >= -1 && (forall k :: 0 <= k < j ==> eff[q[k]] <= best)
        invariant best == -1 || exists k :: 0 <= k < j && eff[q[k]] == best
        decreases |q| - j
      {
        assert q[j..][0] == q[j] && q[j..][1..] == q[j + 1..];
        var prio := eff[t.value];
        if prio > best { best := prio; }
        t := waitNext[t.value];
        j := j + 1;
      }
      assert q[j..] == [];
      forall k | 0 <= k < |q| ensures eff[q[k]] <= MaxWaiterPriority(eff, q) { assert q[k] in q; }
    }

    method RecomputeEffectivePriority(t: Tid)
      requires Tables() && WaitQueuesLinked() && OwnedLinked() && Sized(St()) && t < |ready|
      modifies this`eff
      ensures St() == Recompute(cfg, old(St()), t)
    {
      hide Inherited, MaxWaiterPriority;
      var e := base[t];
      if cfg.pi {
        e := InheritedPriority(t);
      }
      var p := ClampPriority(e);
      if p < base[t] { p := base[t]; }
      eff := eff[t := p];
    }

    /** The loop over the owned mutexes. */
    method InheritedPriority(t: Tid) returns (e: int)
      requires Tables() && WaitQueuesLinked() && OwnedLinked() && Sized(St()) && t < |ready|
      ensures e == Inherited(St(), owned[t], base[t])
    {
      hide MaxWaiterPriority;
      e := base[t];
      var m: Link := ownedHead[t];
      ghost var ms := owned[t];
      ghost var j := 0;
      assert ms[0..] == ms;
      while m.Some?
        invariant j <= |ms| && Chain(ownerNext, m, ms[j..]) && Below(ms[j..], |owner|)
        invariant Inherited(St(), ms, base[t]) == Inherited(St(), ms[j..], e)
        decreases |ms| - j
      {
        assert ms[j..][0] == ms[j] && ms[j..][1..] == ms[j + 1..];
        if piOn[m.value] {
          var w := WaitqMaxPriority(waiterHead[m.value], waiters[m.value]);
          if w > e { e := w; }
        }
        m := ownerNext[m.value];
        j := j + 1;
      }
      assert ms[j..] == [];
    }

    method MutexApplyPi(m: Mid)
      requires Tables() && WaitQueuesLinked() && OwnedLinked() && Sized(St()) && m < |owner|
      modifies this`eff
      ensures St() == ApplyPi(cfg, old(St()), m)
    {
      if !piOn[m] || owner[m].None? { return; }
      RecomputeEffectivePriority(owner[m].value);
    }

    // ---- Wait queues ----

    /** waitq_pop_highest on the queue at `head`; the caller stores the new head. */
    method WaitqPopHighest(head: Link, ghost q: seq<Tid>) returns (best: Link, newHead: Link)
      requires Chain(waitNext, head, q) && Distinct(q) && Below(q, |eff|) && |waitNext| == |eff|
      modifies this`waitNext
      ensures |waitNext| == |eff| && forall t :: 0 <= t < |waitNext| && t !in q ==> waitNext[t] == old(waitNext)[t]
      ensures q == [] ==> best == None && newHead == head && waitNext == old(waitNext)
      ensures q != [] ==> var i := PopIndex(eff, q);
        best == Some(q[i]) && Chain(waitNext, newHead, Without(q, i)) && waitNext[q[i]] == None
    {
      hide PopIndex, Below;
      newHead := head;
      if head.None? { return None, head; }
      assert Below(q, |eff|);
      var bestPrev, b, i := HighestWaiter(head.value, q);
      ChainAt(waitNext, head, q, i);
      ChainUnlink(waitNext, head, q, i);
      assert q[i] in q && (i > 0 ==> q[i - 1] in q);
      if bestPrev.Some? {
        waitNext := waitNext[bestPrev.value := waitNext[b]];
      } else {
        newHead := waitNext[b];
      }
      waitNext := waitNext[b := None];
      best := Some(b);
    }

    /** The scan: the first waiter of maximal effective priority and its predecessor. */
    method HighestWaiter(head: Tid, ghost q: seq<Tid>) returns (bestPrev: Link, best: Tid, ghost i: nat)
      requires Chain(waitNext, Some(head), q) && Below(q, |eff|) && |waitNext| == |eff|
      ensures q != [] && i == PopIndex(eff, q) && best == q[i] && bestPrev == if i == 0 then None else Some(q[i - 1])
    {
      hide PopIndex;
      bestPrev, best, i := None, head, 0;
      var bestPrio := eff[head];
      var prev: Link := None;
      var t: Link := Some(head);
      ghost var j := 0;
      while t.Some?
        invariant j <= |q| && Chain(waitNext, t, q[j..]) && (j == 0 ==> t == Some(head))
        invariant prev == if j == 0 then None else Some(q[j - 1])
        invariant i < |q| && (j > 0 ==> i < j) && (j == 0 ==> i == 0)
        invariant best == q[i] && bestPrio == eff[best] && bestPrev == if i == 0 then None else Some(q[i - 1])
        invariant forall k :: 0 <= k < j ==> eff[q[k]] <= bestPrio
        invariant forall k :: 0 <= k < i ==> eff[q[k]] < bestPrio
        decreases |q| - j
      {
        assert q[j..][0] == q[j] && q[j..][1..] == q[j + 1..];
        var prio := eff[t.value];
        if prio > bestPrio {
          bestPrio := prio;
          bestPrev := prev;
          best := t.value;
          i := j;
        }
        prev := t;
        t := waitNext[t.value];
        j := j + 1;
      }
      assert q[j..] == [];
    }

    // ---- Owned mutexes ----

    /** No mutex is in two owned lists. */
    ghost predicate OwnedDisjoint()
      reads `owned
    {
      && (forall t :: 0 <= t < |owned| ==> Distinct(owned[t]))
      && (forall t, u, x :: 0 <= t < |owned| && 0 <= u < |owned| && x in owned[t] && x in owned[u] ==> t == u)
    }

    method OwnedAdd(t: Tid, m: Mid)
      requires Tables() && OwnedLinked() && t < |owned| && m < |owner| && forall u :: 0 <= u < |owned| ==> m !in owned[u]
      modifies this`ownerNext, this`ownedHead, this`owned
      ensures Tables() && OwnedLinked() && owned == old(owned)[t := [m] + old(owned)[t]]
    {
      ghost var was := ownerNext;
      forall u | 0 <= u < |owned| ensures Chain(was[m := ownedHead[t]], ownedHead[u], owned[u]) {
        ChainFrame(was, was[m := ownedHead[t]], ownedHead[u], owned[u]);
      }
      ownerNext := ownerNext[m := ownedHead[t]];
      ownedHead := ownedHead[t := Some(m)];
      assert ([m] + owned[t])[1..] == owned[t];
      owned := owned[t := [m] + owned[t]];
    }

    method OwnedRemove(t: Tid, m: Mid)
      requires Tables() && OwnedLinked() && OwnedDisjoint() && t < |owned|
      modifies this`ownerNext, this`ownedHead, this`owned
      ensures Tables() && OwnedLinked() && owned == old(owned)[t := Minus(old(owned)[t], m)]
    {
      ghost var ms := owned[t];
      ghost var i := IndexOf(ms, m);
      var found, prev := FindOwned(t, m);
      if !found {
        assert owned[t := ms] == owned;
        return;
      }
      ChainUnlink(ownerNext, ownedHead[t], ms, i);
      ghost var was := ownerNext;
      ghost var now := if i == 0 then was[m := None] else was[ms[i - 1] := was[m]][m := None];
      forall u | 0 <= u < |owned| && u != t ensures Chain(now, ownedHead[u], owned[u]) {
        assert ms[i] in ms && (i > 0 ==> ms[i - 1] in ms);
        ChainFrame(was, now, ownedHead[u], owned[u]);
      }
      if prev.Some? {
        ownerNext := ownerNext[prev.value := ownerNext[m]];
      } else {
        ownedHead := ownedHead[t := ownerNext[m]];
      }
      ownerNext := ownerNext[m := None];
      owned := owned[t := Without(ms, i)];
    }

    /** The walk of thread_owned_mutex_remove: is m there, and what precedes it. */
    method FindOwned(t: Tid, m: Mid) returns (found: bool, prev: Link)
      requires Tables() && OwnedLinked() && t < |owned|
      ensures found == (m in owned[t])
      ensures found ==> var i := IndexOf(owned[t], m); prev == if i == 0 then None else Some(owned[t][i - 1])
    {
      prev := None;
      var it: Link := ownedHead[t];
      ghost var ms := owned[t];
      ghost var j := 0;
      while it.Some? && it != Some(m)
        invariant j <= IndexOf(ms, m) && Chain(ownerNext, it, ms[j..])
        invariant prev == if j == 0 then None else Some(ms[j - 1])
        decreases |ms| - j
      {
        assert ms[j..][0] == ms[j] && ms[j..][1..] == ms[j + 1..];
        prev := it;
        it := ownerNext[it.value];
        j := j + 1;
      }
      found := it.Some?;
      assert found ==> ms[j..][0] == ms[j];
    }

    // ---- Blocking and waking ----

    /** sched_block_current; as written it also clears the link the caller has just stored. */
    method SchedBlockCurrent()
      requires Tables() && RunQueueLinked() && Sized(St()) && |waitNext| == |ready|
      modifies this`next, this`rqHead, this`rqTail, this`rq, this`ready, this`waitNext
      ensures Tables() && RunQueueLinked() && St() == if old(ready)[cur] then Block(old(St())) else old(St())
      ensures waitNext == if cfg.repaired || !old(ready)[cur] then old(waitNext) else old(waitNext)[cur := None]
    {
      hide RunQueueLinked, References, Minus;
      if !ready[cur] { return; }
      RqRemove(cur);
      ready := ready[cur := false];
      if !cfg.repaired { waitNext := waitNext[cur := None]; }
    }

    /** sched_make_runnable for a thread in no wait queue. */
    method SchedMakeRunnable(t: Tid)
      requires Tables() && RunQueueLinked() && Sized(St()) && |waitNext| == |ready| && t < |ready| && (!ready[t] ==> t !in rq)
      modifies this`next, this`rqHead, this`rqTail, this`rq, this`ready, this`waitNext, this`budget
      ensures Tables() && RunQueueLinked() && St() == MakeRunnable(old(St()), t)
      ensures waitNext == if old(ready)[t] then old(waitNext) else old(waitNext)[t := None]
    {
      if ready[t] { return; }
      ready := ready[t := true];
      waitNext := waitNext[t := None];
      budget := budget[t := QUANTUM_TICKS];
      RqAppend(t);
    }

    /** Wait queues survive link changes of threads that are in none of them. */
    lemma ChainsFrame(was: seq<Link>, now: seq<Link>, heads: seq<Link>, queues: seq<seq<Tid>>, skip: nat)
      requires |now| == |was| && |heads| == |queues|
      requires forall m :: 0 <= m < |queues| && m != skip ==> Chain(was, heads[m], queues[m])
      requires forall m, t :: 0 <= m < |queues| && m != skip && t in queues[m] && t < |was| ==> now[t] == was[t]
      ensures forall m :: 0 <= m < |queues| && m != skip ==> Chain(now, heads[m], queues[m])
    {
      forall m | 0 <= m < |queues| && m != skip ensures Chain(now, heads[m], queues[m]) {
        ChainFrame(was, now, heads[m], queues[m]);
      }
    }

    /** A READY thread is in no wait queue. */
    lemma ReadyNotQueued(t: Tid)
      requires Sized(St()) && Structure(St()) && t < |ready| && ready[t]
      ensures forall m :: 0 <= m < |waiters| ==> t !in waiters[m]
      ensures forall k :: 0 <= k < |sleepers| ==> t !in sleepers[k]
    {
    }

    /** Pushes the current thread on the queue of m: the two stores before mutex_apply_pi. */
    method PushWaiter(m: Mid)
      requires Sized(St()) && Structure(St()) && ready[cur] && Tables() && WaitQueuesLinked() && m < |owner|
      modifies this`waitNext, this`waiterHead, this`waiters
      ensures Tables() && WaitQueuesLinked() && waiters == old(waiters)[m := [cur] + old(waiters)[m]]
      ensures waiterHead[m] == Some(cur)
    {
      ReadyNotQueued(cur);
      ghost var now := waitNext[cur := waiterHead[m]];
      ChainsFrame(waitNext, now, waiterHead, waiters, |waiters|);
      ChainsFrame(waitNext, now, sleeperHead, sleepers, |sleepers|);
      assert ([cur] + waiters[m])[1..] == waiters[m];
      waitNext := waitNext[cur := waiterHead[m]];
      waiterHead := waiterHead[m := Some(cur)];
      waiters := waiters[m := [cur] + waiters[m]];
    }

    /** sched_block_current for a thread just pushed on the queue of m. */
    method BlockQueued(ghost m: Mid, ghost q: seq<Tid>)
      requires Tables() && RunQueueLinked() && WaitQueuesLinked() && Sized(St()) && ready[cur]
      requires m < |owner| && waiters[m] == [cur] + q && waiterHead[m] == Some(cur)
      requires forall x, t :: 0 <= x < |waiters| && x != m && t in waiters[x] ==> t != cur
      requires forall k, t :: 0 <= k < |sleepers| && t in sleepers[k] ==> t != cur
      modifies this`next, this`rqHead, this`rqTail, this`rq, this`ready, this`waitNext, this`waiters
      ensures Tables() && RunQueueLinked() && WaitQueuesLinked()
      ensures St() == Block(old(St())).(waiters := old(waiters)[m := AfterBlock(cfg, cur, q)])
    {
      hide RunQueueLinked, References, Minus, Block;
      SchedBlockCurrent();
      if !cfg.repaired {
        ChainsFrame(old(waitNext), waitNext, waiterHead, waiters, m);
        ChainsFrame(old(waitNext), waitNext, sleeperHead, sleepers, |sleepers|);
        assert [cur][1..] == [] && Chain(waitNext, waiterHead[m], [cur]);
        waiters := waiters[m := [cur]];
      } else {
        assert waiters[m := [cur] + q] == waiters;
      }
    }

    /** waiting_on, the push and the priority donation of the blocking branch of mutex_lock. */
    method EnqueueSelf(m: Mid)
      requires Linked() && Sized(St()) && Structure(St()) && ready[cur] && m < |owner|
      modifies this`waitingOn, this`waitNext, this`waiterHead, this`waiters, this`eff
      ensures Linked() && Sized(Enqueued(old(St()), m)) && St() == ApplyPi(cfg, Enqueued(old(St()), m), m)
      ensures waiterHead[m] == Some(cur)
    {
      hide Structure, References, RecomputedPriority, RunQueueLinked, OwnedLinked, WaitQueuesLinked;
      PushedSized(St(), m);
      PushWaiter(m);
      waitingOn := waitingOn[cur := Some(m)];
      MutexApplyPi(m);
    }

    /** The blocking branch of mutex_lock, preemption disabled. */
    method BlockOnMutex(m: Mid)
      requires Linked() && Inv(St()) && m < |owner| && owner[m].Some? && owner[m] != Some(cur)
      modifies this`waitingOn, this`waitNext, this`waiterHead, this`waiters, this`eff, this`next, this`rqHead,
        this`rqTail, this`rq, this`ready, this`need
      ensures Linked() && St() == KernelState.BlockOnMutex(cfg, old(St()), m)
    {
      hide Inv, Structure, Ranges, References, RunQueueLinked, OwnedLinked, WaitQueuesLinked, Block, ApplyPi;
      ghost var s := St();
      Facts();
      EnqueueSelf(m);
      ApplyPiOnlyEff(cfg, Enqueued(s, m), m);
      EnqueuedElsewhere(s, m);
      BlockQueued(m, s.waiters[m]);
      need := NEED_NORMAL;
    }

    lemma Facts()
      requires Inv(St())
      ensures Sized(St()) && Structure(St()) && ready[cur] && eff[cur] >= 0
    {
    }

    /** lockdep_would_deadlock. */
    method LockdepWouldDeadlock(m: Mid) returns (r: bool)
      requires Sized(St()) && m < |owner|
      ensures r == LockdepWalk(waitingOn, owner, cur, owner[m], LOCKDEP_DEPTH)
    {
      var o: Option<Tid> := owner[m];
      assert o.Some? ==> o.value < |ready|;
      hide References;
      var depth := 0;
      while o.Some? && depth < LOCKDEP_DEPTH
        invariant depth <= LOCKDEP_DEPTH && (o.Some? ==> o.value < |ready|)
        invariant LockdepWalk(waitingOn, owner, cur, owner[m], LOCKDEP_DEPTH)
          == LockdepWalk(waitingOn, owner, cur, o, LOCKDEP_DEPTH - depth)
        decreases LOCKDEP_DEPTH - depth
      {
        if o.value == cur { return true; }
        if waitingOn[o.value].None? { return false; }
        BlockerInRange(o.value);
        o := owner[waitingOn[o.value].value];
        depth := depth + 1;
      }
      return false;
    }

    lemma BlockerInRange(t: Tid)
      requires Sized(St()) && t < |ready| && waitingOn[t].Some?
      ensures waitingOn[t].value < |owner| && var o := owner[waitingOn[t].value]; o.Some? ==> o.value < |ready|
    {
    }

    // ---- Mutexes ----

    /** The acquiring branch of mutex_lock and mutex_trylock. */
    method AcquireFree(m: Mid)
      requires Linked() && Inv(St()) && m < |owner| && owner[m].None?
      modifies this`owner, this`ownerNext, this`ownedHead, this`owned, this`waitingOn
      ensures Linked() && St() == Acquire(old(St()), m)
    {
      hide Inv, References, RunQueueLinked, WaitQueuesLinked, OwnedLinked;
      FreeUnowned(St(), m);
      owner := owner[m := Some(cur)];
      OwnedAdd(cur, m);
      waitingOn := waitingOn[cur := None];
    }

    /** The contended pass of mutex_lock. */
    method LockContended(m: Mid) returns (halted: bool)
      requires Linked() && Inv(St()) && preemptCnt == 1 && irqDepth == 0
      requires Enabled(St(), Lock(m)) && Blocks(St(), Lock(m))
      modifies this
      ensures halted == (cfg.lockdep && LockdepWalk(old(waitingOn), old(owner), old(cur), old(owner)[m], LOCKDEP_DEPTH))
      ensures !halted ==> Linked() && preemptCnt == 0 && irqDepth == 0
      ensures !halted ==> St() == KernelState.PreemptEnable(cfg, KernelState.BlockOnMutex(cfg, old(St()), m))
    {
      hide Inv, Structure, Ranges, References, Linked, Tables, LockdepWalk,
        KernelState.BlockOnMutex, KernelState.PreemptEnable;
      Facts();
      if cfg.lockdep {
        var deadlock := LockdepWouldDeadlock(m);
        if deadlock { return true; }
      }
      BlockOnMutex(m);
      Leave();
      return false;
    }

    /** The pass of mutex_lock that finds m free or already owned. */
    method LockUncontended(m: Mid)
      requires Linked() && Inv(St()) && preemptCnt == 1 && irqDepth == 0 && m < |owner|
      requires owner[m] == Some(cur) || owner[m].None?
      modifies this
      ensures Linked() && preemptCnt == 0 && irqDepth == 0 && Running(St()) == KernelState.MutexLock(cfg, old(St()), m)
    {
      hide Inv, Structure, Ranges, References, Linked, Tables, Acquire,
        KernelState.MutexLock, KernelState.PreemptEnable;
      Facts();
      CurrentQueued(St());
      UncontendedCases(cfg, St(), m);
      if owner[m] == Some(cur) {
        waitingOn := waitingOn[cur := None];
        Leave();
        return;
      }
      AcquireFree(m);
      Leave();
    }

    /** One pass of the loop of mutex_lock; the next pass runs when the thread is given the processor again. */
    method MutexLock(m: Mid) returns (halted: bool)
      requires Valid() && m < |owner| && Enabled(St(), Lock(m))
      modifies this
      ensures halted == KernelState.MutexLock(cfg, old(St()), m).Halted?
      ensures !halted ==> Valid() && St() == KernelState.MutexLock(cfg, old(St()), m).s
    {
      hide Inv, Structure, Ranges, References, Linked, LockdepWalk, KernelState.BlockOnMutex, Acquire,
        KernelState.PreemptEnable, Enabled;
      Facts();
      LockKeeps(cfg, St(), m);
      PreemptDisable();
      if owner[m] == Some(cur) || owner[m].None? {
        LockUncontended(m);
        return false;
      }
      halted := LockContended(m);
    }

    method MutexTryLock(m: Mid) returns (r: int)
      requires Valid() && m < |owner|
      modifies this
      ensures |owner| == old(|owner|) && (r == 0 || r == -1) && (r == 0 <==> owner[m] == Some(old(cur)))
      ensures Valid() && St() == KernelState.MutexTryLock(cfg, old(St()), m).0
    {
      hide Inv, Structure, Ranges, References, Linked, Tables, Acquire,
        KernelState.PreemptEnable;
      Facts();
      CurrentQueued(St());
      TryLockKeeps(cfg, St(), m);
      Outcomes.TryLockExact(cfg, St(), m);
      PreemptDisable();
      if owner[m].None? || owner[m] == Some(cur) {
        LockUncontended(m);
        return 0;
      }
      Leave();
      return -1;
    }

    lemma OwnedAreDisjoint()
      requires Inv(St())
      ensures OwnedDisjoint()
    {
      forall t, u, x | 0 <= t < |owned| && 0 <= u < |owned| && x in owned[t] && x in owned[u] ensures t == u {
        assert owner[x] == Some(t) && owner[x] == Some(u);
      }
    }

    /** Stores back the head of a wait queue from which a thread has been popped. */
    method PopWaiter(m: Mid) returns (best: Link)
      requires Sized(St()) && Tables() && WaitQueuesLinked() && m < |owner|
      requires MutexQueues(waiters, waitingOn, ready) && SemaphoreQueues(sleepers, waitingOn, ready)
      modifies this`waitNext, this`waiterHead, this`waiters
      ensures Tables() && WaitQueuesLinked()
      ensures old(waiters)[m] == [] ==> best == None && waiters == old(waiters) && waitNext == old(waitNext)
      ensures old(waiters)[m] != [] ==> var i := PopIndex(eff, old(waiters)[m]);
        best == Some(old(waiters)[m][i]) && waiters == old(waiters)[m := Without(old(waiters)[m], i)] && waitNext[best.value] == None
    {
      hide RunQueue, PopIndex, MutexQueues, SemaphoreQueues;
      ghost var q := waiters[m];
      QueuesApart(St(), m);
      var newHead;
      best, newHead := WaitqPopHighest(waiterHead[m], q);
      ChainsFrame(old(waitNext), waitNext, waiterHead, waiters, m);
      ChainsFrame(old(waitNext), waitNext, sleeperHead, sleepers, |sleepers|);
      waiterHead := waiterHead[m := newHead];
      if q != [] { waiters := waiters[m := Without(q, PopIndex(eff, q))]; }
    }

    /** m goes to the popped waiter n, which becomes READY. */
    method GiveTo(m: Mid, n: Tid)
      requires Linked() && Sized(St()) && m < |owner| && n < |ready| && !ready[n] && n !in rq && waitNext[n] == None
      requires forall u :: 0 <= u < |owned| ==> m !in owned[u]
      modifies this`ownerNext, this`ownedHead, this`owned, this`owner, this`waitingOn, this`next, this`rqHead, this`rqTail,
        this`rq, this`ready, this`budget, this`waitNext
      ensures Linked()
      ensures St() == MakeRunnable(Given(old(St()), m, n), n)
    {
      hide References, RunQueueLinked, OwnedLinked, WaitQueuesLinked, MakeRunnable;
      GivenSized(St(), m, n);
      owner := owner[m := Some(n)];
      waitingOn := waitingOn[n := None];
      OwnedAdd(n, m);
      SchedMakeRunnable(n);
      assert waitNext == old(waitNext);
    }

    /** The mutex leaves the owner's list and its first maximal waiter the queue. */
    method TakeAway(m: Mid) returns (n: Link)
      requires Linked() && Inv(St()) && m < |owner| && owner[m] == Some(cur)
      modifies this`ownerNext, this`ownedHead, this`owned, this`waitNext, this`waiterHead, this`waiters
      ensures Linked() && owned == old(owned)[cur := Minus(old(owned)[cur], m)]
      ensures old(waiters)[m] == [] ==> n == None && waiters == old(waiters)
      ensures old(waiters)[m] != [] ==> var i := PopIndex(eff, old(waiters)[m]);
        n == Some(old(waiters)[m][i]) && waiters == old(waiters)[m := Without(old(waiters)[m], i)] && waitNext[n.value] == None
    {
      hide Inv, Structure, Ranges, References, RunQueueLinked, OwnedLinked, WaitQueuesLinked, PopIndex, Minus,
        MutexQueues, SemaphoreQueues, Distinct;
      ghost var s := St();
      Facts();
      OwnedAreDisjoint();
      HandOverFacts(s, m, s.owned[s.cur := Minus(s.owned[s.cur], m)]);
      OwnedRemove(cur, m);
      n := PopWaiter(m);
    }

    method SetFree(m: Mid)
      requires Linked() && m < |owner|
      modifies this`owner
      ensures Linked() && owner == old(owner)[m := None]
    {
      hide RunQueueLinked, WaitQueuesLinked;
      owner := owner[m := None];
    }

    /** The hand-over of mutex_unlock, from thread_owned_mutex_remove to sched_make_runnable. */
    method HandOver(m: Mid) returns (nextOwner: Link)
      requires Linked() && Inv(St()) && m < |owner| && owner[m] == Some(cur)
      modifies this`ownerNext, this`ownedHead, this`owned, this`waitNext, this`waiterHead, this`waiters, this`owner,
        this`waitingOn, this`next, this`rqHead, this`rqTail, this`rq, this`ready, this`budget
      ensures Linked() && St() == UnlockCore(old(St()), m)
      ensures nextOwner == if old(waiters)[m] == [] then None else Some(old(waiters)[m][PopIndex(eff, old(waiters)[m])])
    {
      hide Inv, Linked, Sized, PopIndex, Minus, MakeRunnable, UnlockCore, Given;
      ghost var s := St();
      HandOverValue(s, m);
      nextOwner := TakeAway(m);
      assert St() == TakenAway(s, m);
      if nextOwner.Some? {
        GiveTo(m, nextOwner.value);
      } else {
        SetFree(m);
      }
    }

    /** mutex_unlock by the owner, preemption disabled, up to preempt_enable. */
    method UnlockOwned(m: Mid)
      requires Linked() && Inv(St()) && m < |owner| && owner[m] == Some(cur)
      modifies this`ownerNext, this`ownedHead, this`owned, this`waitNext, this`waiterHead, this`waiters, this`owner,
        this`waitingOn, this`next, this`rqHead, this`rqTail, this`rq, this`ready, this`budget, this`eff, this`need
      ensures Linked() && St() == KernelState.UnlockOwned(cfg, old(St()), m)
    {
      hide Inv, Structure, Ranges, References, RunQueueLinked, OwnedLinked, WaitQueuesLinked, PopIndex, Recompute,
        HandOff, Release;
      ghost var s := St();
      Facts();
      UnlockCoreFacts(s, m);
      var n := HandOver(m);
      if n.Some? { MutexApplyPi(m); }
      RecomputeEffectivePriority(cur);
      if n.Some? && eff[n.value] > eff[cur] { need := NEED_NORMAL; }
    }

    method MutexUnlock(m: Mid)
      requires Valid() && m < |owner|
      modifies this
      ensures Valid() && St() == KernelState.MutexUnlock(cfg, old(St()), m)
    {
      hide Inv, Structure, Ranges, References, Linked, Tables, KernelState.UnlockOwned,
        KernelState.PreemptEnable, Distinct;
      Facts();
      UnlockKeeps(cfg, St(), m);
      PreemptDisable();
      if owner[m] != Some(cur) {
        Leave();
        return;
      }
      UnlockOwned(m);
      Leave();
    }

    method MutexSetPiEnabled(m: Mid, on: bool)
      requires Valid() && m < |owner|
      modifies this
      ensures Valid() && St() == MutexSetPi(cfg, old(St()), m, on)
    {
      hide Inv, Structure, Ranges, References, Linked, Tables, RunQueueLinked, OwnedLinked, WaitQueuesLinked, Recompute,
        KernelState.PreemptEnable;
      Facts();
      Parts();
      PiSized(St(), m, on);
      SetPiKeeps(cfg, St(), m, on);
      PreemptDisable();
      piOn := piOn[m := on];
      if owner[m].Some? { RecomputeEffectivePriority(owner[m].value); }
      Leave();
    }

    // ---- Semaphores ----

    /** Pushes the current thread on the queue of k. */
    method PushSleeper(k: Sid)
      requires Sized(St()) && Structure(St()) && ready[cur] && Tables() && WaitQueuesLinked() && k < |count|
      modifies this`waitNext, this`sleeperHead, this`sleepers
      ensures Tables() && WaitQueuesLinked() && sleepers == old(sleepers)[k := [cur] + old(sleepers)[k]]
      ensures sleeperHead[k] == Some(cur)
    {
      ReadyNotQueued(cur);
      ghost var now := waitNext[cur := sleeperHead[k]];
      ChainsFrame(waitNext, now, waiterHead, waiters, |waiters|);
      ChainsFrame(waitNext, now, sleeperHead, sleepers, |sleepers|);
      assert ([cur] + sleepers[k])[1..] == sleepers[k];
      waitNext := waitNext[cur := sleeperHead[k]];
      sleeperHead := sleeperHead[k := Some(cur)];
      sleepers := sleepers[k := [cur] + sleepers[k]];
    }

    /** sched_block_current for a thread just pushed on the queue of k. */
    method BlockAsleep(ghost k: Sid, ghost q: seq<Tid>)
      requires Linked() && Sized(St()) && ready[cur]
      requires k < |count| && sleepers[k] == [cur] + q && sleeperHead[k] == Some(cur)
      requires forall x, t :: 0 <= x < |waiters| && t in waiters[x] ==> t != cur
      requires forall j, t :: 0 <= j < |sleepers| && j != k && t in sleepers[j] ==> t != cur
      modifies this`next, this`rqHead, this`rqTail, this`rq, this`ready, this`waitNext, this`sleepers
      ensures Linked()
      ensures St() == Block(old(St())).(sleepers := old(sleepers)[k := AfterBlock(cfg, cur, q)])
    {
      hide RunQueueLinked, OwnedLinked, References, Minus, Block;
      SchedBlockCurrent();
      if !cfg.repaired {
        ChainsFrame(old(waitNext), waitNext, waiterHead, waiters, |waiters|);
        ChainsFrame(old(waitNext), waitNext, sleeperHead, sleepers, k);
        assert [cur][1..] == [] && Chain(waitNext, sleeperHead[k], [cur]);
        sleepers := sleepers[k := [cur]];
      } else {
        assert sleepers[k := [cur] + q] == sleepers;
      }
    }

    /** The current thread heads the queue of k. */
    method JoinSleepers(k: Sid)
      requires Linked() && Inv(St()) && k < |count|
      modifies this`waitNext, this`sleeperHead, this`sleepers
      ensures Linked() && sleepers == old(sleepers)[k := [cur] + old(sleepers)[k]] && sleeperHead[k] == Some(cur)
    {
      hide Inv, Structure, Ranges, References, RunQueueLinked, OwnedLinked, WaitQueuesLinked, MutexQueues,
        SemaphoreQueues, Distinct;
      Facts();
      PushSleeper(k);
    }

    /** The blocking branch of sem_down, the count already taken. */
    method BlockOnSemaphore(k: Sid)
      requires Linked() && Inv(St()) && k < |count|
      modifies this`waitingOn, this`waitNext, this`sleeperHead, this`sleepers, this`next, this`rqHead,
        this`rqTail, this`rq, this`ready, this`need
      ensures Linked() && St() == KernelState.BlockOnSemaphore(cfg, old(St()), k)
    {
      hide Inv, Structure, Ranges, References, Linked, Block, MutexQueues, SemaphoreQueues, RunQueue, Ownership,
        Distinct, KernelState.BlockOnSemaphore;
      ghost var s := St();
      Facts();
      CurrentQueued(s);
      SleepValue(cfg, s, k);
      AsleepElsewhere(s, k, s.sleepers[k := [cur] + s.sleepers[k]]);
      waitingOn := waitingOn[cur := None];
      JoinSleepers(k);
      BlockAsleep(k, s.sleepers[k]);
      need := NEED_NORMAL;
    }

    method SemDown(k: Sid)
      requires Valid() && Enabled(St(), Down(k))
      modifies this
      ensures Valid() && St() == KernelState.SemDown(cfg, old(St()), k)
    {
      hide Inv, Structure, Ranges, References, Linked, Tables,
        KernelState.BlockOnSemaphore,
        KernelState.PreemptEnable;
      Facts();
      DownKeeps(cfg, St(), k);
      CountKeeps(St(), k, count[k] - 1);
      PreemptDisable();
      count := count[k := count[k] - 1];
      Facts();
      if count[k] >= 0 {
        Leave();
        return;
      }
      BlockOnSemaphore(k);
      Leave();
    }

    /** Pops a sleeper of k. */
    method PopSleeper(k: Sid) returns (best: Link)
      requires Sized(St()) && Tables() && WaitQueuesLinked() && k < |count|
      requires MutexQueues(waiters, waitingOn, ready) && SemaphoreQueues(sleepers, waitingOn, ready)
      modifies this`waitNext, this`sleeperHead, this`sleepers
      ensures Tables() && WaitQueuesLinked()
      ensures old(sleepers)[k] == [] ==> best == None && sleepers == old(sleepers) && waitNext == old(waitNext)
      ensures old(sleepers)[k] != [] ==> var i := PopIndex(eff, old(sleepers)[k]);
        best == Some(old(sleepers)[k][i]) && sleepers == old(sleepers)[k := Without(old(sleepers)[k], i)] && waitNext[best.value] == None
    {
      hide RunQueue, PopIndex, MutexQueues, SemaphoreQueues;
      ghost var q := sleepers[k];
      SleepersApart(St(), k);
      var newHead;
      best, newHead := WaitqPopHighest(sleeperHead[k], q);
      ChainsFrame(old(waitNext), waitNext, waiterHead, waiters, |waiters|);
      ChainsFrame(old(waitNext), waitNext, sleeperHead, sleepers, k);
      sleeperHead := sleeperHead[k := newHead];
      if q != [] { sleepers := sleepers[k := Without(q, PopIndex(eff, q))]; }
    }

    /** The waking part of sem_up. */
    method WakeSleeper(k: Sid)
      requires Linked() && Inv(St()) && k < |count|
      modifies this`waitNext, this`sleeperHead, this`sleepers, this`next, this`rqHead, this`rqTail, this`rq,
        this`ready, this`budget, this`need
      ensures Linked() && St() == WokenState(old(St()), k) && Sized(St())
    {
      hide Inv, Structure, Ranges, References, RunQueueLinked, OwnedLinked, WaitQueuesLinked, PopIndex, MakeRunnable,
        MutexQueues, SemaphoreQueues;
      ghost var s := St();
      Facts();
      WakeFacts(s, k);
      var t := PopSleeper(k);
      if t.Some? {
        SleeperPoppedSized(s, k, PopIndex(s.eff, s.sleepers[k]));
        ghost var popped := waitNext;
        SchedMakeRunnable(t.value);
        assert waitNext == popped;
        MakeRunnableKeepsPriorities(s.(sleepers := sleepers), t.value);
        if eff[t.value] > eff[cur] { need := NEED_NORMAL; }
      }
    }

    method SemUp(k: Sid)
      requires Valid() && k < |count|
      modifies this
      ensures Valid() && St() == KernelState.SemUp(cfg, old(St()), k)
    {
      hide Inv, Structure, Ranges, References, Linked, Tables, WokenState, KernelState.SemUp,
        KernelState.PreemptEnable;
      Facts();
      UpKeeps(cfg, St(), k);
      UpValue(cfg, St(), k);
      CountKeeps(St(), k, count[k] + 1);
      PreemptDisable();
      count := count[k := count[k] + 1];
      Facts();
      if count[k] <= 0 { WakeSleeper(k); }
      Leave();
    }
  }

  /** The state once a sleeper of k, if any, has been woken. */
  ghost function WokenState(s: State, k: Sid): (r: State)
    requires Inv(s) && k < |s.count|
    ensures Sized(r)
  {
    if s.sleepers[k] == [] then s else WakeFacts(s, k); Wake(s, k, PopIndex(s.eff, s.sleepers[k]))
  }

  /** sem_up is a count, perhaps a wake-up, and the end of the operation. */
  lemma UpValue(cfg: Config, s: State, k: Sid)
    requires Inv(s) && k < |s.count|
    ensures var s1 := s.(count := s.count[k := s.count[k] + 1]);
      Inv(s1) && KernelState.SemUp(cfg, s, k)
        == KernelState.PreemptEnable(cfg, if s1.count[k] <= 0 then WokenState(s1, k) else s1)
  {
    CountKeeps(s, k, s.count[k] + 1);
    hide Inv, KernelState.PreemptEnable, PopIndex, Wake;
  }

  lemma TurnKeeps(cfg: Config, s: State, step: Step)
    requires Inv(s) && (step.Tick? || step.Yield?)
    ensures Enabled(s, step) && Next(cfg, s, step).Running? && Inv(Next(cfg, s, step).s)
  {
    hide Structure, Ranges;
    StepKeeps(cfg, s, step);
  }

  function Nulls(n: nat): (r: seq<Link>)
    ensures |r| == n && forall i :: 0 <= i < n ==> r[i] == None
  {
    seq(n, i => None)
  }

  /** The state after start-up: everything free, every thread READY at its clamped base priority. */
  function Initial(cfg: Config, priorities: seq<int>, mutexes: nat, counts: seq<nat>): State {
    var n := |priorities|;
    var p := seq(n, i requires 0 <= i < n => ClampPriority(priorities[i]));
    State(seq(n, i => true), seq(n, i => None), seq(n, i => []), p, p, seq(n, i => QUANTUM_TICKS), seq(n, i => false),
          seq(mutexes, i => None), seq(mutexes, i => []), seq(mutexes, i => cfg.pi),
          counts, seq(|counts|, i => []), seq(n, i => i), 0, NEED_NONE)
  }

  /**
   * Every thread has the priority asked for, brought into range, and every semaphore the count asked for;
   * mutexes inherit as the build says; the threads queue in order of creation.
   */
  ghost predicate AsGiven(s: State, cfg: Config, priorities: seq<int>, mutexes: nat, counts: seq<nat>)
    requires Lengths(s)
  {
    && |s.ready| == |priorities| && |s.owner| == mutexes && s.count == counts
    && (forall t :: 0 <= t < |priorities| ==>
          && (priorities[t] < 0 ==> s.base[t] == 0) && (priorities[t] > MAX_PRIORITY ==> s.base[t] == MAX_PRIORITY)
          && (0 <= priorities[t] <= MAX_PRIORITY ==> s.base[t] == priorities[t]))
    && (forall m :: 0 <= m < mutexes ==> s.piOn[m] == cfg.pi)
    && |s.rq| == |priorities| && (forall t :: 0 <= t < |s.rq| ==> s.rq[t] == t)
  }

  lemma InitialAsGiven(cfg: Config, priorities: seq<int>, mutexes: nat, counts: seq<nat>)
    requires |priorities| > 0
    ensures var s := Initial(cfg, priorities, mutexes, counts); Init(s) && AsGiven(s, cfg, priorities, mutexes, counts)
  {
    hide Init;
    InitialIsInit(cfg, priorities, mutexes, counts);
  }

  lemma InitialIsInit(cfg: Config, priorities: seq<int>, mutexes: nat, counts: seq<nat>)
    requires |priorities| > 0
    ensures var s := Initial(cfg, priorities, mutexes, counts); Init(s) && Inv(s) && s.rq == seq(|s.ready|, i => i)
    ensures var s := Initial(cfg, priorities, mutexes, counts);
      && (forall t :: 0 <= t < |s.owned| ==> s.owned[t] == []) && (forall m :: 0 <= m < |s.waiters| ==> s.waiters[m] == [])
      && (forall k :: 0 <= k < |s.sleepers| ==> s.sleepers[k] == [])
      && |s.waiters| == |s.owner| && |s.sleepers| == |s.count| && |s.owned| == |s.ready|
  {
    var s := Initial(cfg, priorities, mutexes, counts);
    StartsClean(s, |priorities|);
    InitInv(s);
  }

  lemma StartsClean(s: State, n: nat)
    requires Lengths(s) && |s.ready| == n && s.rq == seq(n, i => i) && s.need == NEED_NONE
    requires forall t :: 0 <= t < n ==> s.ready[t] && s.waitingOn[t].None? && s.owned[t] == [] && !s.inTail[t]
    requires forall t :: 0 <= t < n ==> 0 <= s.base[t] <= MAX_PRIORITY && s.eff[t] == s.base[t] && s.budget[t] == QUANTUM_TICKS
    requires forall m :: 0 <= m < |s.owner| ==> s.owner[m].None? && s.waiters[m] == []
    requires forall k :: 0 <= k < |s.count| ==> s.count[k] >= 0 && s.sleepers[k] == []
    ensures Init(s)
  {
    forall u | 0 <= u < n ensures u in s.rq { assert s.rq[u] == u; }
  }

  lemma StartedInit(s: State, t: Tid)
    requires Init(s) && t in s.rq
    ensures t < |s.ready| && var r := s.(budget := s.budget[t := QUANTUM_TICKS], cur := t); Init(r) && Inv(r)
  {
    InitInv(s.(budget := s.budget[t := QUANTUM_TICKS], cur := t));
  }

  lemma StartChoice(s: State)
    requires Init(s) && s.rq != []
    ensures var best := MaxReady(s, s.rq); best >= 0 && FirstBest(s, s.rq, best, None).Some?
  {
    assert s.rq[0] in s.rq;
  }

  lemma AsleepElsewhere(s: State, k: Sid, sleepers: seq<seq<Tid>>)
    requires Sized(s) && Structure(s) && s.ready[s.cur] && k < |s.count| && sleepers == s.sleepers[k := [s.cur] + s.sleepers[k]]
    ensures Sized(s.(sleepers := sleepers))
    ensures forall x, t :: 0 <= x < |s.waiters| && t in s.waiters[x] ==> t != s.cur
    ensures forall j, t :: 0 <= j < |sleepers| && j != k && t in sleepers[j] ==> t != s.cur
  {
    hide RunQueue, Ownership;
  }

  lemma BlockIgnoresSleepers(s: State, k: Sid, q: seq<Tid>)
    requires Sized(s) && k < |s.count| && Sized(s.(sleepers := s.sleepers[k := q]))
    ensures Block(s.(sleepers := s.sleepers[k := q])) == Block(s).(sleepers := s.sleepers[k := q])
  {
  }

  lemma UncontendedCases(cfg: Config, s: State, m: Mid)
    requires Inv(s) && m < |s.owner|
    ensures s.owner[m] == Some(s.cur) ==>
      KernelState.MutexLock(cfg, s, m) == Running(KernelState.PreemptEnable(cfg, s)) && s.waitingOn[s.cur := None] == s.waitingOn
    ensures s.owner[m].None? ==>
      KernelState.MutexLock(cfg, s, m) == Running(KernelState.PreemptEnable(cfg, Acquire(s, m)))
  {
    hide Structure, Ranges, References, KernelState.PreemptEnable;
    CurrentQueued(s);
  }

  /** The owner has given up m, and its first maximal waiter has left the queue. */
  ghost function TakenAway(s: State, m: Mid): State
    requires Sized(s) && m < |s.owner|
  {
    var q := s.waiters[m];
    s.(owned := s.owned[s.cur := Minus(s.owned[s.cur], m)],
       waiters := if q == [] then s.waiters else s.waiters[m := Without(q, PopIndex(s.eff, q))])
  }

  /** What mutex_unlock does from there, up to the recomputations. */
  lemma HandOverValue(s: State, m: Mid)
    requires Inv(s) && m < |s.owner| && s.owner[m] == Some(s.cur)
    ensures Sized(s) && Sized(TakenAway(s, m)) && Below(s.waiters[m], |s.eff|)
    ensures forall u :: 0 <= u < |TakenAway(s, m).owned| ==> m !in TakenAway(s, m).owned[u]
    ensures s.waiters[m] == [] ==> UnlockCore(s, m) == TakenAway(s, m).(owner := s.owner[m := None])
    ensures s.waiters[m] != [] ==>
      var n := s.waiters[m][PopIndex(s.eff, s.waiters[m])];
      && n < |s.ready| && !s.ready[n] && n !in s.rq && Sized(Given(TakenAway(s, m), m, n))
      && UnlockCore(s, m) == MakeRunnable(Given(TakenAway(s, m), m, n), n)
  {
    HandOverFacts(s, m, s.owned[s.cur := Minus(s.owned[s.cur], m)]);
    if s.waiters[m] != [] {
      PoppedSized(s.(owned := s.owned[s.cur := Minus(s.owned[s.cur], m)]), m, PopIndex(s.eff, s.waiters[m]));
    }
    hide Inv, Structure, Ranges, Minus, PopIndex;
  }

  /** sem_down without a unit is a push and a block. */
  lemma SleepValue(cfg: Config, s: State, k: Sid)
    requires Inv(s) && k < |s.count|
    ensures s.waitingOn[s.cur := None] == s.waitingOn
    ensures var pushed := s.(sleepers := s.sleepers[k := [s.cur] + s.sleepers[k]]);
      && Sized(pushed)
      && Block(pushed).(sleepers := pushed.sleepers[k := AfterBlock(cfg, s.cur, s.sleepers[k])], need := NEED_NORMAL)
           == KernelState.BlockOnSemaphore(cfg, s, k)
  {
    CurrentQueued(s);
    var q := [s.cur] + s.sleepers[k];
    assert s.sleepers[k := q][k := AfterBlock(cfg, s.cur, s.sleepers[k])] == s.sleepers[k := AfterBlock(cfg, s.cur, s.sleepers[k])];
    AsleepElsewhere(s, k, s.sleepers[k := q]);
    BlockIgnoresSleepers(s, k, q);
    hide Inv, Structure, Ranges;
  }

  lemma FreeUnowned(s: State, m: Mid)
    requires Inv(s) && m < |s.owner| && s.owner[m].None?
    ensures Sized(s) && forall u :: 0 <= u < |s.owned| ==> m !in s.owned[u]
  {
    hide RunQueue, MutexQueues, SemaphoreQueues, Ranges;
  }

  lemma PiSized(s: State, m: Mid, on: bool)
    requires Sized(s) && m < |s.owner|
    ensures Sized(s.(piOn := s.piOn[m := on])) && (s.owner[m].Some? ==> s.owner[m].value < |s.ready|)
  {
  }

  lemma UnlockCoreFacts(s: State, m: Mid)
    requires Inv(s) && m < |s.owner| && s.owner[m] == Some(s.cur)
    ensures var c := UnlockCore(s, m); c.cur == s.cur && |c.ready| == |s.ready| && |c.owner| == |s.owner|
    ensures s.waiters[m] != [] ==> Below(s.waiters[m], |s.eff|) && s.waiters[m][PopIndex(s.eff, s.waiters[m])] < |s.ready|
  {
    hide Structure, Ranges;
  }

  lemma UnlockKeeps(cfg: Config, s: State, m: Mid)
    requires Inv(s) && m < |s.owner|
    ensures Inv(KernelState.MutexUnlock(cfg, s, m))
  {
    hide Inv, KernelState.MutexUnlock;
    StepKeeps(cfg, s, Unlock(m));
  }

  lemma DownKeeps(cfg: Config, s: State, k: Sid)
    requires Inv(s) && Enabled(s, Down(k))
    ensures Inv(KernelState.SemDown(cfg, s, k))
  {
    hide Inv, KernelState.SemDown;
    StepKeeps(cfg, s, Down(k));
  }

  /** The queue of k shares no thread with any other queue. */
  lemma SleepersApart(s: State, k: Sid)
    requires Sized(s) && k < |s.count|
    requires MutexQueues(s.waiters, s.waitingOn, s.ready) && SemaphoreQueues(s.sleepers, s.waitingOn, s.ready)
    ensures Distinct(s.sleepers[k]) && Below(s.sleepers[k], |s.eff|)
    ensures forall x, t :: 0 <= x < |s.waiters| && t in s.waiters[x] ==> t !in s.sleepers[k]
    ensures forall j, t :: 0 <= j < |s.sleepers| && j != k && t in s.sleepers[j] ==> t !in s.sleepers[k]
  {
    forall x, t | 0 <= x < |s.waiters| && t in s.waiters[x] ensures t !in s.sleepers[k] {
      assert s.waitingOn[t] == Some(x);
    }
  }

  lemma WakeFacts(s: State, k: Sid)
    requires Inv(s) && k < |s.count|
    ensures MutexQueues(s.waiters, s.waitingOn, s.ready) && SemaphoreQueues(s.sleepers, s.waitingOn, s.ready)
    ensures Below(s.sleepers[k], |s.eff|)
    ensures s.sleepers[k] != [] ==> var n := s.sleepers[k][PopIndex(s.eff, s.sleepers[k])]; n < |s.ready| && !s.ready[n] && n !in s.rq
  {
    if s.sleepers[k] != [] { assert s.sleepers[k][PopIndex(s.eff, s.sleepers[k])] in s.sleepers[k]; }
  }

  lemma SleeperPoppedSized(s: State, k: Sid, i: nat)
    requires Sized(s) && k < |s.count| && i < |s.sleepers[k]|
    ensures Sized(s.(sleepers := s.sleepers[k := Without(s.sleepers[k], i)]))
  {
  }

  lemma MakeRunnableKeepsPriorities(s: State, t: Tid)
    requires Sized(s) && t < |s.ready|
    ensures var r := MakeRunnable(s, t); r.eff == s.eff && r.cur == s.cur
  {
  }

  ghost function Given(s: State, m: Mid, n: Tid): (r: State)
    requires Sized(s) && m < |s.owner| && n < |s.ready|
    ensures Sized(r)
  {
    s.(owner := s.owner[m := Some(n)], waitingOn := s.waitingOn[n := None], owned := s.owned[n := [m] + s.owned[n]])
  }

  lemma GivenSized(s: State, m: Mid, n: Tid)
    requires Sized(s) && m < |s.owner| && n < |s.ready|
    ensures Sized(Given(s, m, n))
  {
  }

  lemma PoppedSized(s: State, m: Mid, i: nat)
    requires Sized(s) && m < |s.owner| && i < |s.waiters[m]|
    ensures Sized(s.(waiters := s.waiters[m := Without(s.waiters[m], i)]))
  {
  }

  lemma TryLockKeeps(cfg: Config, s: State, m: Mid)
    requires Inv(s) && m < |s.owner|
    ensures Inv(KernelState.MutexTryLock(cfg, s, m).0)
  {
    hide Inv, KernelState.MutexTryLock;
    StepKeeps(cfg, s, TryLock(m));
  }

  lemma LockKeeps(cfg: Config, s: State, m: Mid)
    requires Inv(s) && Enabled(s, Lock(m))
    ensures var r := KernelState.MutexLock(cfg, s, m); r.Running? ==> Inv(r.s)
  {
    hide Inv, KernelState.MutexLock;
    StepKeeps(cfg, s, Lock(m));
  }

  lemma HandOverFacts(s: State, m: Mid, owned: seq<seq<Mid>>)
    requires Inv(s) && m < |s.owner| && s.owner[m] == Some(s.cur) && owned == s.owned[s.cur := Minus(s.owned[s.cur], m)]
    ensures Sized(s.(owned := owned)) && forall u :: 0 <= u < |owned| ==> m !in owned[u]
    ensures MutexQueues(s.waiters, s.waitingOn, s.ready) && SemaphoreQueues(s.sleepers, s.waitingOn, s.ready)
    ensures s.waiters[m] != [] ==> var n := s.waiters[m][PopIndex(s.eff, s.waiters[m])]; n < |s.ready| && !s.ready[n] && n !in s.rq
    ensures Below(s.waiters[m], |s.eff|)
  {
    MinusMembers(s.owned[s.cur], m);
    if s.waiters[m] != [] { assert s.waiters[m][PopIndex(s.eff, s.waiters[m])] in s.waiters[m]; }
  }

  /** The queue of m shares no thread with any other queue. */
  lemma QueuesApart(s: State, m: Mid)
    requires Sized(s) && m < |s.owner|
    requires MutexQueues(s.waiters, s.waitingOn, s.ready) && SemaphoreQueues(s.sleepers, s.waitingOn, s.ready)
    ensures Distinct(s.waiters[m])
    ensures forall x, t :: 0 <= x < |s.waiters| && x != m && t in s.waiters[x] ==> t !in s.waiters[m]
    ensures forall k, t :: 0 <= k < |s.sleepers| && t in s.sleepers[k] ==> t !in s.waiters[m]
  {
    forall x, t | 0 <= x < |s.waiters| && x != m && t in s.waiters[x] ensures t !in s.waiters[m] {
      assert s.waitingOn[t] == Some(x);
    }
    forall k, t | 0 <= k < |s.sleepers| && t in s.sleepers[k] ensures t !in s.waiters[m] {
      assert s.waitingOn[t].None?;
    }
  }

  /** The current thread waiting on m at the head of its queue, not blocked yet. */
  ghost function Enqueued(s: State, m: Mid): State
    requires Sized(s) && m < |s.owner|
  {
    s.(waitingOn := s.waitingOn[s.cur := Some(m)], waiters := s.waiters[m := [s.cur] + s.waiters[m]])
  }

  lemma PushedSized(s: State, m: Mid)
    requires Sized(s) && m < |s.owner|
    ensures Sized(Enqueued(s, m))
  {
  }

  lemma EnqueuedElsewhere(s: State, m: Mid)
    requires Sized(s) && Structure(s) && s.ready[s.cur] && m < |s.owner|
    ensures var r := Enqueued(s, m);
      && r.waiters[m] == [s.cur] + s.waiters[m]
      && (forall x, t :: 0 <= x < |r.waiters| && x != m && t in r.waiters[x] ==> t != s.cur)
      && (forall k, t :: 0 <= k < |r.sleepers| && t in r.sleepers[k] ==> t != s.cur)
  {
    hide RunQueue, Ownership, References;
  }

  lemma ApplyPiOnlyEff(cfg: Config, s: State, m: Mid)
    requires Sized(s) && m < |s.owner|
    ensures ApplyPi(cfg, s, m) == s.(eff := ApplyPi(cfg, s, m).eff)
  {
  }

  /** The scan at position j: this thread, or what the rest of the ring gives. */
  lemma FirstBestStep(s: State, order: seq<Tid>, j: nat, best: int, excluded: Option<Tid>)
    requires Sized(s) && Below(order, |s.ready|) && j < |order|
    ensures FirstBest(s, order[j..], best, excluded) ==
      if IsBest(s, order[j], best) && excluded != Some(order[j]) then Some(order[j]) else FirstBest(s, order[j + 1..], best, excluded)
  {
    hide References;
    assert order[j..][0] == order[j] && order[j..][1..] == order[j + 1..];
  }

  lemma NoneLeft(s: State, order: seq<Tid>, best: int, excluded: Option<Tid>)
    requires Sized(s)
    ensures FirstBest(s, order[|order|..], best, excluded) == None
  {
  }

  lemma RingAfterAbsent(q: seq<Tid>, t: Tid)
    requires t !in q
    ensures RingAfter(q, t) == q
  {
  }

  lemma OnlyCurrentIsBest(s: State, order: seq<Tid>, best: int, exclude: bool)
    requires Sized(s) && Below(order, |s.ready|) && (forall t :: t in order <==> t in s.rq)
    requires best == MaxReady(s, s.rq) >= 0 && FirstBest(s, order, best, if exclude then Some(s.cur) else None).None?
    ensures IsBest(s, s.cur, best)
  {
    var t :| t in s.rq && IsBest(s, t, best);
  }

  // ---- Left-to-right maximum ----

  function MaxPrefix(s: State, q: seq<Tid>): (r: int)
    requires Sized(s) && Below(q, |s.ready|)
  {
    if q == [] then -1
    else
      var b := MaxPrefix(s, q[..|q| - 1]);
      var t := q[|q| - 1];
      if s.ready[t] && s.eff[t] > b then s.eff[t] else b
  }

  lemma MaxPrefixStep(s: State, q: seq<Tid>, t: Tid)
    requires Sized(s) && Below(q, |s.ready|) && t < |s.ready|
    ensures Below(q + [t], |s.ready|)
    ensures MaxPrefix(s, q + [t]) == if s.ready[t] && s.eff[t] > MaxPrefix(s, q) then s.eff[t] else MaxPrefix(s, q)
  {
    assert (q + [t])[..|q|] == q;
  }

  lemma {:induction false} MaxPrefixBounds(s: State, q: seq<Tid>)
    requires Sized(s) && Below(q, |s.ready|)
    ensures var r := MaxPrefix(s, q);
      && r >= -1 && (forall t :: t in q && s.ready[t] ==> s.eff[t] <= r)
      && (r > -1 ==> exists t :: t in q && IsBest(s, t, r))
    decreases |q|
  {
    if q != [] {
      var front, t := q[..|q| - 1], q[|q| - 1];
      MaxPrefixBounds(s, front);
      assert forall u :: u in q <==> u in front || u == t;
      if s.ready[t] && s.eff[t] == MaxPrefix(s, q) { assert IsBest(s, t, MaxPrefix(s, q)); }
    }
  }

  lemma MaxPrefixIsMax(s: State, q: seq<Tid>)
    requires Sized(s) && Below(q, |s.ready|)
    ensures MaxPrefix(s, q) == MaxReady(s, q)
  {
    MaxPrefixBounds(s, q);
  }
}
