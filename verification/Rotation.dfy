/** Round robin among the READY threads of maximal priority, under the PRIO policy. */
module Rotation {
  import opened Prelude
  import opened KernelState
  import opened KernelInvariant
  import opened PriorityInheritance

  /** The threads of q that are READY at priority `best`, in order. */
  function Top(s: State, q: seq<Tid>, best: int): (r: seq<Tid>)
    requires Sized(s) && Below(q, |s.ready|)
    ensures forall t :: t in r <==> t in q && IsBest(s, t, best)
  {
    if q == [] then []
    else
      assert forall t :: t in q <==> t == q[0] || t in q[1..];
      if IsBest(s, q[0], best) then [q[0]] + Top(s, q[1..], best) else Top(s, q[1..], best)
  }

  lemma {:induction false} TopConcat(s: State, a: seq<Tid>, b: seq<Tid>, best: int)
    requires Sized(s) && Below(a, |s.ready|) && Below(b, |s.ready|)
    ensures Top(s, a + b, best) == Top(s, a, best) + Top(s, b, best)
    decreases |a|
  {
    if a == [] {
      assert a + b == b;
    } else {
      assert (a + b)[0] == a[0] && (a + b)[1..] == a[1..] + b;
      TopConcat(s, a[1..], b, best);
    }
  }

  lemma {:induction false} FirstBestIsTop(s: State, q: seq<Tid>, best: int, c: Tid)
    requires Sized(s) && Below(q, |s.ready|)
    requires var top := Top(s, q, best); top != [] && top[0] != c
    ensures FirstBest(s, q, best, Some(c)) == Some(Top(s, q, best)[0])
    decreases |q|
  {
    if !IsBest(s, q[0], best) { FirstBestIsTop(s, q[1..], best, c); }
  }

  /** The ring of top-priority threads, read from just after the current one, which comes last. */
  ghost function Ring(s: State): seq<Tid>
    requires Sized(s)
  {
    Top(s, RingAfter(s.rq, s.cur), s.eff[s.cur])
  }

  /** The current thread is READY and of maximal priority. */
  ghost predicate AtTop(s: State) {
    Inv(s) && Strict(s)
  }

  lemma AtTopBasics(s: State)
    requires AtTop(s)
    ensures Inv(s) && Sized(s) && Distinct(s.rq) && s.cur in s.rq && IsBest(s, s.cur, s.eff[s.cur])
    ensures Distinct(RingAfter(s.rq, s.cur))
    ensures Below(s.rq, |s.ready|) && Below(RingAfter(s.rq, s.cur), |s.ready|)
    ensures forall t :: t in s.rq ==> s.ready[t] && s.eff[t] <= s.eff[s.cur]
    ensures 1 <= s.budget[s.cur] <= QUANTUM_TICKS && s.eff[s.cur] >= 0
  {
    hide MutexQueues, SemaphoreQueues, Ownership;
    CurrentQueued(s);
    RingAfterDistinct(s.rq, s.cur);
  }

  lemma RingEndsHere(s: State)
    requires AtTop(s)
    ensures Sized(s)
    ensures var r := Ring(s); r != [] && r[|r| - 1] == s.cur && Distinct(r)
    ensures MaxReady(s, s.rq) == s.eff[s.cur]
  {
    hide AtTop, Structure, Ranges, References, RingAfter, MaxReady;
    AtTopBasics(s);
    var x := CurrentLast(s.rq, s.cur);
    assert Below(x, |s.ready|) by { assert forall i :: 0 <= i < |x| ==> x[i] == RingAfter(s.rq, s.cur)[i]; }
    TopConcat(s, x, [s.cur], s.eff[s.cur]);
    assert Top(s, [s.cur], s.eff[s.cur]) == [s.cur] + Top(s, [s.cur][1..], s.eff[s.cur]) == [s.cur];
    RingDistinct(s, RingAfter(s.rq, s.cur), s.eff[s.cur]);
  }

  lemma CurrentLast(q: seq<Tid>, c: Tid) returns (x: seq<Tid>)
    requires c in q
    ensures RingAfter(q, c) == x + [c] && forall t :: t in x ==> t in q
  {
    hide IndexOf;
    var i := IndexOf(q, c);
    x := q[i + 1..] + q[..i];
    assert q[..i + 1] == q[..i] + [c];
  }

  lemma {:induction false} RingDistinct(s: State, q: seq<Tid>, best: int)
    requires Sized(s) && Below(q, |s.ready|) && Distinct(q)
    ensures Distinct(Top(s, q, best))
    decreases |q|
  {
    if q != [] {
      RingDistinct(s, q[1..], best);
      assert forall t :: t in q[1..] ==> t != q[0];
    }
  }

  lemma RingAfterDistinct(q: seq<Tid>, c: Tid)
    requires Distinct(q)
    ensures Distinct(RingAfter(q, c))
  {
  }

  lemma TopThree(s: State, x: seq<Tid>, y: seq<Tid>, z: seq<Tid>, best: int)
    requires Sized(s) && Below(x, |s.ready|) && Below(y, |s.ready|) && Below(z, |s.ready|)
    ensures Below(x + y + z, |s.ready|) && Top(s, x + y + z, best) == Top(s, x, best) + Top(s, y, best) + Top(s, z, best)
  {
    TopConcat(s, x, y, best);
    hide Sized, Top;
    assert Below(x + y, |s.ready|);
    TopConcat(s, x + y, z, best);
  }

  /** Reading on from the first top-priority thread n turns the top-priority ring by one. */
  lemma TopTurns(s: State, x: seq<Tid>, n: Tid, y: seq<Tid>, best: int)
    requires Sized(s) && Below(x, |s.ready|) && Below(y, |s.ready|) && n < |s.ready| && IsBest(s, n, best)
    requires n !in x && Below(x + [n] + y, |s.ready|) && Below(y + x + [n], |s.ready|)
    requires var top := Top(s, x + [n] + y, best); top != [] && top[0] == n
    ensures var top := Top(s, x + [n] + y, best); Top(s, y + x + [n], best) == top[1..] + [top[0]]
  {
    assert Top(s, [n], best) == [n] by { assert [n][1..] == []; }
    TopThree(s, x, [n], y, best);
    TopThree(s, y, x, [n], best);
    hide Sized, IsBest, Top, Below;
    var top := Top(s, x + [n] + y, best);
    assert Top(s, x, best) + [n] + Top(s, y, best) == Top(s, x, best) + ([n] + Top(s, y, best));
    FirstMeansNoneBefore(s, x, best, [n] + Top(s, y, best), top);
    assert Top(s, x, best) == [];
    assert top[1..] == Top(s, y, best);
  }

  /** A yield or a rotation moves to the head of the ring; the ring turns by one. */
  lemma RotationTurns(s: State, r: State)
    requires AtTop(s) && Sized(r)
    requires r.ready == s.ready && r.eff == s.eff && r.rq == s.rq && r.cur == Ring(s)[0]
    ensures Ring(r) == Ring(s)[1..] + [Ring(s)[0]]
  {
    hide AtTop, Structure, Ranges, References, RingAfter, MaxReady, IndexOf, Top;
    AtTopBasics(s);
    RingHeadIsTop(s);
    var best, n := s.eff[s.cur], Ring(s)[0];
    var q := RingAfter(s.rq, s.cur);
    var k, x, y := SplitAt(q, n);
    TurnedRing(s.rq, s.cur, k);
    TopTurns(s, x, n, y, best);
    SameTop(s, r, y + x + [n], best);
  }

  lemma SplitAt(q: seq<Tid>, n: Tid) returns (k: nat, x: seq<Tid>, y: seq<Tid>)
    requires n in q && Distinct(q)
    ensures k < |q| && q[k] == n && x == q[..k] && y == q[k + 1..] && q == x + [n] + y && n !in x
  {
    k :| 0 <= k < |q| && q[k] == n;
    x, y := q[..k], q[k + 1..];
  }

  lemma {:induction false} SameTop(s: State, r: State, q: seq<Tid>, best: int)
    requires Sized(s) && Sized(r) && r.ready == s.ready && r.eff == s.eff && Below(q, |s.ready|)
    ensures Top(s, q, best) == Top(r, q, best)
    decreases |q|
  {
    if q != [] { SameTop(s, r, q[1..], best); }
  }

  lemma FirstMeansNoneBefore(s: State, x: seq<Tid>, best: int, rest: seq<Tid>, ring: seq<Tid>)
    requires Sized(s) && Below(x, |s.ready|) && ring != [] && ring == Top(s, x, best) + rest
    ensures Top(s, x, best) != [] ==> ring[0] in x
  {
    if Top(s, x, best) != [] { assert Top(s, x, best)[0] in Top(s, x, best); }
  }

  lemma TurnLate(q: seq<Tid>, i: nat, j: nat)
    requires i < j < |q|
    ensures var r := q[i + 1..] + q[..i + 1]; var k := j - i - 1;
      r[k] == q[j] && q[j + 1..] + q[..j + 1] == r[k + 1..] + r[..k] + [r[k]]
  {
    var r := q[i + 1..] + q[..i + 1];
    assert r[..j - i - 1] == q[i + 1..j] && r[j - i..] == q[j + 1..] + q[..i + 1];
  }

  lemma TurnEarly(q: seq<Tid>, i: nat, j: nat)
    requires j <= i < |q|
    ensures var r := q[i + 1..] + q[..i + 1]; var k := |q| - i - 1 + j;
      r[k] == q[j] && q[j + 1..] + q[..j + 1] == r[k + 1..] + r[..k] + [r[k]]
  {
    var r := q[i + 1..] + q[..i + 1];
    var k := |q| - i - 1 + j;
    assert r[..k] == q[i + 1..] + q[..j] && r[k + 1..] == q[j + 1..i + 1];
  }

  lemma RingAfterAt(q: seq<Tid>, i: nat)
    requires Distinct(q) && i < |q|
    ensures RingAfter(q, q[i]) == q[i + 1..] + q[..i + 1]
  {
    var k := IndexOf(q, q[i]);
    hide IndexOf;
    assert k == i;
  }

  /** Reading the circle from c, and then from the thread at position k of that reading. */
  lemma TurnedRing(q: seq<Tid>, c: Tid, k: nat)
    requires Distinct(q) && c in q && k < |q|
    ensures var r := RingAfter(q, c); RingAfter(q, r[k]) == r[k + 1..] + r[..k] + [r[k]]
  {
    hide IndexOf, RingAfter, Distinct;
    var i := IndexOf(q, c);
    var j := if i + 1 + k < |q| then i + 1 + k else i + 1 + k - |q|;
    RingAfterAt(q, i);
    RingAfterAt(q, j);
    if j > i { TurnLate(q, i, j); } else { TurnEarly(q, i, j); }
  }

  // ---- The choice, by position ----

  /** t is queued and nobody queued has a higher priority. */
  ghost predicate Maximal(s: State, t: Tid)
    requires Sized(s)
  {
    t in s.rq && forall u :: u in s.rq ==> s.eff[u] <= s.eff[t]
  }

  /** The first maximal thread of `order`, passing over the current one if told to. */
  ghost predicate FirstMaximal(s: State, order: seq<Tid>, skip: bool, t: Tid)
    requires Sized(s)
  {
    && Maximal(s, t) && (skip ==> t != s.cur)
    && exists j :: 0 <= j < |order| && order[j] == t
         && forall k :: 0 <= k < j && Maximal(s, order[k]) ==> skip && order[k] == s.cur
  }

  lemma {:induction false} FirstBestAt(s: State, q: seq<Tid>, best: int, excluded: Option<Tid>) returns (j: nat)
    requires Sized(s) && Below(q, |s.ready|)
    ensures FirstBest(s, q, best, excluded).Some? ==> j < |q| && q[j] == FirstBest(s, q, best, excluded).value
    ensures FirstBest(s, q, best, excluded).Some? ==>
      forall k :: 0 <= k < j && IsBest(s, q[k], best) ==> excluded == Some(q[k])
    decreases |q|
  {
    j := 0;
    if q != [] && !(IsBest(s, q[0], best) && excluded != Some(q[0])) {
      var i := FirstBestAt(s, q[1..], best, excluded);
      j := i + 1;
      assert forall k :: 1 <= k < |q| ==> q[k] == q[1..][k - 1];
    }
  }

  /**
   * prio_pick_next: without rotation the current thread if it is maximal, else the first maximal one from the
   * head; with it, the first other maximal one after the current thread in the ring, else the current thread.
   */
  lemma PickIsFirst(s: State, move: bool)
    requires Sized(s) && RunQueue(s.rq, s.ready) && Ranges(s) && s.rq != []
    ensures var t, order := PickNext(s, move, move), if move then RingAfter(s.rq, s.cur) else s.rq;
      || (t == s.cur && Maximal(s, t) && (move ==> forall u :: Maximal(s, u) ==> u == t))
      || ((move || !Maximal(s, s.cur)) && FirstMaximal(s, order, move, t))
  {
    hide RingAfter, FirstBest, MaxReady;
    PickIsMaximal(s, move, move);
    var best, order := MaxReady(s, s.rq), if move then RingAfter(s.rq, s.cur) else s.rq;
    BestIsMaximal(s);
    assert forall u :: u in order <==> u in s.rq;
    assert forall i :: 0 <= i < |order| ==> order[i] in order;
    var j := FirstBestAt(s, order, best, if move then Some(s.cur) else None);
  }

  lemma BestIsMaximal(s: State)
    requires Sized(s) && RunQueue(s.rq, s.ready) && Ranges(s) && s.rq != []
    ensures MaxReady(s, s.rq) >= 0
    ensures forall u :: u in s.rq ==> (Maximal(s, u) <==> IsBest(s, u, MaxReady(s, s.rq)))
  {
    hide MaxReady;
    assert s.rq[0] in s.rq;
    var t :| t in s.rq && IsBest(s, t, MaxReady(s, s.rq));
  }

  // ---- One step ----

  predicate IsTurn(step: Step) {
    step.Tick? || step.Yield? || step.PreemptPair?
  }

  /** prio_pick_next, from the top: the current thread, or the next of the ring when asked to move on. */
  lemma PickFromTop(s: State, move: bool)
    requires AtTop(s)
    ensures Sized(s) && Ring(s) != []
    ensures PickNext(s, move, move) == if move then Ring(s)[0] else s.cur
  {
    hide AtTop, Structure, Ranges, References, RingAfter, MaxReady;
    AtTopBasics(s);
    RingEndsHere(s);
    if move {
      var q, best := RingAfter(s.rq, s.cur), s.eff[s.cur];
      if Ring(s)[0] != s.cur {
        FirstBestIsTop(s, q, best, s.cur);
      } else {
        assert |Ring(s)| == 1;
        assert forall t :: t in q && IsBest(s, t, best) ==> t in Ring(s);
        assert FirstBest(s, q, best, Some(s.cur)).None?;
      }
    }
  }

  lemma RingHeadIsTop(s: State)
    requires AtTop(s)
    ensures Sized(s)
    ensures var r := Ring(s);
      && r != [] && r[0] in s.rq && IsBest(s, r[0], s.eff[s.cur]) && (|r| > 1 ==> r[0] != s.cur)
  {
    hide AtTop, Structure, Ranges, References, RingAfter, MaxReady;
    AtTopBasics(s);
    RingEndsHere(s);
    assert Ring(s)[0] in Ring(s);
  }

  /** Steps that ask prio_pick_next for another thread: a yield, a tick that uses up the budget, a pending rotation. */
  predicate MovesOn(s: State, step: Step)
    requires Sized(s)
  {
    step.Yield? || s.need == NEED_ROTATE || (step.Tick? && s.budget[s.cur] <= 1)
  }

  /** The current thread's budget after a tick; at 1 it is used up, and the next quantum begins. */
  function Spent(b: int): int {
    if b <= 1 then QUANTUM_TICKS else b - 1
  }

  /** The reschedule tail from the top: stay, or move on when a rotation was asked for. */
  lemma TailFromTop(cfg: Config, s: State)
    requires cfg.prio && AtTop(s)
    ensures Ring(s) != []
    ensures PreemptEnable(cfg, s).cur == if s.need == NEED_ROTATE then Ring(s)[0] else s.cur
    ensures PreemptEnable(cfg, s).budget == s.budget
  {
    hide Structure, Ranges, References, PickNext, Ring;
    PickFromTop(s, s.need == NEED_ROTATE);
  }

  /** Fields after one such step. */
  lemma TurnFields(cfg: Config, s: State, step: Step)
    requires cfg.prio && AtTop(s) && IsTurn(step) && Enabled(s, step) && Next(cfg, s, step).Running?
    ensures var r := Next(cfg, s, step).s;
      && Ring(s) != [] && r.eff == s.eff
      && r.cur == (if MovesOn(s, step) then Ring(s)[0] else s.cur)
      && r.budget == (if step.Tick? then s.budget[s.cur := Spent(s.budget[s.cur])] else s.budget)
  {
    hide RunQueue, MutexQueues, SemaphoreQueues, Ownership, References, PickNext, Ring, PreemptEnable, MaxReady;
    RingHeadIsTop(s);
    match step
    case Tick =>
      var c := SchedOnTick(cfg, s);
      RingEndsHere(s);
      TickKeeps(cfg, s);
      SameRing(s, c);
      TailFromTop(cfg, c);
      PreemptEnableSame(cfg, c);
      PreemptEnableFields(cfg, c);
    case Yield =>
      PickFromTop(s, true);
    case PreemptPair =>
      TailFromTop(cfg, s);
      PreemptEnableFields(cfg, s);
  }

  /**
   * Exactly what a tick, a yield or a preempt_enable does from a state at the top: the processor goes to the
   * head of the ring if and only if the step moves on, the ring then turns by one, and only ticks spend budget.
   */
  lemma TurnStep(cfg: Config, s: State, step: Step)
    requires cfg.prio && AtTop(s) && IsTurn(step)
    ensures Enabled(s, step) && Next(cfg, s, step).Running?
    ensures var r := Next(cfg, s, step).s;
      && AtTop(r) && |r.ready| == |s.ready| && Ring(s) != []
      && r.cur == (if MovesOn(s, step) then Ring(s)[0] else s.cur)
      && Ring(r) == (if r.cur == s.cur then Ring(s) else Ring(s)[1..] + [Ring(s)[0]])
      && r.budget == (if step.Tick? then s.budget[s.cur := Spent(s.budget[s.cur])] else s.budget)
  {
    hide MutexQueues, SemaphoreQueues, Ownership, References, Ring, RingAfter, FirstBest, MaxReady, Enabled;
    EnabledTurn(s, step);
    var r := Next(cfg, s, step).s;
    StepKeeps(cfg, s, step);
    StepIsCore(cfg, s, step);
    RingEndsHere(s);
    TurnFields(cfg, s, step);
    RingHeadIsTop(s);
    if r.cur == s.cur {
      SameRing(s, r);
    } else {
      RotationTurns(s, r);
    }
  }

  lemma EnabledTurn(s: State, step: Step)
    requires Sized(s) && IsTurn(step)
    ensures Enabled(s, step)
  {
  }

  lemma SameRing(s: State, r: State)
    requires Sized(s) && Sized(r) && r.ready == s.ready && r.eff == s.eff && r.rq == s.rq && r.cur == s.cur
    ensures Ring(r) == Ring(s)
  {
    SameTop(s, r, RingAfter(s.rq, s.cur), s.eff[s.cur]);
  }

  /** A tick that finds a READY thread above the current one gives the processor to the first maximal thread of the queue. */
  lemma TickPreempts(cfg: Config, s: State, u: Tid)
    requires cfg.prio && Inv(s) && u in s.rq && s.eff[u] > s.eff[s.cur]
    ensures Enabled(s, Tick) && Next(cfg, s, Tick).Running?
    ensures var r := Next(cfg, s, Tick).s; r.cur != s.cur && FirstMaximal(s, s.rq, false, r.cur) && r.budget == s.budget
  {
    hide MutexQueues, SemaphoreQueues, Ownership, PickNext, MaxReady, FirstMaximal;
    var c := s.(need := NEED_NORMAL);
    CurrentQueued(s);
    assert s.ready[u] && MaxReady(s, s.rq) >= s.eff[u];
    assert SchedOnTick(cfg, s) == c;
    PickIsFirst(c, false);
    assert !Maximal(c, c.cur);
    SameMaximal(s, c, PickNext(c, false, false));
    hide ReschedChoice;
    ChoiceIsPick(cfg, c);
    PreemptEnableFields(cfg, c);
  }

  lemma ChoiceIsPick(cfg: Config, s: State)
    requires cfg.prio && Sized(s) && s.need == NEED_NORMAL
    ensures PreemptEnable(cfg, s).cur == PickNext(s, false, false)
  {
    hide PickNext;
  }

  lemma SameMaximal(s: State, c: State, t: Tid)
    requires Sized(s) && Sized(c) && c == s.(need := c.need) && FirstMaximal(c, c.rq, false, t)
    ensures FirstMaximal(s, s.rq, false, t) && Maximal(s, t)
  {
    assert forall u: Tid :: Maximal(c, u) <==> Maximal(s, u);
  }

  // ---- Runs ----

  /** Number of ticks in a sequence of steps. */
  ghost function Ticks(steps: seq<Step>): nat {
    if steps == [] then 0 else (if steps[0].Tick? then 1 else 0) + Ticks(steps[1..])
  }

  /** Does t get the processor at some point of the run of `steps` from s? */
  ghost predicate GetsToRun(cfg: Config, s: State, steps: seq<Step>, t: Tid)
    requires Sized(s)
    decreases |steps|
  {
    s.cur == t ||
    (steps != [] && Enabled(s, steps[0]) && Next(cfg, s, steps[0]).Running? &&
     GetsToRun(cfg, Next(cfg, s, steps[0]).s, steps[1..], t))
  }

  /** Ticks t may still have to wait: a full quantum per thread ahead, what is left of the current one. */
  ghost function Wait(s: State, t: Tid): int
    requires Sized(s) && t in Ring(s)
  {
    QUANTUM_TICKS * IndexOf(Ring(s), t) + s.budget[s.cur]
  }

  lemma TurnWait(cfg: Config, s: State, step: Step, t: Tid)
    requires cfg.prio && AtTop(s) && IsTurn(step) && t in Ring(s) && s.cur != t
    ensures Enabled(s, step) && Next(cfg, s, step).Running?
    ensures var r := Next(cfg, s, step).s;
      AtTop(r) && t in Ring(r) && (r.cur == t || Wait(r, t) <= Wait(s, t) - if step.Tick? then 1 else 0)
  {
    hide Structure, References, Ring, Next, Enabled, IndexOf, AtTop;
    AtTopBasics(s);
    TurnStep(cfg, s, step);
    RingHasCurrent(s, t);
    RingHeadIsTop(s);
    var r := Next(cfg, s, step).s;
    var ring := Ring(s);
    if r.cur != s.cur && r.cur != t {
      var i := IndexOf(ring, t);
      assert Ring(r)[i - 1] == t;
      RingEndsHere(r);
      AtSameIndex(Ring(r), IndexOf(Ring(r), t), i - 1);
      assert AtTop(r);
      BudgetBound(r);
      BudgetBound(s);
    }
  }

  lemma RingHasCurrent(s: State, t: Tid)
    requires AtTop(s) && t in Ring(s) && t != s.cur
    ensures |Ring(s)| > 1
  {
    hide AtTop, Ring, MaxReady;
    RingEndsHere(s);
  }

  lemma BudgetBound(s: State)
    requires AtTop(s)
    ensures 1 <= s.budget[s.cur] <= QUANTUM_TICKS
  {
  }

  lemma AtSameIndex(q: seq<Tid>, i: nat, j: nat)
    requires Distinct(q) && i < |q| && j < |q| && q[i] == q[j]
    ensures i == j
  {
  }

  lemma {:induction false} WaitsAtMost(cfg: Config, s: State, steps: seq<Step>, t: Tid)
    requires cfg.prio && AtTop(s) && t in Ring(s)
    requires forall i :: 0 <= i < |steps| ==> IsTurn(steps[i])
    requires s.cur == t || Ticks(steps) >= Wait(s, t)
    ensures GetsToRun(cfg, s, steps, t)
    decreases |steps|
  {
    hide Structure, Ranges, References, Ring, Next, Enabled, IndexOf;
    if s.cur != t {
      BudgetBound(s);
      TurnWait(cfg, s, steps[0], t);
      WaitsAtMost(cfg, Next(cfg, s, steps[0]).s, steps[1..], t);
    }
  }

  lemma InRing(s: State, t: Tid)
    requires AtTop(s) && t < |s.ready| && IsBest(s, t, s.eff[s.cur])
    ensures t in Ring(s)
  {
    assert t in s.rq && t in RingAfter(s.rq, s.cur);
  }

  /**
   * Rotation bound: with k READY threads at the maximal priority, each of them runs within 5*(k-1)
   * ticks, however yields and preempt_enables are interleaved, while nobody blocks, wakes or changes
   * priority. k is the length of the ring.
   */
  lemma RotationBound(cfg: Config, s: State, steps: seq<Step>, t: Tid)
    requires cfg.prio && AtTop(s) && t < |s.ready| && IsBest(s, t, s.eff[s.cur])
    requires forall i :: 0 <= i < |steps| ==> IsTurn(steps[i])
    requires Ticks(steps) >= QUANTUM_TICKS * (|Ring(s)| - 1)
    ensures GetsToRun(cfg, s, steps, t)
  {
    hide AtTop, Structure, Ranges, References, RingAfter, MaxReady, Ring, Next, Enabled;
    RingEndsHere(s);
    InRing(s, t);
    BudgetBound(s);
    if t != s.cur {
      var i := IndexOf(Ring(s), t);
      assert i < |Ring(s)| - 1;
      WaitsAtMost(cfg, s, steps, t);
    }
  }

  /** From any reachable state one tick suffices to bring a top-priority thread to the processor. */
  lemma OneTickToTheTop(cfg: Config, s: State)
    requires cfg.prio && Inv(s)
    ensures AtTop(Next(cfg, s, Tick).s)
  {
    hide Structure, Ranges, References;
    assert Enabled(s, Tick);
    StepKeeps(cfg, s, Tick);
    TickIsStrict(cfg, s);
  }
}
