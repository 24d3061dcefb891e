/** Building runs: yields bring any READY thread to the processor, so runs can be given thread by thread. */
module Schedules {
  import opened Prelude
  import opened KernelState
  import opened KernelInvariant
  import opened WaitQueues

  lemma {:induction false} RunsAppend(cfg: Config, d: Discipline, s: State, a: seq<Step>, m: State, b: seq<Step>, r: State)
    requires Inv(s) && Runs(cfg, d, s, a, m)
    requires Sized(m) && Runs(cfg, d, m, b, r)
    ensures Runs(cfg, d, s, a + b, r)
    decreases |a|
  {
    hide Structure, Ranges, References, Next;
    if a == [] {
      assert a + b == b;
    } else {
      StepKeeps(cfg, s, a[0]);
      RunsAppend(cfg, d, Next(cfg, s, a[0]).s, a[1..], m, b, r);
      assert (a + b)[0] == a[0] && (a + b)[1..] == a[1..] + b;
    }
  }

  /** Equal up to who runs. */
  ghost predicate SameButCurrent(s: State, r: State) {
    SameStructure(s, r) && r.eff == s.eff && r.base == s.base && r.piOn == s.piOn
  }

  lemma OneYield(s: State, cfg: Config)
    requires Inv(s) && !cfg.prio
    ensures var r := ThreadYield(cfg, s); var i := IndexOf(s.rq, s.cur);
      && Inv(r) && SameButCurrent(s, r) && i < |s.rq|
      && r.cur == s.rq[if i + 1 < |s.rq| then i + 1 else 0]
  {
    hide Structure, Ranges, References;
    CurrentQueued(s);
    YieldKeeps(cfg, s);
  }

  ghost function Ahead(q: seq<Tid>, c: Tid, t: Tid): nat
    requires c in q && t in q
  {
    var i, j := IndexOf(q, c), IndexOf(q, t);
    if i <= j then j - i else |q| + j - i
  }

  lemma {:induction false} YieldUntil(cfg: Config, d: Discipline, s: State, t: Tid) returns (steps: seq<Step>, r: State)
    requires !cfg.prio && Inv(s) && t in s.rq && s.cur in s.rq
    ensures Runs(cfg, d, s, steps, r) && Inv(r) && SameButCurrent(s, r) && r.cur == t
    decreases Ahead(s.rq, s.cur, t)
  {
    hide MutexQueues, SemaphoreQueues, Ownership, Ranges, References, ThreadYield;
    if s.cur == t {
      steps, r := [], s;
    } else {
      OneYield(s, cfg);
      var s1 := ThreadYield(cfg, s);
      IndexUnique(s.rq, IndexOf(s.rq, s1.cur), if IndexOf(s.rq, s.cur) + 1 < |s.rq| then IndexOf(s.rq, s.cur) + 1 else 0);
      CurrentQueued(s1);
      var rest;
      rest, r := YieldUntil(cfg, d, s1, t);
      steps := [Yield] + rest;
      assert steps[1..] == rest;
    }
  }

  lemma IndexUnique(q: seq<Tid>, i: nat, j: nat)
    requires i < |q| && j < |q| && Distinct(q) && q[i] == q[j]
    ensures i == j
  {
  }

  /** READY thread t gets the processor and takes `step`. */
  lemma LetTake(cfg: Config, d: Discipline, s: State, t: Tid, step: Step) returns (steps: seq<Step>, s1: State, r: State)
    requires !cfg.prio && d == AnyClient && Inv(s) && t < |s.ready| && s.ready[t]
    requires forall x: State :: Inv(x) && SameButCurrent(s, x) && x.cur == t ==> Enabled(x, step) && Next(cfg, x, step).Running?
    ensures Inv(s1) && SameButCurrent(s, s1) && s1.cur == t && Enabled(s1, step) && Next(cfg, s1, step) == Running(r)
    ensures Runs(cfg, d, s, steps, r) && Inv(r) && SameStructure(Core(cfg, s1, step), r)
  {
    hide MutexQueues, SemaphoreQueues, Ownership, Ranges, References, Next, Core;
    CurrentQueued(s);
    var a;
    a, s1 := YieldUntil(cfg, d, s, t);
    r := Next(cfg, s1, step).s;
    StepKeeps(cfg, s1, step);
    StepIsCore(cfg, s1, step);
    assert [step][1..] == [];
    assert Runs(cfg, d, r, [], r);
    assert Runs(cfg, d, s1, [step], r);
    RunsAppend(cfg, d, s, a, s1, [step], r);
    steps := a + [step];
  }
}
