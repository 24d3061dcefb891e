/** Runs from initialisation in which a switch of inheritance leaves a READY thread above the running one. */
module UnsafeSwitches {
  import opened Prelude
  import opened KernelState
  import opened KernelInvariant
  import opened PriorityInheritance
  import opened Inversion
  import opened Schedules

  /** Three threads of different priorities, a mutex with inheritance on and a semaphore without units. */
  ghost predicate Setting(cfg: Config, s: State, m: Mid, k: Sid) {
    && cfg.prio && cfg.pi && cfg.repaired
    && Init(s) && Strict(s) && |s.ready| == 3 && s.base[0] < s.base[1] < s.base[2]
    && m < |s.owner| && s.piOn[m] && k < |s.count| && s.count[k] == 0
  }

  lemma MutexStepFields(cfg: Config, s: State, step: Step)
    requires Inv(s) && Enabled(s, step) && Next(cfg, s, step).Running? && (step.Lock? || step.TryLock? || step.Unlock?)
    ensures Next(cfg, s, step).s.base == s.base && Next(cfg, s, step).s.piOn == s.piOn
  {
    hide Structure, Ranges, References, RecomputedPriority, LockdepWalk, PopIndex, Without, Minus, PreemptEnable;
    CurrentQueued(s);
    match step
    case Lock(m) => PreemptEnableFields(cfg, LockCore(cfg, s, m));
    case TryLock(m) => PreemptEnableFields(cfg, if s.owner[m].None? then Acquire(s, m) else s);
    case Unlock(m) => PreemptEnableFields(cfg, if s.owner[m] == Some(s.cur) then UnlockOwned(cfg, s, m) else s);
  }

  lemma SwitchedFields(cfg: Config, s: State, m: Mid, on: bool)
    requires Sized(s) && m < |s.owner|
    ensures MutexSetPi(cfg, s, m, on).base == s.base && MutexSetPi(cfg, s, m, on).piOn == s.piOn[m := on]
  {
    hide RecomputedPriority, PreemptEnable;
    var s1 := s.(piOn := s.piOn[m := on]);
    PreemptEnableFields(cfg, if s.owner[m].Some? then Recompute(cfg, s1, s.owner[m].value) else s1);
  }

  lemma OtherStepFields(cfg: Config, s: State, step: Step)
    requires Inv(s) && Enabled(s, step) && (step.Down? || step.Up? || step.Yield? || step.Tick?)
    ensures Next(cfg, s, step).s.base == s.base && Next(cfg, s, step).s.piOn == s.piOn
  {
    hide Structure, Ranges, References, PickNext, RingAfter, PopIndex, Without, PreemptEnable, MaxReady;
    match step
    case Down(k) => PreemptEnableFields(cfg, DownCore(cfg, s, k));
    case Up(k) => PreemptEnableFields(cfg, UpCore(s, k));
    case Yield =>
    case Tick => PreemptEnableFields(cfg, SchedOnTick(cfg, s));
  }

  /** Bases never change, and flags of inheritance only by a switch. */
  lemma StepFields(cfg: Config, s: State, step: Step)
    requires Inv(s) && Enabled(s, step) && Next(cfg, s, step).Running?
    ensures var r := Next(cfg, s, step).s;
      r.base == s.base && r.piOn == if step.SetPi? then s.piOn[step.m := step.on] else s.piOn
  {
    if step.Lock? || step.TryLock? || step.Unlock? {
      MutexStepFields(cfg, s, step);
    } else if step.SetPi? {
      SwitchedFields(cfg, s, step.m, step.on);
    } else if step.PreemptPair? {
      PreemptEnableFields(cfg, s);
    } else {
      OtherStepFields(cfg, s, step);
    }
    hide Structure, Ranges, References, PreemptEnable, MutexLock, MutexTryLock, MutexUnlock, MutexSetPi, SemDown, SemUp,
      ThreadYield, SchedOnTick;
  }

  /** One step of a strict run. */
  lemma Take(cfg: Config, s: State, step: Step) returns (r: State)
    requires cfg.prio && cfg.pi && cfg.repaired && Steady(cfg, s)
    requires Enabled(s, step) && Allowed(NoNesting, s, step) && Next(cfg, s, step).Running? && KeepsStrict(s, step)
    ensures Steady(cfg, r) && Strict(r) && SameStructure(Core(cfg, s, step), r)
    ensures r.base == s.base && r.piOn == if step.SetPi? then s.piOn[step.m := step.on] else s.piOn
    ensures r == Next(cfg, s, step).s && Runs(cfg, NoNesting, s, [step], r)
  {
    hide Structure, Ranges, References, UpToDate, NoOwnerWaits, Strict, Next, Core, KeepsStrict;
    r := Next(cfg, s, step).s;
    StepIsSteady(cfg, s, step);
    StepIsStrict(cfg, s, step);
    StepFields(cfg, s, step);
    assert [step][1..] == [];
    assert Runs(cfg, NoNesting, r, [], r);
  }

  /** Thread 0 owns m or not, thread 2 waits on it or not, and nothing else is owned or waited for. */
  ghost predicate Scene(s: State, s0: State, m: Mid, k: Sid, ready: seq<bool>, own: bool, wait: bool,
                        asleep: seq<Tid>) {
    && Sized(s) && m < |s.owner| && k < |s.count| && |s0.base| == 3 && s0.base[0] < s0.base[1] < s0.base[2]
    && s.base == s0.base && s.ready == ready && |ready| == 3 && ready[0] && (wait ==> own && !ready[2])
    && s.owned == [if own then [m] else [], [], []]
    && s.waitingOn == [None, None, if wait then Some(m) else None]
    && (forall x :: 0 <= x < |s.owner| ==> s.owner[x] == if own && x == m then Some(0) else None)
    && (forall x :: 0 <= x < |s.owner| ==> s.waiters[x] == if wait && x == m then [2] else [])
    && s.sleepers[k] == asleep && s.count[k] == -|asleep|
  }

  /** Priorities in a scene: thread 0 has that of thread 2 while it is waited for with inheritance on. */
  lemma SceneEff(cfg: Config, s: State, s0: State, m: Mid, k: Sid, ready: seq<bool>, own: bool, wait: bool,
                 asleep: seq<Tid>)
    requires cfg.pi && Scene(s, s0, m, k, ready, own, wait, asleep) && Steady(cfg, s)
    ensures s.eff[1] == s.base[1] && s.eff[2] == s.base[2]
    ensures s.eff[0] == if wait && s.piOn[m] then s.base[2] else s.base[0]
  {
    hide Structure, Ranges, References, UpToDate, NoOwnerWaits;
    UpToDateIsMaximum(cfg, s, 0);
    UpToDateIsMaximum(cfg, s, 1);
    UpToDateIsMaximum(cfg, s, 2);
    if wait && s.piOn[m] { assert Donates(s, 2, 0); }
  }

  /** In a strict scene the running thread is known, and strictly above the other READY ones. */
  lemma SceneRuns(cfg: Config, s: State, s0: State, m: Mid, k: Sid, ready: seq<bool>, own: bool, wait: bool,
                  asleep: seq<Tid>)
    requires cfg.pi && Scene(s, s0, m, k, ready, own, wait, asleep) && Steady(cfg, s) && Strict(s)
    ensures s.cur == if ready[2] then 2 else if wait && s.piOn[m] then 0 else if ready[1] then 1 else 0
    ensures forall u :: 0 <= u < |s.ready| && s.ready[u] && u != s.cur ==> s.eff[u] < s.eff[s.cur]
    ensures forall u :: 0 <= u < |s.ready| && s.ready[u] ==> u in s.rq
  {
    SceneEff(cfg, s, s0, m, k, ready, own, wait, asleep);
    hide MutexQueues, SemaphoreQueues, Ownership, Ranges, References, UpToDate, NoOwnerWaits;
  }

  lemma SceneSame(c: State, r: State, s0: State, m: Mid, k: Sid, ready: seq<bool>, own: bool, wait: bool,
                  asleep: seq<Tid>)
    requires Scene(c, s0, m, k, ready, own, wait, asleep) && Sized(r) && SameStructure(c, r) && r.base == c.base
    ensures Scene(r, s0, m, k, ready, own, wait, asleep)
  {
    hide References;
  }

  /** A step that is known to lead to a scene. */
  lemma TakeTo(cfg: Config, s: State, step: Step, s0: State, m: Mid, k: Sid, ready: seq<bool>, own: bool, wait: bool,
               asleep: seq<Tid>) returns (r: State)
    requires cfg.prio && cfg.pi && cfg.repaired && Steady(cfg, s) && Enabled(s, step) && KeepsStrict(s, step)
    requires Allowed(NoNesting, s, step) && Next(cfg, s, step).Running?
    requires Scene(Core(cfg, s, step), s0, m, k, ready, own, wait, asleep) && Core(cfg, s, step).base == s.base
    ensures Steady(cfg, r) && Strict(r) && Scene(r, s0, m, k, ready, own, wait, asleep)
    ensures r.piOn == if step.SetPi? then s.piOn[step.m := step.on] else s.piOn
    ensures r == Next(cfg, s, step).s && Runs(cfg, NoNesting, s, [step], r)
  {
    r := Take(cfg, s, step);
    hide Structure, Ranges, References, UpToDate, NoOwnerWaits, Strict, Next, Core, KeepsStrict, Scene, Runs;
    SceneSame(Core(cfg, s, step), r, s0, m, k, ready, own, wait, asleep);
  }

  // ---- The steps of the run ----

  /** Thread 2 first, then thread 1, finds no unit and goes to sleep. */
  lemma SceneSleeps(cfg: Config, s: State, s0: State, m: Mid, k: Sid, first: bool) returns (r: State)
    requires cfg.prio && cfg.pi && cfg.repaired && Steady(cfg, s) && Strict(s)
    requires Scene(s, s0, m, k, [true, true, first], false, false, if first then [] else [2])
    ensures Steady(cfg, r) && Strict(r) && r.piOn == s.piOn
    ensures Scene(r, s0, m, k, [true, first, false], false, false, if first then [2] else [1, 2])
    ensures Runs(cfg, NoNesting, s, [Down(k)], r)
  {
    var ready, asleep := [true, true, first], if first then [] else [2];
    SceneRuns(cfg, s, s0, m, k, ready, false, false, asleep);
    TwoQueued(s, s.cur, 0);
    SleepScene(cfg, s, s0, m, k, ready, asleep);
    assert ready[s.cur := false] == [true, first, false];
    assert [s.cur] + asleep == if first then [2] else [1, 2];
    hide Structure, Ranges, UpToDate, NoOwnerWaits, Strict, Runs, Core, Scene;
    r := TakeTo(cfg, s, Down(k), s0, m, k, [true, first, false], false, false, if first then [2] else [1, 2]);
  }

  lemma SleepScene(cfg: Config, s: State, s0: State, m: Mid, k: Sid, ready: seq<bool>, asleep: seq<Tid>)
    requires cfg.repaired && Scene(s, s0, m, k, ready, false, false, asleep) && 1 <= s.cur
    requires Enabled(s, Down(k))
    ensures Scene(Core(cfg, s, Down(k)), s0, m, k, ready[s.cur := false], false, false, [s.cur] + asleep)
    ensures Core(cfg, s, Down(k)).base == s.base
  {
  }

  /** Two READY threads are two entries of the run queue. */
  lemma TwoQueued(s: State, t: Tid, u: Tid)
    requires t in s.rq && u in s.rq && t != u
    ensures |s.rq| >= 2
  {
  }

  /** Thread 0, alone, takes m. */
  lemma SceneAcquires(cfg: Config, s: State, s0: State, m: Mid, k: Sid, asleep: seq<Tid>) returns (r: State)
    requires cfg.prio && cfg.pi && cfg.repaired && Steady(cfg, s) && Strict(s)
    requires Scene(s, s0, m, k, [true, false, false], false, false, asleep)
    ensures Steady(cfg, r) && Strict(r) && r.piOn == s.piOn
    ensures Scene(r, s0, m, k, [true, false, false], true, false, asleep)
    ensures Runs(cfg, NoNesting, s, [Lock(m)], r)
  {
    SceneRuns(cfg, s, s0, m, k, [true, false, false], false, false, asleep);
    assert [m] + s.owned[0] == [m];
    assert s.owned[0 := [m]] == [[m], [], []] && s.waitingOn[0 := None] == s.waitingOn;
    hide Structure, Ranges, UpToDate, NoOwnerWaits, Strict, Runs;
    r := TakeTo(cfg, s, Lock(m), s0, m, k, [true, false, false], true, false, asleep);
  }

  /** Thread 0 wakes the sleeper of the highest priority. */
  lemma SceneWakes(cfg: Config, s: State, s0: State, m: Mid, k: Sid, wait: bool, asleep: seq<Tid>) returns (r: State)
    requires cfg.prio && cfg.pi && cfg.repaired && Steady(cfg, s) && Strict(s)
    requires Scene(s, s0, m, k, [true, false, false], true, wait, asleep) && asleep == if wait then [1] else [1, 2]
    ensures Steady(cfg, r) && Strict(r) && r.piOn == s.piOn
    ensures Scene(r, s0, m, k, [true, wait, !wait], true, wait, if wait then [] else [1])
    ensures Runs(cfg, NoNesting, s, [Up(k)], r)
  {
    SceneEff(cfg, s, s0, m, k, [true, false, false], true, wait, asleep);
    WakeScene(cfg, s, s0, m, k, wait, asleep);
    UpIsCore(cfg, s, k);
    hide *;
    r := TakeTo(cfg, s, Up(k), s0, m, k, [true, wait, !wait], true, wait, if wait then [] else [1]);
  }

  lemma UpIsCore(cfg: Config, s: State, k: Sid)
    requires Sized(s) && k < |s.count| && Strict(s)
    ensures Enabled(s, Up(k)) && Core(cfg, s, Up(k)) == UpCore(s, k) && Next(cfg, s, Up(k)).Running?
    ensures Allowed(NoNesting, s, Up(k)) && KeepsStrict(s, Up(k))
  {
    hide References, UpCore, SemUp, Strict;
  }

  lemma WakeScene(cfg: Config, s: State, s0: State, m: Mid, k: Sid, wait: bool, asleep: seq<Tid>)
    requires Scene(s, s0, m, k, [true, false, false], true, wait, asleep) && asleep == if wait then [1] else [1, 2]
    requires s.eff[1] < s.eff[2]
    ensures Scene(UpCore(s, k), s0, m, k, [true, wait, !wait], true, wait, if wait then [] else [1])
    ensures UpCore(s, k).base == s.base
  {
    var i := PopIndex(s.eff, asleep);
    var n := if wait then 1 else 2;
    assert asleep[i] == n && Without(asleep, i) == if wait then [] else [1];
    hide PopIndex, Without, References;
    var r := UpCore(s, k);
    assert r.ready == s.ready[n := true] && r.count == s.count[k := s.count[k] + 1];
    assert r.sleepers == s.sleepers[k := if wait then [] else [1]];
    assert r.owned == s.owned && r.waitingOn == s.waitingOn && r.owner == s.owner && r.waiters == s.waiters;
    hide UpCore;
  }

  /** Thread 2 blocks on m. */
  lemma SceneBlocks(cfg: Config, s: State, s0: State, m: Mid, k: Sid, asleep: seq<Tid>) returns (r: State)
    requires cfg.prio && cfg.pi && cfg.repaired && Steady(cfg, s) && Strict(s)
    requires Scene(s, s0, m, k, [true, false, true], true, false, asleep)
    ensures Steady(cfg, r) && Strict(r) && r.piOn == s.piOn
    ensures Scene(r, s0, m, k, [true, false, false], true, true, asleep)
    ensures Runs(cfg, NoNesting, s, [Lock(m)], r)
  {
    SceneRuns(cfg, s, s0, m, k, [true, false, true], true, false, asleep);
    TwoQueued(s, s.cur, 0);
    hide Structure, Ranges, UpToDate, NoOwnerWaits, Strict, Runs;
    BlockScene(cfg, s, s0, m, k, asleep);
    hide Core, Scene;
    r := TakeTo(cfg, s, Lock(m), s0, m, k, [true, false, false], true, true, asleep);
  }

  lemma BlockScene(cfg: Config, s: State, s0: State, m: Mid, k: Sid, asleep: seq<Tid>)
    requires cfg.repaired && Scene(s, s0, m, k, [true, false, true], true, false, asleep) && s.cur == 2
    requires Enabled(s, Lock(m))
    ensures Next(cfg, s, Lock(m)).Running? && Allowed(NoNesting, s, Lock(m))
    ensures Scene(Core(cfg, s, Lock(m)), s0, m, k, [true, false, false], true, true, asleep)
    ensures Core(cfg, s, Lock(m)).base == s.base
  {
    hide RecomputedPriority, PreemptEnable;
    assert s.ready[2 := false] == [true, false, false];
    assert s.waitingOn[2 := Some(m)] == [None, None, Some(m)];
  }

  /** A preempt_disable and preempt_enable answer a pending request without moving. */
  lemma SceneQuiet(cfg: Config, s: State, s0: State, m: Mid, k: Sid, ready: seq<bool>, own: bool, wait: bool,
                   asleep: seq<Tid>)
    returns (r: State)
    requires cfg.prio && cfg.pi && cfg.repaired && Steady(cfg, s) && Strict(s)
    requires Scene(s, s0, m, k, ready, own, wait, asleep)
    ensures Steady(cfg, r) && Strict(r) && r.piOn == s.piOn && Scene(r, s0, m, k, ready, own, wait, asleep)
    ensures r.need == NEED_NONE && Runs(cfg, NoNesting, s, [PreemptPair], r)
  {
    SceneRuns(cfg, s, s0, m, k, ready, own, wait, asleep);
    hide MutexQueues, SemaphoreQueues, Ownership, UpToDate, NoOwnerWaits, Strict, Runs, PickNext, Scene;
    r := TakeTo(cfg, s, PreemptPair, s0, m, k, ready, own, wait, asleep);
    PickIsMaximal(s, s.need == NEED_ROTATE, s.need == NEED_ROTATE);
  }

  // ---- The runs ----

  /** Thread 0 owns m, on which thread 2 waits, thread 1 is READY, and nobody has asked for a reschedule. */
  lemma Boosted(cfg: Config, s0: State, m: Mid, k: Sid) returns (steps: seq<Step>, s: State)
    requires Setting(cfg, s0, m, k)
    ensures Runs(cfg, NoNesting, s0, steps, s) && Steady(cfg, s) && Strict(s) && s.need == NEED_NONE
    ensures s.piOn == s0.piOn
    ensures Scene(s, s0, m, k, [true, true, false], true, true, [])
  {
    var a, b, s4;
    a, s4 := Owned(cfg, s0, m, k);
    b, s := Contended(cfg, s4, s0, m, k);
    hide *;
    InitIsSteady(cfg, s0);
    steps := Chain(cfg, s0, a, s4, b, s);
  }

  /** Threads 2 and 1 go to sleep, thread 0 takes m and wakes thread 2. */
  lemma Owned(cfg: Config, s0: State, m: Mid, k: Sid) returns (steps: seq<Step>, s: State)
    requires Setting(cfg, s0, m, k)
    ensures Runs(cfg, NoNesting, s0, steps, s) && Steady(cfg, s) && Strict(s) && s.piOn == s0.piOn
    ensures Scene(s, s0, m, k, [true, false, true], true, false, [1])
  {
    InitIsSteady(cfg, s0);
    InitScene(cfg, s0, m, k);
    hide *;
    var s1 := SceneSleeps(cfg, s0, s0, m, k, true);
    var s2 := SceneSleeps(cfg, s1, s0, m, k, false);
    var s3 := SceneAcquires(cfg, s2, s0, m, k, [1, 2]);
    s := SceneWakes(cfg, s3, s0, m, k, false, [1, 2]);
    steps := Chain(cfg, s2, [Lock(m)], s3, [Up(k)], s);
    steps := Chain(cfg, s1, [Down(k)], s2, steps, s);
    steps := Chain(cfg, s0, [Down(k)], s1, steps, s);
  }

  /** Thread 2 waits for m, thread 0 wakes thread 1 and goes on. */
  lemma Contended(cfg: Config, s4: State, s0: State, m: Mid, k: Sid) returns (steps: seq<Step>, s: State)
    requires cfg.prio && cfg.pi && cfg.repaired && Steady(cfg, s4) && Strict(s4)
    requires Scene(s4, s0, m, k, [true, false, true], true, false, [1])
    ensures Runs(cfg, NoNesting, s4, steps, s) && Steady(cfg, s) && Strict(s) && s.need == NEED_NONE
    ensures s.piOn == s4.piOn
    ensures Scene(s, s0, m, k, [true, true, false], true, true, [])
  {
    hide *;
    var s5 := SceneBlocks(cfg, s4, s0, m, k, [1]);
    var s6 := SceneWakes(cfg, s5, s0, m, k, true, [1]);
    s := SceneQuiet(cfg, s6, s0, m, k, [true, true, false], true, true, []);
    steps := Chain(cfg, s5, [Up(k)], s6, [PreemptPair], s);
    steps := Chain(cfg, s4, [Lock(m)], s5, steps, s);
  }

  lemma Chain(cfg: Config, s: State, a: seq<Step>, m: State, b: seq<Step>, r: State) returns (steps: seq<Step>)
    requires Steady(cfg, s) && Steady(cfg, m) && Runs(cfg, NoNesting, s, a, m) && Runs(cfg, NoNesting, m, b, r)
    ensures Runs(cfg, NoNesting, s, steps, r)
  {
    RunsAppend(cfg, NoNesting, s, a, m, b, r);
    steps := a + b;
  }

  lemma InitScene(cfg: Config, s0: State, m: Mid, k: Sid)
    requires Setting(cfg, s0, m, k)
    ensures Scene(s0, s0, m, k, [true, true, true], false, false, [])
  {
  }

  /**
   * Switching off: from every setting a run ends where mutex_set_pi_enabled(m, 0), called by the boosted
   * owner, drops it below a READY thread without a reschedule.
   */
  lemma SwitchingOffFails(cfg: Config, s0: State, m: Mid, k: Sid) returns (steps: seq<Step>, s: State)
    requires Setting(cfg, s0, m, k)
    ensures Runs(cfg, NoNesting, s0, steps, s) && Steady(cfg, s) && Strict(s) && Enabled(s, SetPi(m, false))
    ensures s.owner[m] == Some(s.cur) && !Strict(Next(cfg, s, SetPi(m, false)).s)
  {
    steps, s := Boosted(cfg, s0, m, k);
    DroppedBelow(cfg, s, s0, m, k);
  }

  lemma DroppedBelow(cfg: Config, s: State, s0: State, m: Mid, k: Sid)
    requires cfg.pi && Steady(cfg, s) && Strict(s) && s.need == NEED_NONE
    requires Scene(s, s0, m, k, [true, true, false], true, true, []) && s.piOn[m]
    ensures Enabled(s, SetPi(m, false)) && s.owner[m] == Some(0) && s.cur == 0
    ensures !Strict(Next(cfg, s, SetPi(m, false)).s)
  {
    SceneRuns(cfg, s, s0, m, k, [true, true, false], true, true, []);
    SceneEff(cfg, s, s0, m, k, [true, true, false], true, true, []);
    hide Structure, Ranges, References, UpToDate, NoOwnerWaits, Strict;
    assert !OtherDonor(s, m, s.eff[1]);
    SwitchIsExact(cfg, s, m, false);
  }

  /**
   * Switching on: one tick later thread 1 runs, and its mutex_set_pi_enabled(m, 1) raises the READY owner
   * above it without a reschedule.
   */
  lemma SwitchingOnFails(cfg: Config, s0: State, m: Mid, k: Sid) returns (steps: seq<Step>, s: State)
    requires Setting(cfg, s0, m, k)
    ensures Runs(cfg, NoNesting, s0, steps, s) && Steady(cfg, s) && Strict(s) && Enabled(s, SetPi(m, true))
    ensures s.owner[m].Some? && s.owner[m] != Some(s.cur) && !Strict(Next(cfg, s, SetPi(m, true)).s)
  {
    var a, s1 := Boosted(cfg, s0, m, k);
    InitIsSteady(cfg, s0);
    var b;
    b, s := ThenOff(cfg, s1, s0, m, k);
    steps := Chain(cfg, s0, a, s1, b, s);
    RaisedAbove(cfg, s, s0, m, k);
  }

  lemma RaisedAbove(cfg: Config, s: State, s0: State, m: Mid, k: Sid)
    requires cfg.pi && Steady(cfg, s) && Strict(s) && s.need == NEED_NONE
    requires Scene(s, s0, m, k, [true, true, false], true, true, []) && !s.piOn[m]
    ensures Enabled(s, SetPi(m, true)) && s.owner[m] == Some(0) && s.cur == 1
    ensures !Strict(Next(cfg, s, SetPi(m, true)).s)
  {
    SceneRuns(cfg, s, s0, m, k, [true, true, false], true, true, []);
    SceneEff(cfg, s, s0, m, k, [true, true, false], true, true, []);
    hide Structure, Ranges, References, UpToDate, NoOwnerWaits, Strict;
    assert 2 in s.waiters[m];
    SwitchIsExact(cfg, s, m, true);
  }

  lemma SceneTicks(cfg: Config, s: State, s0: State, m: Mid, k: Sid, ready: seq<bool>, own: bool, wait: bool,
                   asleep: seq<Tid>)
    returns (r: State)
    requires cfg.prio && cfg.pi && cfg.repaired && Steady(cfg, s) && Scene(s, s0, m, k, ready, own, wait, asleep)
    ensures Steady(cfg, r) && Strict(r) && r.piOn == s.piOn && Scene(r, s0, m, k, ready, own, wait, asleep)
    ensures Runs(cfg, NoNesting, s, [Tick], r)
  {
    hide Structure, Ranges, References, UpToDate, NoOwnerWaits, Strict, Runs, Scene, SchedOnTick, PreemptEnable;
    r := TakeTo(cfg, s, Tick, s0, m, k, ready, own, wait, asleep);
  }

  lemma TurnedOff(cfg: Config, s1: State, s0: State, m: Mid, k: Sid) returns (s2: State)
    requires cfg.pi && cfg.repaired && Steady(cfg, s1) && Scene(s1, s0, m, k, [true, true, false], true, true, [])
    ensures Steady(cfg, s2) && Scene(s2, s0, m, k, [true, true, false], true, true, []) && !s2.piOn[m]
    ensures Runs(cfg, NoNesting, s1, [SetPi(m, false)], s2)
  {
    var off := SetPi(m, false);
    StepIsSteady(cfg, s1, off);
    SwitchedFields(cfg, s1, m, false);
    s2 := Next(cfg, s1, off).s;
    hide Structure, Ranges, UpToDate, NoOwnerWaits, MutexSetPi;
    assert [off][1..] == [] && Runs(cfg, NoNesting, s2, [], s2);
    SceneSame(s1, s2, s0, m, k, [true, true, false], true, true, []);
  }

  lemma ThenOff(cfg: Config, s1: State, s0: State, m: Mid, k: Sid) returns (steps: seq<Step>, s: State)
    requires cfg.prio && cfg.pi && cfg.repaired && Steady(cfg, s1) && Strict(s1) && s1.need == NEED_NONE
    requires Scene(s1, s0, m, k, [true, true, false], true, true, [])
    ensures Runs(cfg, NoNesting, s1, steps, s) && Steady(cfg, s) && Strict(s) && s.need == NEED_NONE
    ensures Scene(s, s0, m, k, [true, true, false], true, true, []) && !s.piOn[m]
  {
    var s2 := TurnedOff(cfg, s1, s0, m, k);
    hide *;
    var s3 := SceneTicks(cfg, s2, s0, m, k, [true, true, false], true, true, []);
    s := SceneQuiet(cfg, s3, s0, m, k, [true, true, false], true, true, []);
    steps := Chain(cfg, s2, [Tick], s3, [PreemptPair], s);
    steps := Chain(cfg, s1, [SetPi(m, false)], s2, steps, s);
  }
}
