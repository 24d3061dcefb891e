/** Conservation of semaphore units over whole runs. */
module Semaphores {
  import opened Prelude
  import opened KernelState
  import opened KernelInvariant
  import opened WaitQueues

  ghost function Starts(steps: seq<Step>, k: Sid): nat {
    if steps == [] then 0 else (if steps[0] == Down(k) then 1 else 0) + Starts(steps[1..], k)
  }

  ghost function Ups(steps: seq<Step>, k: Sid): nat {
    if steps == [] then 0 else (if steps[0] == Up(k) then 1 else 0) + Ups(steps[1..], k)
  }

  /** Does this step let a sem_down(k) return: its own at once, or a sleeper's by waking it? */
  ghost predicate Completes(s: State, step: Step, k: Sid)
    requires Sized(s) && k < |s.count|
  {
    (step == Down(k) && s.count[k] > 0) || (step == Up(k) && Wakes(s, k))
  }

  /** Number of completed downs on k in the run of `steps` from s. */
  ghost function Completed(cfg: Config, s: State, steps: seq<Step>, k: Sid): nat
    requires Sized(s) && k < |s.count|
    decreases |steps|
  {
    if steps == [] || !Enabled(s, steps[0]) || Next(cfg, s, steps[0]).Halted? then 0
    else
      var r := Next(cfg, s, steps[0]).s;
      (if Completes(s, steps[0], k) then 1 else 0) + if k < |r.count| then Completed(cfg, r, steps[1..], k) else 0
  }

  /** What one step does to the count and the queue of semaphore k. */
  lemma StepUnits(cfg: Config, s: State, step: Step, k: Sid)
    requires Inv(s) && Enabled(s, step) && Next(cfg, s, step).Running? && k < |s.count|
    ensures var r := Next(cfg, s, step).s;
      && |r.count| == |s.count|
      && r.count[k] == s.count[k] + (if step == Up(k) then 1 else 0) - (if step == Down(k) then 1 else 0)
      && (step != Down(k) && step != Up(k) ==> r.sleepers[k] == s.sleepers[k])
      && (step == Up(k) ==> |r.sleepers[k]| == |s.sleepers[k]| - if Wakes(s, k) then 1 else 0)
      && (step == Down(k) && s.count[k] > 0 ==> r.sleepers[k] == s.sleepers[k])
      && (step == Down(k) && s.count[k] <= 0 ==>
            r.sleepers[k] == AfterBlock(cfg, s.cur, s.sleepers[k]))
  {
    hide RunQueue, MutexQueues, SemaphoreQueues, Ownership, Ranges, References, Next, RecomputedPriority;
    StepIsCore(cfg, s, step);
  }

  /** The four quantities move together along any run. */
  lemma {:induction false} RunUnits(cfg: Config, d: Discipline, s: State, steps: seq<Step>, r: State, k: Sid)
    requires Inv(s) && Runs(cfg, d, s, steps, r) && k < |s.count|
    ensures Sized(r) && |r.count| == |s.count|
    ensures r.count[k] == s.count[k] + Ups(steps, k) - Starts(steps, k)
    ensures Completed(cfg, s, steps, k) + |r.sleepers[k]| <= |s.sleepers[k]| + Starts(steps, k)
    ensures cfg.repaired ==> Completed(cfg, s, steps, k) + |r.sleepers[k]| == |s.sleepers[k]| + Starts(steps, k)
    ensures Completed(cfg, s, steps, k) <= Max(0, s.count[k]) + Ups(steps, k)
    decreases |steps|
  {
    hide Structure, Ranges, References, Next;
    if steps != [] {
      var s1 := Next(cfg, s, steps[0]).s;
      StepKeeps(cfg, s, steps[0]);
      StepUnits(cfg, s, steps[0], k);
      RunUnits(cfg, d, s1, steps[1..], r, k);
    }
  }

  /**
   * From initialisation, the count is the initial value plus the ups minus the downs started, and no
   * more downs complete than units were ever there, as written or repaired.
   */
  lemma Conservation(cfg: Config, d: Discipline, s0: State, steps: seq<Step>, s: State, k: Sid)
    requires Init(s0) && Runs(cfg, d, s0, steps, s) && k < |s0.count|
    ensures Sized(s) && k < |s.count| && s.count[k] == s0.count[k] + Ups(steps, k) - Starts(steps, k)
    ensures Completed(cfg, s0, steps, k) <= s0.count[k] + Ups(steps, k)
    ensures Completed(cfg, s0, steps, k) + |s.sleepers[k]| <= Starts(steps, k)
  {
    InitInv(s0);
    RunUnits(cfg, d, s0, steps, s, k);
  }

  /** Repaired, no wake-up is lost: exactly as many downs complete as were started and had a unit. */
  lemma NoLostWakeUp(cfg: Config, d: Discipline, s0: State, steps: seq<Step>, s: State, k: Sid)
    requires cfg.repaired && Init(s0) && Runs(cfg, d, s0, steps, s) && k < |s0.count|
    ensures Sized(s) && k < |s.count| && |s.sleepers[k]| == Max(0, -s.count[k])
    ensures var units := s0.count[k] + Ups(steps, k);
      Completed(cfg, s0, steps, k) == if Starts(steps, k) <= units then Starts(steps, k) else units
  {
    InitInv(s0);
    RunUnits(cfg, d, s0, steps, s, k);
    NoLostWaiter(cfg, d, s0, steps, s);
  }
}
