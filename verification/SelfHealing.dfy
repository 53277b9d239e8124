/** The mutual recursion between running a plan and repairing it (`execute_action_plan_inner` and
    `handle_runtime_sensor_update`, src-tauri/src/agentic_loop.rs, lines 4003-4028 and 4287-4518). */
module SelfHealing {
  import opened Basics

  const SELF_HEALING_MAX_ATTEMPTS: nat := 3

  datatype Plan = Plan(id: string, objective: string, steps: nat)

  /** `SelfHealingRunState`. */
  datatype Healing = Healing(attempts: nat, maxAttempts: nat, rootObjective: string)

  /** What running one step can come to: a certified output, a failure the runtime sensor captures,
      or an error that ends the run. */
  datatype Outcome = Done(output: string) | SensorFailure | Halted

  /** Everything outside these two functions: where a plan resumes, what its steps do, whether the
      sensor record could be stored, and the corrective plan the planner compiles, if any. */
  datatype World = World(
    recovered: Plan -> seq<string>,
    outcome: (Plan, nat, nat) -> Outcome,
    recordOk: (Plan, nat) -> bool,
    repair: (Plan, string, nat) -> Option<Plan>)

  datatype RunRecord = RunRecord(plan: Plan, attempts: nat, maxAttempts: nat, rootObjective: string)

  datatype SensorRecord = SensorRecord(attempt: nat, maxAttempts: nat, rootObjective: string)

  datatype Verdict = Completed(outputs: seq<string>) | Exhausted | Failed

  function Attempts(h: Option<Healing>): nat { if h.Some? then h.value.attempts else 0 }

  function MaxAttempts(h: Option<Healing>): nat {
    if h.Some? then h.value.maxAttempts else SELF_HEALING_MAX_ATTEMPTS
  }

  function Root(plan: Plan, h: Option<Healing>): string {
    if h.Some? then h.value.rootObjective else plan.objective
  }

  function Left(h: Option<Healing>): nat { Monus(MaxAttempts(h), Attempts(h)) }

  /** How many plan runs a state allows: at least the one that is asked for. */
  function Allowance(h: Option<Healing>): nat { Max(1, Left(h)) }

  /** What the records of a call tell: the attempt counter goes up by one from run to run, while
      the limit and the root objective never change; every run but the last ended in a record. */
  ghost predicate Orderly(runs: seq<RunRecord>, sensors: seq<SensorRecord>, first: nat, limit: nat, root: string) {
    && |sensors| <= |runs| <= |sensors| + 1
    && (forall i :: 0 <= i < |runs| ==>
          runs[i].attempts == first + i && runs[i].maxAttempts == limit && runs[i].rootObjective == root)
    && (forall i :: 0 <= i < |sensors| ==> sensors[i] == SensorRecord(first + i + 1, limit, root))
  }

  // ---------------------------------------------------------------------------------------
  // Why a run ended
  // ---------------------------------------------------------------------------------------

  /** The first step from `step` on that is not simply done. */
  function FirstStop(world: World, plan: Plan, attempts: nat, step: nat): Option<nat>
    decreases Monus(plan.steps, step)
  {
    if step >= plan.steps then None
    else if world.outcome(plan, attempts, step).Done? then FirstStop(world, plan, attempts, step + 1)
    else Some(step)
  }

  /** Where a recorded run stopped, starting after its recovered outputs. */
  function Stop(world: World, run: RunRecord): Option<nat> {
    FirstStop(world, run.plan, run.attempts, |world.recovered(run.plan)|)
  }

  predicate Failing(world: World, run: RunRecord) {
    Stop(world, run).Some? && world.outcome(run.plan, run.attempts, Stop(world, run).value).SensorFailure?
  }

  /** A run that was followed by another: its failure was recorded, attempts were left, and the planner
      compiled the next plan for the root objective. */
  predicate Repaired(world: World, run: RunRecord, next: RunRecord) {
    && Failing(world, run) && world.recordOk(run.plan, run.attempts + 1)
    && run.attempts + 1 < run.maxAttempts
    && world.repair(run.plan, run.rootObjective, run.attempts + 1) == Some(next.plan)
  }

  /** How the last run accounts for the verdict. `recorded` says whether its failure was recorded. */
  ghost predicate Accounts(world: World, run: RunRecord, recorded: bool, verdict: Verdict) {
    match verdict
    case Completed(outputs) =>
      && !recorded && Stop(world, run).None?
      && var recovered := world.recovered(run.plan);
      && |outputs| == Max(|recovered|, run.plan.steps) && recovered <= outputs
      && forall k :: |recovered| <= k < |outputs| ==> world.outcome(run.plan, run.attempts, k) == Done(outputs[k])
    case Exhausted =>
      && recorded && Failing(world, run) && world.recordOk(run.plan, run.attempts + 1)
      && run.attempts + 1 >= run.maxAttempts
    case Failed =>
      if recorded then
        && Failing(world, run) && world.recordOk(run.plan, run.attempts + 1) && run.attempts + 1 < run.maxAttempts
        && world.repair(run.plan, run.rootObjective, run.attempts + 1).None?
      else
        && Stop(world, run).Some?
        && (Failing(world, run) ==> !world.recordOk(run.plan, run.attempts + 1))
  }

  /** Every run but the last was repaired into the next, and the last accounts for the verdict. */
  ghost predicate Explained(world: World, verdict: Verdict, runs: seq<RunRecord>, recorded: nat) {
    && runs != [] && recorded <= |runs| <= recorded + 1
    && (forall i :: 0 <= i < |runs| - 1 ==> Repaired(world, runs[i], runs[i + 1]))
    && Accounts(world, runs[|runs| - 1], recorded == |runs|, verdict)
  }

  lemma ExplainedAfter(world: World, verdict: Verdict, first: RunRecord, runs: seq<RunRecord>, recorded: nat)
    requires Explained(world, verdict, runs, recorded) && Repaired(world, first, runs[0])
    ensures Explained(world, verdict, [first] + runs, recorded + 1)
  {
    hide Repaired, Accounts;
    var all := [first] + runs;
    forall i | 0 <= i < |all| - 1 ensures Repaired(world, all[i], all[i + 1]) {
      if i > 0 { assert Repaired(world, runs[i - 1], runs[i - 1 + 1]); }
    }
    assert all[|all| - 1] == runs[|runs| - 1];
  }

  function Record(plan: Plan, h: Option<Healing>): RunRecord {
    RunRecord(plan, Attempts(h), MaxAttempts(h), Root(plan, h))
  }

  /** `execute_action_plan_inner`, as far as attempts are concerned. */
  method ExecutePlan(plan: Plan, h: Option<Healing>, world: World)
    returns (verdict: Verdict, runs: seq<RunRecord>, sensors: seq<SensorRecord>)
    ensures runs != [] && runs[0].plan == plan
    ensures Explained(world, verdict, runs, |sensors|)
    ensures Orderly(runs, sensors, Attempts(h), MaxAttempts(h), Root(plan, h))
    ensures |runs| <= Allowance(h)
    ensures verdict.Exhausted? <==> |sensors| == Allowance(h)
    decreases Left(h), 1
  {
    runs := [Record(plan, h)];
    sensors := [];
    var outputs := world.recovered(plan);
    var step := |outputs|;
    while step < plan.steps
      invariant step == |outputs| <= Max(|world.recovered(plan)|, plan.steps)
      invariant FirstStop(world, plan, Attempts(h), step) == Stop(world, runs[0])
      invariant world.recovered(plan) <= outputs
      invariant forall k :: |world.recovered(plan)| <= k < step ==>
        world.outcome(plan, Attempts(h), k) == Done(outputs[k])
      decreases plan.steps - step
    {
      match world.outcome(plan, Attempts(h), step)
      case Done(output) =>
        outputs := outputs + [output];
        step := step + 1;
      case SensorFailure =>
        var more;
        verdict, more, sensors := HandleSensor(plan, h, world);
        runs := runs + more;
        return;
      case Halted =>
        return Failed, runs, sensors;
    }
    verdict := Completed(outputs);
  }

  /** `handle_runtime_sensor_update`: record the failure, stop when the attempts are used up, or run
      a corrective plan with the counter advanced and everything else unchanged. */
  method HandleSensor(plan: Plan, h: Option<Healing>, world: World)
    returns (verdict: Verdict, runs: seq<RunRecord>, sensors: seq<SensorRecord>)
    requires Failing(world, Record(plan, h))
    ensures Explained(world, verdict, [Record(plan, h)] + runs, |sensors|)
    ensures |runs| <= |sensors| <= |runs| + 1
    ensures forall i :: 0 <= i < |runs| ==>
      && runs[i].attempts == Attempts(h) + 1 + i
      && runs[i].maxAttempts == MaxAttempts(h)
      && runs[i].rootObjective == Root(plan, h)
    ensures forall i :: 0 <= i < |sensors| ==>
      sensors[i] == SensorRecord(Attempts(h) + i + 1, MaxAttempts(h), Root(plan, h))
    ensures |runs| < Allowance(h)
    ensures verdict.Exhausted? <==> |sensors| == Allowance(h)
    decreases Left(h), 0
  {
    var next := Attempts(h) + 1;
    var limit, root := MaxAttempts(h), Root(plan, h);
    if !world.recordOk(plan, next) {
      return Failed, [], [];
    }
    var record := SensorRecord(next, limit, root);
    if next >= limit {
      return Exhausted, [], [record];
    }
    var repair := world.repair(plan, root, next);
    if repair.None? {
      return Failed, [], [record];
    }
    var inner := Some(Healing(next, limit, root));
    var later;
    verdict, runs, later := ExecutePlan(repair.value, inner, world);
    sensors := [record] + later;
    ExplainedAfter(world, verdict, Record(plan, h), runs, |later|);
  }

  /** From a fresh start there are at most three plan runs and three sensor records, whatever the
      tools and the planner do, and the user's objective is the root objective of every one. */
  method ExecuteFresh(plan: Plan, world: World)
    returns (verdict: Verdict, runs: seq<RunRecord>, sensors: seq<SensorRecord>)
    ensures 1 <= |runs| <= 3 && |sensors| <= 3
    ensures forall i :: 0 <= i < |runs| ==>
      && runs[i].attempts == i
      && runs[i].maxAttempts == 3
      && runs[i].rootObjective == plan.objective
    ensures verdict.Exhausted? <==> |sensors| == 3
    ensures runs[0].plan == plan && Explained(world, verdict, runs, |sensors|)
  {
    verdict, runs, sensors := ExecutePlan(plan, None, world);
  }
}
