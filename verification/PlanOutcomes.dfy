/** The complete outcome of a plan run: which step stops it, which steps are executed, what each
    of them returns, and what is shown (core/plan_executor.py). */
module PlanOutcomes {
  import opened Options
  import opened PermissionGate
  import opened PlanExecution

  // ---- one step ----

  /** The codes the test runner reports by name; every other failure has the common code. */
  const TEST_CODES: map<string, Code> := map[
    "test_failure" := TestFailure, "timeout" := Timeout,
    "runtime_unavailable" := RuntimeUnavailable, "result_parse_error" := ResultParseError]

  function FailureCode(tool: string, reason: string): Code {
    if tool == "test_run" && reason in TEST_CODES then TEST_CODES[reason] else ToolReportedFailure
  }

  /** The whole result of a step: that of its call, with the data it returned, unless the data
      reports a failure; then the data is dropped and the failure has its code. */
  lemma StepResultIs(step: Step, result: ToolResult)
    ensures Judge(step, result) ==
            if result.status == Success && result.data.Some? && result.data.value.reportsFailure
            then StepResult(step.stepId, result.tool, Failed, None,
                            FailureCode(step.tool, result.data.value.reasonCode))
            else StepResult(step.stepId, result.tool, result.status, result.data, result.code)
  {
  }

  /** How a step is called: without a token, and under a prompt for its id unless its permission
      is automatic. */
  lemma StepCallIs(x: Context, g: Gate, step: Step)
    ensures var request := Request(step.tool, step.args, None);
            var answer := if x.manager.Some? then Some(x.manager.value(step.stepId)) else None;
            RunStep(x, g, step) ==
            if step.permission in x.automatic
            then (Execute(x.env, g, request).0, Judge(step, Execute(x.env, g, request).1))
            else var outcome := ExecuteWithConfirmation(x.env, g, x.maximum, request, answer);
                 (outcome.0, Judge(step, outcome.1))
  {
    hide Execute, ExecuteWithConfirmation, Judge;
  }

  // ---- the steps that are executed ----

  /** The gate after the first k steps. */
  function Gates(x: Context, g: Gate, steps: seq<Step>, k: nat): Gate
    requires k <= |steps|
  {
    if k == 0 then g else RunStep(x, Gates(x, g, steps, k - 1), steps[k - 1]).0
  }

  function ResultAt(x: Context, g: Gate, steps: seq<Step>, k: nat): StepResult
    requires k < |steps|
  {
    RunStep(x, Gates(x, g, steps, k), steps[k]).1
  }

  /** Everything before step i went well. */
  ghost predicate GoodSoFar(x: Context, g: Gate, steps: seq<Step>, i: nat)
    requires i <= |steps|
  {
    forall j :: 0 <= j < i ==> DependsOnEarlier(steps, j) && ResultAt(x, g, steps, j).Ok()
  }

  /** The state of a run that reached step i. */
  ghost predicate Reached(x: Context, g: Gate, steps: seq<Step>, i: nat, p: Progress)
    requires i <= |steps|
  {
    && p.stop.None? && p.g == Gates(x, g, steps, i) && p.completed == Ids(steps[..i])
    && GoodSoFar(x, g, steps, i) && HasResults(x, g, steps, i, p)
  }

  /** The results are those of the first i steps, each called after the ones before it. */
  ghost predicate HasResults(x: Context, g: Gate, steps: seq<Step>, i: nat, p: Progress)
    requires i <= |steps|
  {
    |p.results| == i && forall j :: 0 <= j < i ==> p.results[j] == ResultAt(x, g, steps, j)
  }

  /** How a run ends: after all steps, before a step that misses a dependency, or after one that failed. */
  ghost predicate EndsAt(x: Context, g: Gate, steps: seq<Step>, i: nat, p: Progress)
    requires i <= |steps|
  {
    && p.g == Gates(x, g, steps, i) && HasResults(x, g, steps, i, p)
    && (|| (p.stop == None && i == |steps| && GoodSoFar(x, g, steps, i))
        || ( && i < |steps| && p.stop == Some(Stop(IncompleteDependencies, steps[i].stepId))
             && GoodSoFar(x, g, steps, i) && !DependsOnEarlier(steps, i))
        || ( && 0 < i && p.stop == Some(Stop(StepFailed, steps[i - 1].stepId))
             && GoodSoFar(x, g, steps, i - 1) && DependsOnEarlier(steps, i - 1)
             && !ResultAt(x, g, steps, i - 1).Ok()))
  }

  lemma AdvanceReaches(x: Context, g: Gate, steps: seq<Step>, i: nat, p: Progress)
    requires i < |steps| && Reached(x, g, steps, i, p) && DependsOnEarlier(steps, i)
    ensures var q := Advance(x, steps, steps[i], p);
            if ResultAt(x, g, steps, i).Ok() then Reached(x, g, steps, i + 1, q) else EndsAt(x, g, steps, i + 1, q)
  {
    IdsStep(steps, i);
    hide RunStep, DependsOnEarlier, Ids, Ordinal, StepEvents;
    var q := Advance(x, steps, steps[i], p);
    assert q.g == Gates(x, g, steps, i + 1);
    assert q.results == p.results + [ResultAt(x, g, steps, i)];
  }

  lemma {:induction false} RunEnds(x: Context, g: Gate, steps: seq<Step>, i: nat, p: Progress)
    requires i <= |steps| && Reached(x, g, steps, i, p)
    ensures var q := RunSteps(x, steps, i, p); |q.results| <= |steps| && EndsAt(x, g, steps, |q.results|, q)
    decreases |steps| - i
  {
    RunStepsUnfold(x, steps, i, p);
    if i < |steps| {
      IdsStep(steps, i);
      if DependsOnEarlier(steps, i) {
        AdvanceReaches(x, g, steps, i, p);
        var q := Advance(x, steps, steps[i], p);
        hide Advance, DependsOnEarlier, Missing, Ids, RunSteps, GoodSoFar;
        if ResultAt(x, g, steps, i).Ok() {
          RunEnds(x, g, steps, i + 1, q);
        } else {
          RunStepsStopped(x, steps, i + 1, q);
        }
      }
    }
  }

  /** The whole outcome of a plan that passes its preflight, dependencies or not: it executes
      steps in order, each after the ones before it, until one misses a dependency or fails. */
  lemma PlanEnds(x: Context, g: Gate, plan: Plan)
    requires forall i :: 0 <= i < |plan.steps| ==> MayStart(x, plan.steps[i])
    ensures var (after, result, events) := ExecutePlan(x, g, plan);
            var n := |result.steps|;
            && n <= |plan.steps|
            && EndsAt(x, g, plan.steps, n, Progress(after, {}, result.steps, [], result.stop))
            && result.status == (if result.stop.None? then Completed else Aborted)
  {
    PreflightBlocksFirst(x, plan.steps);
    assert plan.steps[..0] == [];
    assert Reached(x, g, plan.steps, 0, Start(g));
    RunEnds(x, g, plan.steps, 0, Start(g));
    hide RunSteps, GoodSoFar, DependsOnEarlier;
  }

  // ---- the steps that stop a plan before it starts ----

  /** A step may start when its permission is automatic, or can be asked for, and its tool is registered. */
  predicate MayStart(x: Context, step: Step) {
    && (step.permission in x.automatic || (x.manager.Some? && step.permission in x.confirmable))
    && step.tool in x.env.registry
  }

  lemma {:induction false} PreflightStopsAt(x: Context, steps: seq<Step>, i: nat)
    requires i < |steps| && !MayStart(x, steps[i])
    requires forall j :: 0 <= j < i ==> MayStart(x, steps[j])
    ensures Preflight(x, steps) == Some(Stop(
              if steps[i].permission in x.automatic || (x.manager.Some? && steps[i].permission in x.confirmable)
              then ToolUnregistered else PermissionNotAutomatic, steps[i].stepId))
    decreases i
  {
    if i > 0 {
      assert MayStart(x, steps[0]);
      PreflightStopsAt(x, steps[1..], i - 1);
    }
  }

  /** The first step that may not start stops a valid plan before anything is called, and is what
      is shown: waiting for its permission, or failed without its tool. */
  lemma PlanIsBlocked(x: Context, g: Gate, plan: Plan, i: nat)
    requires ValidPlan(plan) && i < |plan.steps| && !MayStart(x, plan.steps[i])
    requires forall j :: 0 <= j < i ==> MayStart(x, plan.steps[j])
    ensures var step := plan.steps[i];
            var permitted := step.permission in x.automatic || (x.manager.Some? && step.permission in x.confirmable);
            ExecutePlan(x, g, plan) ==
            (g,
             PlanResult(Blocked, [], Some(Stop(if permitted then ToolUnregistered else PermissionNotAutomatic,
                                               step.stepId))),
             [Event(PlanReady, 0), Event(if permitted then FailedStage else Awaiting, i + 1)])
  {
    PreflightStopsAt(x, plan.steps, i);
    OrdinalIsIndex(plan.steps, i);
    hide Preflight, Ordinal, MayStart;
  }
}
