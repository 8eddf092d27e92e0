/** Plan validation and controlled execution (core/execution_plan.py, core/plan_executor.py). */
module PlanExecution {
  import opened Options
  import opened PermissionGate
  import opened ToolExecutor

  datatype Step = Step(stepId: int, tool: string, args: Args, permission: string, dependsOn: seq<int>)

  datatype Plan = Plan(goal: string, steps: seq<Step>, maxSteps: int)

  // ---- validation ----

  datatype PlanError = NoGoal | BadMaximum | NoSteps | TooManySteps | DuplicateId(id: int) | UnmetDependency(id: int)

  predicate DependsOnEarlier(steps: seq<Step>, i: nat)
    requires i < |steps|
  {
    forall d :: d in steps[i].dependsOn ==> exists j :: 0 <= j < i && steps[j].stepId == d
  }

  /** A step that repeats an id or depends on what is not before it, the first such step. */
  ghost predicate FirstGuilty(steps: seq<Step>, i: nat) {
    && i < |steps|
    && (forall a, b :: 0 <= a < b < i ==> steps[a].stepId != steps[b].stepId)
    && (forall a :: 0 <= a < i ==> DependsOnEarlier(steps, a))
    && ((exists j :: 0 <= j < i && steps[j].stepId == steps[i].stepId) || !DependsOnEarlier(steps, i))
  }

  ghost predicate ValidPlan(plan: Plan) {
    && plan.goal != "" && 1 <= plan.maxSteps && 1 <= |plan.steps| <= plan.maxSteps
    && (forall i, j :: 0 <= i < j < |plan.steps| ==> plan.steps[i].stepId != plan.steps[j].stepId)
    && (forall i :: 0 <= i < |plan.steps| ==> DependsOnEarlier(plan.steps, i))
  }

  function Ids(steps: seq<Step>): set<int> { set i | 0 <= i < |steps| :: steps[i].stepId }

  method MissingDependencies(dependsOn: seq<int>, seen: set<int>) returns (missing: seq<int>)
    ensures missing == Missing(dependsOn, seen)
  {
    missing := [];
    for i := 0 to |dependsOn|
      invariant missing == Missing(dependsOn[..i], seen)
    {
      assert dependsOn[..i + 1][..i] == dependsOn[..i];
      if dependsOn[i] !in seen { missing := missing + [dependsOn[i]]; }
    }
    assert dependsOn[..|dependsOn|] == dependsOn;
  }

  function Missing(dependsOn: seq<int>, seen: set<int>): (missing: seq<int>)
    ensures missing == [] <==> forall d :: d in dependsOn ==> d in seen
  {
    if dependsOn == [] then []
    else
      var n := |dependsOn| - 1;
      assert forall d :: d in dependsOn <==> d in dependsOn[..n] || d == dependsOn[n] by {
        assert dependsOn == dependsOn[..n] + [dependsOn[n]];
      }
      Missing(dependsOn[..n], seen) + (if dependsOn[n] in seen then [] else [dependsOn[n]])
  }

  lemma IdsStep(steps: seq<Step>, i: nat)
    requires i < |steps|
    ensures Ids(steps[..i + 1]) == Ids(steps[..i]) + {steps[i].stepId}
    ensures Missing(steps[i].dependsOn, Ids(steps[..i])) == [] <==> DependsOnEarlier(steps, i)
  {
    var seen := Ids(steps[..i]);
    assert steps[..i + 1] == steps[..i] + [steps[i]];
    forall id ensures id in seen <==> exists j :: 0 <= j < i && steps[j].stepId == id {
      if id in seen {
        var j :| 0 <= j < |steps[..i]| && steps[..i][j].stepId == id;
        assert steps[j].stepId == id;
      }
      if exists j :: 0 <= j < i && steps[j].stepId == id {
        var j :| 0 <= j < i && steps[j].stepId == id;
        assert steps[..i][j].stepId == id;
      }
    }
    forall id ensures id in Ids(steps[..i + 1]) <==> id in seen + {steps[i].stepId} {
      if id in seen {
        var j :| 0 <= j < i && steps[j].stepId == id;
        assert steps[..i + 1][j].stepId == id;
      }
      assert steps[..i + 1][i].stepId == steps[i].stepId;
    }
  }

  /** A plan is accepted exactly when its ids are distinct and every dependency names an
      earlier step, besides the size checks. */
  method ValidatePlan(plan: Plan) returns (error: Option<PlanError>)
    ensures error.None? <==> ValidPlan(plan)
    ensures error == Some(NoGoal) <==> plan.goal == ""
    ensures error == Some(BadMaximum) <==> plan.goal != "" && plan.maxSteps < 1
    ensures error == Some(NoSteps) <==> plan.goal != "" && plan.maxSteps >= 1 && plan.steps == []
    ensures error == Some(TooManySteps) <==> plan.goal != "" && 1 <= plan.maxSteps < |plan.steps|
    ensures error.Some? && (error.value.DuplicateId? || error.value.UnmetDependency?) ==>
              exists i: nat :: FirstGuilty(plan.steps, i) && plan.steps[i].stepId == error.value.id
                && (error.value.DuplicateId? <==> exists j :: 0 <= j < i && plan.steps[j].stepId == error.value.id)
  {
    if plan.goal == "" { return Some(NoGoal); }
    if plan.maxSteps < 1 { return Some(BadMaximum); }
    if plan.steps == [] { return Some(NoSteps); }
    if |plan.steps| > plan.maxSteps { return Some(TooManySteps); }
    var seen: set<int> := {};
    for i := 0 to |plan.steps|
      invariant seen == Ids(plan.steps[..i])
      invariant forall a, b :: 0 <= a < b < i ==> plan.steps[a].stepId != plan.steps[b].stepId
      invariant forall a :: 0 <= a < i ==> DependsOnEarlier(plan.steps, a)
    {
      var step := plan.steps[i];
      IdsStep(plan.steps, i);
      if step.stepId in seen {
        ghost var j :| 0 <= j < i && plan.steps[..i][j].stepId == step.stepId;
        assert plan.steps[j].stepId == plan.steps[i].stepId;
        assert FirstGuilty(plan.steps, i);
        return Some(DuplicateId(step.stepId));
      }
      forall a | 0 <= a < i ensures plan.steps[a].stepId != step.stepId {
        assert plan.steps[..i][a].stepId in seen;
      }
      var missing := MissingDependencies(step.dependsOn, seen);
      if missing != [] {
        assert FirstGuilty(plan.steps, i);
        return Some(UnmetDependency(step.stepId));
      }
      seen := seen + {step.stepId};
    }
    return None;
  }

  // ---- execution ----

  datatype PlanStatus = Completed | Blocked | Aborted

  datatype Reason = PermissionNotAutomatic | ToolUnregistered | IncompleteDependencies | StepFailed

  datatype Stop = Stop(reason: Reason, stepId: int)

  datatype Stage = PlanReady | Running | Awaiting | Done | FailedStage

  datatype Event = Event(stage: Stage, position: nat)

  datatype StepResult = StepResult(stepId: int, tool: string, status: Status, data: Option<Data>, code: Code) {
    predicate Ok() { status == Success }
  }

  datatype PlanResult = PlanResult(status: PlanStatus, steps: seq<StepResult>, stop: Option<Stop>)

  /** What is fixed while a plan runs; `manager` answers the prompt of each step. */
  datatype Context = Context(
    env: Env, maximum: nat, automatic: set<string>, confirmable: set<string>,
    manager: Option<int -> Response>)
  {
    predicate Admits(step: Step) {
      step.permission in automatic || (manager.Some? && step.permission in confirmable)
    }

    function AnswerFor(step: Step): Option<Response> {
      if manager.Some? then Some(manager.value(step.stepId)) else None
    }
  }

  /** A failure reported inside the data of a call that itself went well. */
  function ReportedFailure(tool: string, data: Data): Code {
    if !data.reportsFailure then NoCode
    else if tool == "test_run" then
      if data.reasonCode == "test_failure" then TestFailure
      else if data.reasonCode == "timeout" then Timeout
      else if data.reasonCode == "runtime_unavailable" then RuntimeUnavailable
      else if data.reasonCode == "result_parse_error" then ResultParseError
      else ToolReportedFailure
    else ToolReportedFailure
  }

  function Judge(step: Step, result: ToolResult): StepResult {
    var reported := if result.status == Success && result.data.Some?
                    then ReportedFailure(step.tool, result.data.value) else NoCode;
    if reported != NoCode then StepResult(step.stepId, result.tool, Failed, None, reported)
    else StepResult(step.stepId, result.tool, result.status, result.data, result.code)
  }

  function RunStep(x: Context, g: Gate, step: Step): (Gate, StepResult) {
    var request := Request(step.tool, step.args, None);
    var (after, result) :=
      if step.permission in x.automatic then Execute(x.env, g, request)
      else ExecuteWithConfirmation(x.env, g, x.maximum, request, x.AnswerFor(step));
    (after, Judge(step, result))
  }

  function Preflight(x: Context, steps: seq<Step>): Option<Stop> {
    if steps == [] then None
    else if !x.Admits(steps[0]) then Some(Stop(PermissionNotAutomatic, steps[0].stepId))
    else if steps[0].tool !in x.env.registry then Some(Stop(ToolUnregistered, steps[0].stepId))
    else Preflight(x, steps[1..])
  }

  /** The position shown for a step id: that of the last step carrying it. */
  function Ordinal(steps: seq<Step>, id: int): nat {
    if steps == [] then 0
    else if steps[|steps| - 1].stepId == id then |steps|
    else Ordinal(steps[..|steps| - 1], id)
  }

  function StepEvents(x: Context, step: Step, position: nat, ok: bool): seq<Event> {
    [Event(Running, position)]
    + (if step.permission in x.automatic then [] else [Event(Awaiting, position)])
    + [Event(if ok then Done else FailedStage, position)]
  }

  datatype Progress = Progress(
    g: Gate, completed: set<int>, results: seq<StepResult>, events: seq<Event>, stop: Option<Stop>)

  /** Progress after one step whose dependencies are met. */
  function Advance(x: Context, steps: seq<Step>, step: Step, p: Progress): Progress {
    var (g, result) := RunStep(x, p.g, step);
    Progress(g,
      if result.Ok() then p.completed + {step.stepId} else p.completed,
      p.results + [result],
      p.events + StepEvents(x, step, Ordinal(steps, step.stepId), result.Ok()),
      if result.Ok() then None else Some(Stop(StepFailed, step.stepId)))
  }

  function RunSteps(x: Context, steps: seq<Step>, i: nat, p: Progress): Progress
    requires i <= |steps|
    decreases |steps| - i
  {
    if i == |steps| || p.stop.Some? then p
    else if Missing(steps[i].dependsOn, p.completed) != [] then
      p.(events := p.events + [Event(FailedStage, Ordinal(steps, steps[i].stepId))],
         stop := Some(Stop(IncompleteDependencies, steps[i].stepId)))
    else RunSteps(x, steps, i + 1, Advance(x, steps, steps[i], p))
  }

  function Start(g: Gate): Progress { Progress(g, {}, [], [Event(PlanReady, 0)], None) }

  function ExecutePlan(x: Context, g: Gate, plan: Plan): (Gate, PlanResult, seq<Event>) {
    match Preflight(x, plan.steps)
    case Some(stop) =>
      var stage := if stop.reason == PermissionNotAutomatic then Awaiting else FailedStage;
      (g, PlanResult(Blocked, [], Some(stop)),
       [Event(PlanReady, 0), Event(stage, Ordinal(plan.steps, stop.stepId))])
    case None =>
      var p := RunSteps(x, plan.steps, 0, Start(g));
      (p.g, PlanResult(if p.stop.None? then Completed else Aborted, p.results, p.stop), p.events)
  }

  method PreflightPlan(plan: Plan, executor: Executor, automatic: set<string>, confirmable: set<string>,
                       manager: Option<int -> Response>)
    returns (stop: Option<Stop>)
    ensures stop == Preflight(
              Context(executor.Environment(), executor.Maximum(), automatic, confirmable, manager), plan.steps)
  {
    ghost var x := Context(executor.Environment(), executor.Maximum(), automatic, confirmable, manager);
    for i := 0 to |plan.steps|
      invariant Preflight(x, plan.steps) == Preflight(x, plan.steps[i..])
    {
      var step := plan.steps[i];
      assert plan.steps[i..][1..] == plan.steps[i + 1..];
      if step.permission !in automatic && !(manager.Some? && step.permission in confirmable) {
        return Some(Stop(PermissionNotAutomatic, step.stepId));
      }
      if step.tool !in executor.registry { return Some(Stop(ToolUnregistered, step.stepId)); }
    }
    return None;
  }

  method CallStep(step: Step, executor: Executor, automatic: set<string>, manager: Option<int -> Response>)
    returns (result: StepResult)
    requires executor.Valid()
    modifies executor, executor.store
    ensures executor.Valid()
    ensures forall confirmable ::
              var x := Context(executor.Environment(), executor.Maximum(), automatic, confirmable, manager);
              (executor.State(), result) == RunStep(x, old(executor.State()), step)
  {
    var request := Request(step.tool, step.args, None);
    var toolResult;
    if step.permission in automatic {
      toolResult := executor.ExecuteRequest(request);
    } else {
      var response := if manager.Some? then Some(manager.value(step.stepId)) else None;
      toolResult := executor.ExecuteConfirmed(request, response);
    }
    return Judge(step, toolResult);
  }

  /** The steps of a plan that passed its preflight, until one fails. */
  method RunAllSteps(steps: seq<Step>, executor: Executor, automatic: set<string>, confirmable: set<string>,
                     manager: Option<int -> Response>)
    returns (completed: set<int>, results: seq<StepResult>, events: seq<Event>, stop: Option<Stop>)
    requires executor.Valid()
    modifies executor, executor.store
    ensures executor.Valid()
    ensures var x := Context(executor.Environment(), executor.Maximum(), automatic, confirmable, manager);
            Progress(executor.State(), completed, results, events, stop) ==
            RunSteps(x, steps, 0, Start(old(executor.State())))
  {
    hide RunStep, Ordinal, Missing;
    ghost var x := Context(executor.Environment(), executor.Maximum(), automatic, confirmable, manager);
    completed, results, events, stop := {}, [], [Event(PlanReady, 0)], None;
    for i := 0 to |steps|
      invariant executor.Valid() && stop == None
      invariant RunSteps(x, steps, 0, Start(old(executor.State()))) ==
                RunSteps(x, steps, i, Progress(executor.State(), completed, results, events, None))
    {
      var step := steps[i];
      var position := Ordinal(steps, step.stepId);
      var missing := MissingDependencies(step.dependsOn, completed);
      if missing != [] {
        events := events + [Event(FailedStage, position)];
        stop := Some(Stop(IncompleteDependencies, step.stepId));
        return;
      }
      ghost var before := Progress(executor.State(), completed, results, events, None);
      ghost var after := Advance(x, steps, step, before);
      events := events + [Event(Running, position)];
      if step.permission !in automatic { events := events + [Event(Awaiting, position)]; }
      var stepResult := CallStep(step, executor, automatic, manager);
      assert (executor.State(), stepResult) == RunStep(x, before.g, step);
      results := results + [stepResult];
      events := events + [Event(if stepResult.Ok() then Done else FailedStage, position)];
      assert events == after.events;
      if !stepResult.Ok() {
        stop := Some(Stop(StepFailed, step.stepId));
        assert after == Progress(executor.State(), completed, results, events, stop);
        return;
      }
      completed := completed + {step.stepId};
      assert after == Progress(executor.State(), completed, results, events, None);
    }
  }

  method RunPlan(plan: Plan, executor: Executor, automatic: set<string>, confirmable: set<string>,
                 manager: Option<int -> Response>)
    returns (result: PlanResult, events: seq<Event>)
    requires executor.Valid()
    modifies executor, executor.store
    ensures executor.Valid()
    ensures var x := Context(executor.Environment(), executor.Maximum(), automatic, confirmable, manager);
            (executor.State(), result, events) == ExecutePlan(x, old(executor.State()), plan)
  {
    hide Preflight, Ordinal, RunSteps, Start;
    var blocked := PreflightPlan(plan, executor, automatic, confirmable, manager);
    if blocked.Some? {
      var stage := if blocked.value.reason == PermissionNotAutomatic then Awaiting else FailedStage;
      events := [Event(PlanReady, 0), Event(stage, Ordinal(plan.steps, blocked.value.stepId))];
      return PlanResult(Blocked, [], blocked), events;
    }
    var completed, results, stop;
    completed, results, events, stop := RunAllSteps(plan.steps, executor, automatic, confirmable, manager);
    return PlanResult(if stop.None? then Completed else Aborted, results, stop), events;
  }

  // ---- what a plan run does ----

  lemma {:induction false} PreflightBlocksFirst(x: Context, steps: seq<Step>)
    ensures Preflight(x, steps).None? <==>
              forall i :: 0 <= i < |steps| ==> x.Admits(steps[i]) && steps[i].tool in x.env.registry
    decreases |steps|
  {
    if steps != [] {
      PreflightBlocksFirst(x, steps[1..]);
      if Preflight(x, steps).None? {
        forall i | 0 <= i < |steps| ensures x.Admits(steps[i]) && steps[i].tool in x.env.registry {
          if i > 0 { assert steps[1..][i - 1] == steps[i]; }
        }
      } else if x.Admits(steps[0]) && steps[0].tool in x.env.registry {
        var i :| 0 <= i < |steps[1..]| && !(x.Admits(steps[1..][i]) && steps[1..][i].tool in x.env.registry);
        assert steps[1..][i] == steps[i + 1];
      }
    }
  }

  /** A step counts as successful exactly when its call was and the data reports no failure. */
  lemma ReportedFailureFails(step: Step, result: ToolResult)
    ensures Judge(step, result).Ok() <==>
            result.status == Success && (result.data.Some? ==> !result.data.value.reportsFailure)
  {
  }

  lemma RunStepCalls(x: Context, g: Gate, step: Step)
    ensures var (after, result) := RunStep(x, g, step);
            && result.stepId == step.stepId && result.tool == step.tool
            && |g.calls| <= |after.calls| <= |g.calls| + 1 && after.calls[..|g.calls|] == g.calls
            && (|after.calls| > |g.calls| ==>
                 after.calls[|g.calls|].tool == step.tool && after.calls[|g.calls|].args == step.args)
            && (result.Ok() ==> |after.calls| == |g.calls| + 1)
  {
    var request := Request(step.tool, step.args, None);
    if step.permission !in x.automatic {
      ConfirmedExecutionRuns(x.env, g, x.maximum, request, x.AnswerFor(step));
    }
  }

  /** Calls explained by results, step by step: one call for a success, at most one otherwise. */
  ghost predicate Explained(calls: seq<Call>, results: seq<StepResult>, steps: seq<Step>)
    requires |results| <= |steps|
    decreases |results|
  {
    if results == [] then calls == []
    else
      var n := |results| - 1;
      || ( && calls != [] && calls[|calls| - 1].tool == steps[n].tool && calls[|calls| - 1].args == steps[n].args
           && Explained(calls[..|calls| - 1], results[..n], steps))
      || (!results[n].Ok() && Explained(calls, results[..n], steps))
  }

  ghost predicate CallsExplained(steps: seq<Step>, g0: Gate, p: Progress)
    requires |p.results| <= |steps|
  {
    && |g0.calls| <= |p.g.calls| && p.g.calls[..|g0.calls|] == g0.calls
    && Explained(p.g.calls[|g0.calls|..], p.results, steps)
  }

  /** One result for each of the first i steps, all but the last successful; a stop says why. */
  ghost predicate ResultsMatch(steps: seq<Step>, i: nat, p: Progress)
    requires i <= |steps|
  {
    && |p.results| == i
    && (forall k :: 0 <= k < i ==> p.results[k].stepId == steps[k].stepId && p.results[k].tool == steps[k].tool)
    && (forall k :: 0 <= k < i - 1 ==> p.results[k].Ok())
    && (if p.stop.None? then i > 0 ==> p.results[i - 1].Ok()
        else p.stop.value.reason == StepFailed ==>
               i > 0 && !p.results[i - 1].Ok() && p.stop.value.stepId == steps[i - 1].stepId)
    && (p.stop.Some? && p.stop.value.reason == IncompleteDependencies ==> i > 0 ==> p.results[i - 1].Ok())
    && (p.stop.Some? ==> p.stop.value.reason == StepFailed || p.stop.value.reason == IncompleteDependencies)
  }

  ghost predicate Sane(steps: seq<Step>, i: nat, g0: Gate, p: Progress)
    requires i <= |steps|
  {
    ResultsMatch(steps, i, p) && CallsExplained(steps, g0, p)
  }

  lemma {:induction false} ExplainedExtends(
    calls: seq<Call>, more: seq<Call>, results: seq<StepResult>, result: StepResult, steps: seq<Step>)
    requires |results| < |steps| && Explained(calls, results, steps)
    requires |more| <= 1 && (result.Ok() ==> |more| == 1)
    requires |more| == 1 ==> more[0].tool == steps[|results|].tool && more[0].args == steps[|results|].args
    ensures Explained(calls + more, results + [result], steps)
  {
    assert (results + [result])[..|results|] == results;
    if |more| == 1 { assert (calls + more)[..|calls|] == calls; } else { assert calls + more == calls; }
  }

  lemma AdvanceMatches(x: Context, steps: seq<Step>, i: nat, p: Progress)
    requires i < |steps| && p.stop.None? && ResultsMatch(steps, i, p)
    ensures ResultsMatch(steps, i + 1, Advance(x, steps, steps[i], p))
  {
    RunStepCalls(x, p.g, steps[i]);
    hide RunStep, StepEvents, Ordinal;
    var result, next := RunStep(x, p.g, steps[i]).1, Advance(x, steps, steps[i], p);
    assert next.results == p.results + [result];
  }

  lemma AdvanceExplained(x: Context, steps: seq<Step>, i: nat, g0: Gate, p: Progress)
    requires i < |steps| && |p.results| == i && CallsExplained(steps, g0, p)
    ensures |Advance(x, steps, steps[i], p).results| == i + 1
    ensures CallsExplained(steps, g0, Advance(x, steps, steps[i], p))
  {
    RunStepCalls(x, p.g, steps[i]);
    hide RunStep, StepEvents, Ordinal, Explained;
    var (g, result) := RunStep(x, p.g, steps[i]);
    ExplainedExtends(p.g.calls[|g0.calls|..], g.calls[|p.g.calls|..], p.results, result, steps);
    CallsSplit(g0.calls, p.g.calls, g.calls);
  }

  lemma AdvanceSane(x: Context, steps: seq<Step>, i: nat, g0: Gate, p: Progress)
    requires i < |steps| && p.stop.None? && Sane(steps, i, g0, p)
    ensures Sane(steps, i + 1, g0, Advance(x, steps, steps[i], p))
  {
    AdvanceMatches(x, steps, i, p);
    AdvanceExplained(x, steps, i, g0, p);
    hide Advance, ResultsMatch, CallsExplained;
  }

  lemma CallsSplit(first: seq<Call>, middle: seq<Call>, last: seq<Call>)
    requires |first| <= |middle| <= |last| && middle[..|first|] == first && last[..|middle|] == middle
    ensures last[..|first|] == first && last[|first|..] == middle[|first|..] + last[|middle|..]
  {
    assert last == middle + last[|middle|..];
    assert middle == first + middle[|first|..];
  }

  lemma StoppedSane(steps: seq<Step>, i: nat, g0: Gate, p: Progress, q: Progress)
    requires i < |steps| && p.stop.None? && Sane(steps, i, g0, p)
    requires q.g == p.g && q.results == p.results
    requires q.stop.Some? && q.stop.value.reason == IncompleteDependencies
    ensures Sane(steps, i, g0, q)
  {
  }

  lemma SaneResults(steps: seq<Step>, i: nat, g0: Gate, p: Progress)
    requires i <= |steps| && Sane(steps, i, g0, p)
    ensures |p.results| == i
  {
  }

  lemma RunStepsUnfold(x: Context, steps: seq<Step>, i: nat, p: Progress)
    requires i <= |steps| && p.stop.None?
    ensures var q := RunSteps(x, steps, i, p);
            if i == |steps| then q == p
            else if Missing(steps[i].dependsOn, p.completed) != [] then
              q.g == p.g && q.results == p.results && q.stop == Some(Stop(IncompleteDependencies, steps[i].stepId))
            else q == RunSteps(x, steps, i + 1, Advance(x, steps, steps[i], p))
  {
    hide Advance, Ordinal, Missing;
  }

  lemma {:induction false} RunStepsSane(x: Context, steps: seq<Step>, i: nat, g0: Gate, p: Progress)
    requires i <= |steps| && p.stop.None? && Sane(steps, i, g0, p)
    ensures var q := RunSteps(x, steps, i, p);
            && i <= |q.results| <= |steps| && Sane(steps, |q.results|, g0, q)
            && (q.stop.None? ==> |q.results| == |steps|)
    decreases |steps| - i
  {
    SaneResults(steps, i, g0, p);
    RunStepsUnfold(x, steps, i, p);
    hide Sane, Advance, Ordinal, Missing, RunSteps;
    if i < |steps| {
      if Missing(steps[i].dependsOn, p.completed) == [] {
        AdvanceSane(x, steps, i, g0, p);
        AdvancedSane(x, steps, i, g0, p);
      } else {
        StoppedSane(steps, i, g0, p, RunSteps(x, steps, i, p));
        SaneResults(steps, i, g0, RunSteps(x, steps, i, p));
      }
    }
  }

  lemma {:induction false} AdvancedSane(x: Context, steps: seq<Step>, i: nat, g0: Gate, p: Progress)
    requires i < |steps| && p.stop.None? && |p.results| == i
    requires Sane(steps, i + 1, g0, Advance(x, steps, steps[i], p))
    ensures var q := RunSteps(x, steps, i + 1, Advance(x, steps, steps[i], p));
            && i <= |q.results| <= |steps| && Sane(steps, |q.results|, g0, q)
            && (q.stop.None? ==> |q.results| == |steps|)
    decreases |steps| - i, 0
  {
    var next := Advance(x, steps, steps[i], p);
    SaneResults(steps, i + 1, g0, next);
    hide Sane, Advance;
    if next.stop.None? { RunStepsSane(x, steps, i + 1, g0, next); }
  }

  /** A plan that fails its preflight calls nothing.  Otherwise the results are for the first
      steps of the plan in order, all but the last successful; each has at most one call, made
      for that step; the plan completes exactly when every step succeeded. */
  lemma PlanTrace(x: Context, g: Gate, plan: Plan)
    ensures var (after, result, _) := ExecutePlan(x, g, plan);
            var steps := plan.steps;
            && (result.status == Blocked <==>
                 exists i :: 0 <= i < |steps| && !(x.Admits(steps[i]) && steps[i].tool in x.env.registry))
            && (result.status == Blocked ==> after == g && result.steps == [])
            && |result.steps| <= |steps| && |g.calls| <= |after.calls| && after.calls[..|g.calls|] == g.calls
            && Explained(after.calls[|g.calls|..], result.steps, steps)
            && (forall k :: 0 <= k < |result.steps| ==>
                 result.steps[k].stepId == steps[k].stepId && result.steps[k].tool == steps[k].tool)
            && (forall k :: 0 <= k < |result.steps| - 1 ==> result.steps[k].Ok())
            && (result.status == Completed <==>
                 result.status != Blocked && |result.steps| == |steps|
                 && forall k :: 0 <= k < |steps| ==> result.steps[k].Ok())
  {
    PreflightBlocksFirst(x, plan.steps);
    if Preflight(x, plan.steps).None? {
      assert g.calls[|g.calls|..] == [];
      RunStepsSane(x, plan.steps, 0, g, Start(g));
      var q := RunSteps(x, plan.steps, 0, Start(g));
      if q.stop.Some? && |q.results| == |plan.steps| {
        StopIsEarly(x, plan.steps, 0, Start(g));
      }
    }
  }

  lemma {:induction false} StopIsEarly(x: Context, steps: seq<Step>, i: nat, p: Progress)
    requires i <= |steps| && |p.results| == i && p.stop.None?
    ensures var q := RunSteps(x, steps, i, p);
            q.stop.Some? && q.stop.value.reason == IncompleteDependencies ==> |q.results| < |steps|
    decreases |steps| - i
  {
    if i < |steps| && Missing(steps[i].dependsOn, p.completed) == [] {
      var next := Advance(x, steps, steps[i], p);
      if next.stop.None? { StopIsEarly(x, steps, i + 1, next); }
    }
  }

  lemma {:induction false} OrdinalIsIndex(steps: seq<Step>, i: nat)
    requires i < |steps|
    requires forall a, b :: 0 <= a < b < |steps| ==> steps[a].stepId != steps[b].stepId
    ensures Ordinal(steps, steps[i].stepId) == i + 1
    decreases |steps|
  {
    if i < |steps| - 1 { OrdinalIsIndex(steps[..|steps| - 1], i); }
  }

  /** The events of a run whose first |results| steps were executed. */
  function ExpectedEvents(x: Context, steps: seq<Step>, results: seq<StepResult>): seq<Event>
    requires |results| <= |steps|
  {
    if results == [] then [Event(PlanReady, 0)]
    else
      var n := |results| - 1;
      ExpectedEvents(x, steps, results[..n]) +
      if results[n].Ok() then
        if steps[n].permission in x.automatic then [Event(Running, n + 1), Event(Done, n + 1)]
        else [Event(Running, n + 1), Event(Awaiting, n + 1), Event(Done, n + 1)]
      else if steps[n].permission in x.automatic then [Event(Running, n + 1), Event(FailedStage, n + 1)]
      else [Event(Running, n + 1), Event(Awaiting, n + 1), Event(FailedStage, n + 1)]
  }

  /** The state of a run of a valid plan after its first i steps. */
  ghost predicate OnTrack(x: Context, steps: seq<Step>, i: nat, p: Progress)
    requires i <= |steps|
  {
    && |p.results| == i && (p.stop.None? ==> p.completed == Ids(steps[..i]))
    && p.events == ExpectedEvents(x, steps, p.results)
    && (p.stop.Some? ==> p.stop.value.reason == StepFailed)
  }

  lemma AdvanceOnTrack(x: Context, steps: seq<Step>, i: nat, p: Progress)
    requires i < |steps| && p.stop.None? && OnTrack(x, steps, i, p)
    requires Ids(steps[..i + 1]) == Ids(steps[..i]) + {steps[i].stepId} && Ordinal(steps, steps[i].stepId) == i + 1
    ensures OnTrack(x, steps, i + 1, Advance(x, steps, steps[i], p))
  {
    hide RunStep, Ordinal, Ids;
    var next := Advance(x, steps, steps[i], p);
    assert next.results[..i] == p.results;
  }

  lemma {:induction false} ValidRun(x: Context, plan: Plan, i: nat, p: Progress)
    requires ValidPlan(plan) && i <= |plan.steps| && p.stop.None? && OnTrack(x, plan.steps, i, p)
    ensures var q := RunSteps(x, plan.steps, i, p);
            |q.results| <= |plan.steps| && OnTrack(x, plan.steps, |q.results|, q)
    decreases |plan.steps| - i
  {
    var steps := plan.steps;
    RunStepsUnfold(x, steps, i, p);
    if i < |steps| {
      IdsStep(steps, i);
      assert DependsOnEarlier(steps, i);
      assert Missing(steps[i].dependsOn, p.completed) == [];
      OrdinalIsIndex(steps, i);
      AdvanceOnTrack(x, steps, i, p);
      var next := Advance(x, steps, steps[i], p);
      assert |next.results| == i + 1;
      hide Advance, RunSteps, OnTrack, Ids, Missing, Ordinal, DependsOnEarlier;
      if next.stop.None? {
        ValidRun(x, plan, i + 1, next);
      } else {
        RunStepsStopped(x, steps, i + 1, next);
      }
    }
  }

  lemma RunStepsStopped(x: Context, steps: seq<Step>, i: nat, p: Progress)
    requires i <= |steps| && p.stop.Some?
    ensures RunSteps(x, steps, i, p) == p
  {
  }

  /** For a validated plan the incomplete-dependencies branch is unreachable, and the progress
      events are determined by the results: the plan, then for each executed step that it runs,
      that it waits if its permission is not automatic, and how it ended. */
  lemma ValidPlanTrace(x: Context, g: Gate, plan: Plan)
    requires ValidPlan(plan)
    ensures var (_, result, events) := ExecutePlan(x, g, plan);
            && (result.stop.Some? ==> result.stop.value.reason != IncompleteDependencies)
            && |result.steps| <= |plan.steps|
            && (result.status != Blocked ==> events == ExpectedEvents(x, plan.steps, result.steps))
  {
    PreflightNeverBlamesDependencies(x, plan.steps);
    if Preflight(x, plan.steps).None? {
      assert plan.steps[..0] == [];
      ValidRun(x, plan, 0, Start(g));
    }
  }

  lemma {:induction false} PreflightNeverBlamesDependencies(x: Context, steps: seq<Step>)
    ensures Preflight(x, steps).Some? ==> Preflight(x, steps).value.reason != IncompleteDependencies
    decreases |steps|
  {
    if steps != [] { PreflightNeverBlamesDependencies(x, steps[1..]); }
  }

  lemma StepIsGated(x: Context, g: Gate, step: Step)
    requires x.env.policy.Some? && Inv(x.env, g, x.maximum)
    ensures Inv(x.env, RunStep(x, g, step).0, x.maximum)
  {
    hide Inv, Execute, ExecuteWithConfirmation, Judge;
    var request := Request(step.tool, step.args, None);
    ExecuteKeepsInv(x.env, g, x.maximum, request);
    ConfirmedKeepsInv(x.env, g, x.maximum, request, x.AnswerFor(step));
  }

  lemma {:induction false} RunStepsGated(x: Context, steps: seq<Step>, i: nat, p: Progress)
    requires i <= |steps| && x.env.policy.Some? && Inv(x.env, p.g, x.maximum)
    ensures Inv(x.env, RunSteps(x, steps, i, p).g, x.maximum)
    decreases |steps| - i
  {
    hide Inv, RunStep, StepEvents, Ordinal;
    if i < |steps| && p.stop.None? && Missing(steps[i].dependsOn, p.completed) == [] {
      StepIsGated(x, p.g, steps[i]);
      RunStepsGated(x, steps, i + 1, Advance(x, steps, steps[i], p));
    }
  }

  /** With a policy installed, every call a plan makes was justified by the gate. */
  lemma PlanIsGated(x: Context, g: Gate, plan: Plan)
    requires x.env.policy.Some? && Inv(x.env, g, x.maximum)
    ensures Inv(x.env, ExecutePlan(x, g, plan).0, x.maximum)
  {
    hide Inv, RunSteps;
    RunStepsGated(x, plan.steps, 0, Start(g));
  }
}
