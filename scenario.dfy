/**
 * A two-stream run driven step by step. Stream 0 has one step, which fires
 * trigger 0; stream 1 waits on that trigger at its first step and, resumed at
 * its second, consumes value 7 and releases it.
 */
module StreamExecutionScenario {
  import opened Common
  import opened ExecutionPlan
  import opened SchedulingRules
  import opened StreamExecution

  function ScenarioSteps(stream: nat, offset: nat): StepOutcome {
    StepOutcome(OK, !(stream == 1 && offset == 0), OK)
  }

  method TwoStreamRun() {
    var plan := Plan([1, 2], [ReleaseAction(7, 1)], [[0]], map[0 := [Invocation(1, 1)]]);
    var ctx := new StreamExecutionContext(plan, 2, [], 0, [], _ => None);
    ctx.pending := [Invocation(0, 0), Invocation(1, 0)];

    ctx.pending := ctx.pending[1..];
    var exitA, stepsA := RunSince(ctx, 0, false, 0, ScenarioSteps);
    assert exitA == Exhausted && stepsA == [0];
    ScheduleDownstream(ctx, 0);
    assert ctx.pending == [Invocation(1, 0), Invocation(1, 1)];

    ctx.pending := ctx.pending[1..];
    var exitB, stepsB := RunSince(ctx, 1, false, 0, ScenarioSteps);
    assert exitB == Suspended && stepsB == [0];

    ctx.pending := ctx.pending[1..];
    var exitResumed, stepsResumed := RunSince(ctx, 1, false, 1, ScenarioSteps);
    assert exitResumed == Exhausted && stepsResumed == [1];
    ctx.RecycleNodeInputs(0);

    assert ctx.released == [7];
    assert ctx.pending == [] && ctx.remainTasks == 0 && ctx.taskStatus == OK;
  }
}
