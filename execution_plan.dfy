/**
 * The parts of a session's sequential execution plan that the stream execution
 * context reads. The plan is computed before the run and never changes during it.
 */
module ExecutionPlan {

  /** One release action: the value to free and how many consumers must finish first. */
  datatype ReleaseAction = ReleaseAction(valueIndex: nat, refCount: nat)

  /** A lane invocation: run logic stream `stream` from step `since` on. */
  datatype Invocation = Invocation(stream: nat, since: nat)

  /**
   * `streamSteps[s]` is the number of steps of logic stream `s`;
   * `nodeReleaseList[n]` lists the release actions node `n` decrements when it finishes;
   * `downstreamMap[t]` lists the invocations to launch when trigger `t` fires.
   */
  datatype Plan = Plan(
    streamSteps: seq<nat>,
    releaseActions: seq<ReleaseAction>,
    nodeReleaseList: seq<seq<nat>>,
    downstreamMap: map<nat, seq<Invocation>>)

  /** The invocation names a stream of the plan and resumes at most at its end. */
  predicate ValidInvocation(plan: Plan, inv: Invocation) {
    inv.stream < |plan.streamSteps| && inv.since <= plan.streamSteps[inv.stream]
  }

  /** Every index the plan stores points into the table it is used with. */
  ghost predicate ValidPlan(plan: Plan) {
    && (forall n, k :: 0 <= n < |plan.nodeReleaseList| && 0 <= k < |plan.nodeReleaseList[n]| ==>
          plan.nodeReleaseList[n][k] < |plan.releaseActions|)
    && (forall t, k :: t in plan.downstreamMap && 0 <= k < |plan.downstreamMap[t]| ==>
          ValidInvocation(plan, plan.downstreamMap[t][k]))
  }
}
