/**
 * The per-run state of a multi-stream execution and the two free functions
 * that drive it: the lane runner `RunSince` and the downstream dispatcher
 * `ScheduleDownstream`.
 *
 * The run is modelled one sequential step at a time. Atomic counters become
 * plain integer fields and arrays; the inter-op thread pool becomes the queue
 * `pending` of invocations that are scheduled and not yet run; the steps of a
 * stream are a `StepOracle`.
 */
module StreamExecution {
  import opened Common
  import opened ExecutionPlan
  import opened SchedulingRules

  /** A device stream of the session's stream collection. */
  datatype DeviceStream = DeviceStream(id: nat)

  /** A cross-stream notification created by a device stream. */
  datatype Notification = Notification(owner: DeviceStream, handle: nat)

  /** The notification that `createNotification` yields for the owner's stream, or null without one. */
  function NotificationFor(deviceStreams: seq<Option<DeviceStream>>, owner: nat,
                           createNotification: DeviceStream -> Option<Notification>): Option<Notification>
    requires owner < |deviceStreams|
  {
    match deviceStreams[owner]
    case None => None
    case Some(stream) => createNotification(stream)
  }

  class StreamExecutionContext {
    const plan: Plan
    const deviceStreams: seq<Option<DeviceStream>>
    /** One notification per declared owner. */
    const notifications: seq<Option<Notification>>
    /** The count-down barriers of the run. */
    const countDownBarriers: array<int>
    /** The remaining-consumer count of each release action. */
    const releasePlan: array<int>
    /** The number of lane invocations scheduled and not yet completed. */
    var remainTasks: int
    /** The first failure reported in the run, or OK. */
    var taskStatus: Status
    /** The values released through the execution frame, in order of release. */
    var released: seq<nat>
    /** The invocations handed to the thread pool and not yet run, oldest first. */
    var pending: seq<Invocation>

    ghost predicate Valid()
      reads this
    {
      && ValidPlan(plan)
      && releasePlan.Length == |plan.releaseActions|
      && countDownBarriers != releasePlan
      && forall k :: 0 <= k < |pending| ==> ValidInvocation(plan, pending[k])
    }

    /**
     * Sets every barrier to 2, the remaining-task count to the number of
     * streams, each release count to its action's reference count, and creates
     * one notification per owner, null for an owner without a device stream.
     */
    constructor (plan: Plan, numStreams: nat, notificationOwners: seq<nat>, numBarriers: nat,
                 deviceStreams: seq<Option<DeviceStream>>,
                 createNotification: DeviceStream -> Option<Notification>)
      requires ValidPlan(plan)
      requires forall i :: 0 <= i < |notificationOwners| ==> notificationOwners[i] < |deviceStreams|
      ensures Valid()
      ensures fresh(countDownBarriers) && fresh(releasePlan)
      ensures this.plan == plan && this.deviceStreams == deviceStreams
      ensures countDownBarriers.Length == numBarriers
      ensures forall i :: 0 <= i < numBarriers ==> countDownBarriers[i] == 2
      ensures remainTasks == numStreams
      ensures forall i :: 0 <= i < releasePlan.Length ==> releasePlan[i] == plan.releaseActions[i].refCount
      ensures |notifications| == |notificationOwners|
      ensures forall i :: 0 <= i < |notificationOwners| ==>
                notifications[i] == NotificationFor(deviceStreams, notificationOwners[i], createNotification)
      ensures forall i :: 0 <= i < |notificationOwners| ==>
                (deviceStreams[notificationOwners[i]].None? ==> notifications[i].None?)
      ensures taskStatus == OK && released == [] && pending == []
    {
      var created: seq<Option<Notification>> := [];
      for i := 0 to |notificationOwners|
        invariant |created| == i
        invariant forall j :: 0 <= j < i ==>
                    created[j] == NotificationFor(deviceStreams, notificationOwners[j], createNotification)
      {
        var stream := deviceStreams[notificationOwners[i]];
        if stream.Some? {
          created := created + [createNotification(stream.value)];
        } else {
          created := created + [None];
        }
      }
      var actions := plan.releaseActions;
      var counts := new int[|actions|];
      var barriers := new int[numBarriers];
      for i := 0 to numBarriers
        invariant forall j :: 0 <= j < i ==> barriers[j] == 2
      {
        barriers[i] := 2;
      }
      for i := 0 to |actions|
        invariant forall j :: 0 <= j < numBarriers ==> barriers[j] == 2
        invariant forall j :: 0 <= j < i ==> counts[j] == actions[j].refCount
      {
        counts[i] := actions[i].refCount;
      }
      this.plan := plan;
      this.deviceStreams := deviceStreams;
      notifications := created;
      countDownBarriers := barriers;
      releasePlan := counts;
      remainTasks := numStreams;
      taskStatus := OK;
      released := [];
      pending := [];
    }

    /** The device stream `idx`; asking for one beyond the collection fails the enforcement. */
    function GetDeviceStream(idx: nat): (r: Result<Option<DeviceStream>>)
      ensures r.Success? <==> idx < |deviceStreams|
      ensures r.Success? ==> r.value == deviceStreams[idx]
    {
      if idx < |deviceStreams| then Success(deviceStreams[idx])
      else Failure("idx < device_stream_map_.NumStreams()")
    }

    /** Decrements barrier `barrierId` and reports whether this decrement brought it to zero. */
    method DecCountDownBarrier(barrierId: nat) returns (reached: bool)
      requires barrierId < countDownBarriers.Length
      modifies countDownBarriers
      ensures countDownBarriers[barrierId] == old(countDownBarriers[barrierId]) - 1
      ensures reached == DecrementReports(old(countDownBarriers[barrierId]), 1)[0]
      ensures reached <==> countDownBarriers[barrierId] == 0
      ensures forall i :: 0 <= i < countDownBarriers.Length && i != barrierId ==>
                countDownBarriers[i] == old(countDownBarriers[i])
    {
      countDownBarriers[barrierId] := countDownBarriers[barrierId] - 1;
      reached := countDownBarriers[barrierId] == 0;
    }

    /** Counts one more scheduled invocation. */
    method AddTask()
      modifies this`remainTasks
      ensures remainTasks == old(remainTasks) + 1
    {
      remainTasks := remainTasks + 1;
    }

    /** Counts one invocation as finished. */
    method CompleteTask()
      modifies this`remainTasks
      ensures remainTasks == old(remainTasks) - 1
    {
      remainTasks := remainTasks - 1;
    }

    /** Adopts `status` only when the run has not failed yet and `status` is a failure. */
    method SetStatus(status: Status)
      modifies this`taskStatus
      ensures taskStatus == SetStatusResult(old(taskStatus), status)
    {
      if taskStatus.OK? && !status.OK? {
        taskStatus := status;
      }
    }

    /**
     * Decrements the release count of every action listed for node `nodeIndex`
     * and releases an action's value on the decrement that brings its count to
     * exactly zero.
     */
    method RecycleNodeInputs(nodeIndex: nat)
      requires Valid()
      requires nodeIndex < |plan.nodeReleaseList|
      modifies this`released, releasePlan
      ensures Valid()
      ensures var list := plan.nodeReleaseList[nodeIndex];
              var r := Recycle(old(releasePlan[..]), list);
              && releasePlan[..] == r.counts
              && released == old(released) + ValuesOf(plan.releaseActions, r.fired)
    {
      var list := plan.nodeReleaseList[nodeIndex];
      assert IndicesBelow(list, releasePlan.Length);
      var i := 0;
      while i < |list|
        invariant 0 <= i <= |list|
        invariant releasePlan[..] == Recycle(old(releasePlan[..]), list[..i]).counts
        invariant released == old(released) + ValuesOf(plan.releaseActions, Recycle(old(releasePlan[..]), list[..i]).fired)
      {
        var idx := list[i];
        RecycleSnoc(old(releasePlan[..]), list[..i], idx);
        assert list[..i + 1] == list[..i] + [idx];
        releasePlan[idx] := releasePlan[idx] - 1;
        if releasePlan[idx] == 0 {
          released := released + [plan.releaseActions[idx].valueIndex];
        }
        i := i + 1;
      }
      assert list[..i] == list;
    }

    /**
     * Runs the invocations scheduled on the thread pool until none is left, and
     * returns when the remaining-task count has dropped to zero.
     */
    method WaitAll(terminate: bool, execute: StepOracle)
      requires Valid()
      requires remainTasks == |pending|
      modifies this`remainTasks, this`taskStatus, this`pending
      ensures Valid()
      ensures pending == [] && remainTasks == 0
      ensures !old(taskStatus).OK? ==> taskStatus == old(taskStatus)
    {
      while pending != []
        invariant Valid()
        invariant remainTasks == |pending|
        invariant !old(taskStatus).OK? ==> taskStatus == old(taskStatus)
        decreases |pending|
      {
        var next := pending[0];
        pending := pending[1..];
        RunSinceCompletesOnce(taskStatus, terminate, execute, next.stream, next.since,
                              plan.streamSteps[next.stream]);
        var exit, executed := RunSince(this, next.stream, terminate, next.since, execute);
      }
    }
  }

  /** The values of the release actions `fired`, in the same order. */
  function ValuesOf(actions: seq<ReleaseAction>, fired: seq<nat>): (r: seq<nat>)
    requires IndicesBelow(fired, |actions|)
    ensures |r| == |fired|
    ensures forall k :: 0 <= k < |fired| ==> r[k] == actions[fired[k]].valueIndex
  {
    seq(|fired|, k requires 0 <= k < |fired| => actions[fired[k]].valueIndex)
  }

  /**
   * The lane runner: executes the steps of stream `streamIdx` from offset
   * `since` until the stream ends, a step fails or asks to stop, the terminate
   * flag is seen, or the run has already failed. It returns why it stopped and
   * the offsets of the steps it executed.
   */
  method RunSince(ctx: StreamExecutionContext, streamIdx: nat, terminate: bool, since: nat,
                  execute: StepOracle)
    returns (exit: ExitReason, executed: seq<nat>)
    requires ctx.Valid()
    requires streamIdx < |ctx.plan.streamSteps|
    modifies ctx`remainTasks, ctx`taskStatus
    ensures ctx.Valid()
    ensures var r := RunSinceSpec(old(ctx.taskStatus), terminate, execute, streamIdx, since,
                                  ctx.plan.streamSteps[streamIdx]);
            exit == r.exit && executed == r.executed && ctx.taskStatus == r.status
    ensures ctx.remainTasks == old(ctx.remainTasks) - Completions(exit)
  {
    executed := [];
    if !ctx.taskStatus.OK? {
      // already in bad status
      ctx.CompleteTask();
      return AlreadyFailed, executed;
    }
    var end := ctx.plan.streamSteps[streamIdx];
    var offset := since;
    while offset < end
      invariant since <= end ==> since <= offset <= end
      invariant since > end ==> offset == since && executed == [] && ctx.taskStatus == old(ctx.taskStatus)
      invariant ctx.remainTasks == old(ctx.remainTasks)
      invariant since <= end ==>
                  var whole := LaneLoop(old(ctx.taskStatus), terminate, execute, streamIdx, since, end);
                  var rest := LaneLoop(ctx.taskStatus, terminate, execute, streamIdx, offset, end);
                  && whole.exit == rest.exit
                  && whole.status == rest.status
                  && whole.executed == executed + rest.executed
      decreases end as int - offset
    {
      if !ctx.taskStatus.OK? {
        ctx.CompleteTask();
        return AlreadyFailed, executed;
      }
      if terminate {
        ctx.SetStatus(TerminateStatus);
        ctx.CompleteTask();
        return Terminated, executed;
      }
      var outcome := execute(streamIdx, offset);
      executed := executed + [offset];
      // what other invocations installed in the shared status while the step ran
      ctx.SetStatus(outcome.reported);
      if !outcome.status.OK? {
        ctx.SetStatus(outcome.status);
        ctx.CompleteTask();
        return StepFailed, executed;
      }
      if !outcome.continueFlag {
        // break but do not terminate
        ctx.CompleteTask();
        return Suspended, executed;
      }
      offset := offset + 1;
    }
    if offset != end {
      // the enforcement that the loop stopped exactly at the end fails
      return BeyondEnd, executed;
    }
    ctx.CompleteTask();
    return Exhausted, executed;
  }

  /**
   * Launches every invocation registered for `trigger`: each is counted as a
   * task before it is handed to the thread pool.
   */
  method ScheduleDownstream(ctx: StreamExecutionContext, trigger: nat)
    requires ctx.Valid()
    modifies ctx`remainTasks, ctx`pending
    ensures ctx.Valid()
    ensures trigger in ctx.plan.downstreamMap ==>
              && ctx.remainTasks == old(ctx.remainTasks) + |ctx.plan.downstreamMap[trigger]|
              && ctx.pending == old(ctx.pending) + ctx.plan.downstreamMap[trigger]
    ensures trigger !in ctx.plan.downstreamMap ==>
              ctx.remainTasks == old(ctx.remainTasks) && ctx.pending == old(ctx.pending)
  {
    if trigger in ctx.plan.downstreamMap {
      var downstreams := ctx.plan.downstreamMap[trigger];
      for i := 0 to |downstreams|
        invariant ctx.Valid()
        invariant ctx.remainTasks == old(ctx.remainTasks) + i
        invariant ctx.pending == old(ctx.pending) + downstreams[..i]
      {
        ctx.AddTask();
        assert downstreams[..i + 1] == downstreams[..i] + [downstreams[i]];
        ctx.pending := ctx.pending + [downstreams[i]];
      }
      assert downstreams[..|downstreams|] == downstreams;
    }
  }
}
