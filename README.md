# Stream execution bookkeeping and NNAPI operator support, in Dafny

This project models two parts of onnxruntime.

**The per-run scheduling state of the multi-stream executor**
(`StreamExecutionContext`, `RunSince` and `ScheduleDownstream`). It covers:
- the count-down barriers, each set to 2;
- the remaining-task counter, set to the number of streams;
- the release plan, which holds a remaining-consumer count per release action and frees a value on the decrement that brings its count to exactly zero;
- the notifications, one per owner;
- the first-failure-wins task status;
- the lane runner, which executes one logic stream's steps from an offset;
- the dispatcher, which launches every (stream, offset) registered for a trigger.

The context is a class with array fields (`countDownBarriers`, `releasePlan`) and scalar fields. Its methods update these in place. `SetStatus`, `DecCountDownBarrier`, `RecycleNodeInputs` and `RunSince` are proved against pure functions in `SchedulingRules`, whose properties are proved as lemmas. The constructor, `GetDeviceStream`, `AddTask`, `CompleteTask`, `WaitAll` and `ScheduleDownstream` state their new state directly.

The run is modelled one sequential step at a time:
- Atomic counters are plain fields.
- The inter-op thread pool is the queue `pending` of scheduled invocations.
- `WaitAll` runs that queue to the end. It returns with the remaining-task count at zero.
- A stream's steps are an oracle `(stream, offset) -> StepOutcome`. An outcome gives the step's status and its `continue_flag`. It also gives any failure that another invocation put into the shared status while the step ran, for example a downstream invocation run inline in single-thread mode. Because of this field, the status re-check before every step can actually stop a lane.

**The shared checks of the NNAPI operator builders** (`BaseOpBuilder`): the feature-level gate, the node-unit type, input shapes, external initializers, the opset range, and adding a node unit to the model builder. These are pure functions over a small description of a node unit: its inputs, their optional quantization parameters, shapes, element types, and the graph's initializers. The virtual hooks of a concrete builder are the function-valued fields of `OpBuilderHooks`, and so is the node-unit type check, whose base definition (reject QDQ groups) is the default a builder may replace.

Files: `common.dfy` (status and option types), `execution_plan.dfy` (the immutable plan), `scheduling_rules.dfy` (the rules and lemmas), `stream_execution_context.dfy` (the context class, `RunSince`, `ScheduleDownstream`), `scenario.dfy` (a two-stream run driven step by step: one stream triggers the other, which resumes and releases a value exactly once), `base_op_builder.dfy` (NNAPI).

A note on the source as written. In an inference build, `end` equals the stream's step count. The guard `since > end && since < steps.size()` at `stream_execution_context.cc:131` therefore never holds, and the throw at line 172 never fires. A resume offset past the end skips the loop and fails `ORT_ENFORCE(since == end)` at line 210 instead. That happens after the entry status check and without a `CompleteTask`. The model follows the code: this exit is `BeyondEnd`, and it is the only exit that does not complete the task. The model assumes that the plan's downstream map never registers such an offset (`ValidPlan`, required by the constructor).

## Model

| member | source | states |
|---|---|---|
| `SchedulingRules.SetStatusResult` | onnxruntime/core/framework/stream_execution_context.cc:93-100 | the status stays OK only if both statuses are OK; a failed status is never replaced; an OK argument changes nothing; any change adopts the argument |
| `SchedulingRules.FailureIsFinal` | onnxruntime/core/framework/stream_execution_context.cc:93-100 | once the status is non-OK, no series of later `SetStatus` calls changes it |
| `SchedulingRules.FirstFailureWins` | onnxruntime/core/framework/stream_execution_context.cc:93-100 | starting from OK, a series of `SetStatus` calls ends OK exactly when every reported status is OK, and otherwise ends with the first failure reported |
| `SchedulingRules.DecrementReports` | onnxruntime/core/framework/stream_execution_context.cc:67-69 | n decrements of a counter give n reports |
| `SchedulingRules.DecrementReportAt` | onnxruntime/core/framework/stream_execution_context.cc:67-69 | the k-th decrement of a counter that starts at `start` reports reaching zero exactly when k + 1 == start |
| `SchedulingRules.ReachesZeroOnce` | onnxruntime/core/framework/stream_execution_context.cc:67-69 | over any number of decrements, a counter reports reaching zero at most once: once if decremented at least `start` times (`start` >= 1), never before; a barrier set to 2 lets exactly one of its two decrements through |
| `SchedulingRules.Recycle` | onnxruntime/core/framework/stream_execution_context.cc:104-111 | recycling keeps one count per release action and fires only actions of the plan |
| `SchedulingRules.RecycleSnoc` | onnxruntime/core/framework/stream_execution_context.cc:106-110 | recycling one more listed action is one more decrement-and-maybe-release step on the previous result |
| `SchedulingRules.RecycleDecrementsListed` | onnxruntime/core/framework/stream_execution_context.cc:104-111 | each release count drops by exactly the number of times its action is listed; entries that are not listed do not change |
| `SchedulingRules.ReleasedExactlyOnce` | onnxruntime/core/framework/stream_execution_context.cc:107-110 | an action with count N >= 1 fires exactly once if it is decremented at least N times, and never before its N-th decrement; an action with count <= 0 never fires |
| `SchedulingRules.RecycleConcat` | onnxruntime/core/framework/stream_execution_context.cc:104-111 | recycling two nodes one after the other equals recycling the concatenation of their lists, so the exactly-once property carries over a whole run |
| `SchedulingRules.LaneLoopSteps` | onnxruntime/core/framework/stream_execution_context.cc:176-211 | entered with an OK status, the loop executes consecutive offsets from `since`, all below `end`; every step but the last succeeded and continued; each exit reason is explained (exhausted: reached `end`; terminated: no step and the FAIL status; failed/suspended/stopped by another failure: the last step's outcome), and the final status is what the last step reported |
| `SchedulingRules.RunSinceSteps` | onnxruntime/core/framework/stream_execution_context.cc:114-212 | a context already in a bad status runs no step and keeps its status; otherwise the steps are the offsets `since, since+1, ...` below `end`, a normal exit ends at `end`, and the status stays OK exactly when the lane was not terminated and no step it ran failed or saw a failure |
| `SchedulingRules.RunSinceCompletesOnce` | onnxruntime/core/framework/stream_execution_context.cc:114-212 | an invocation completes its task exactly once on every exit except a resume past the end of the stream; a failed status stays as it was |
| `SchedulingRules.TerminateRunsNothing` | onnxruntime/core/framework/stream_execution_context.cc:181-186 | with the terminate flag set, no step runs and the status ends non-OK, namely the FAIL status when it was OK before |
| `StreamExecution.StreamExecutionContext.constructor` | onnxruntime/core/framework/stream_execution_context.cc:12-57 | every barrier holds 2, the remaining-task count equals the number of streams, `releasePlan[i]` equals action i's reference count, there is one notification per owner (null when the owner's stream is null), and the status is OK |
| `StreamExecution.StreamExecutionContext.GetDeviceStream` | onnxruntime/core/framework/stream_execution_context.cc:71-74 | returns device stream `idx` exactly when idx is below the number of streams, and fails the enforcement otherwise |
| `StreamExecution.StreamExecutionContext.DecCountDownBarrier` | onnxruntime/core/framework/stream_execution_context.cc:67-69 | decrements only the named barrier, and reports true exactly when it reaches zero |
| `StreamExecution.StreamExecutionContext.AddTask` | onnxruntime/core/framework/stream_execution_context.cc:84-86 | the remaining-task count rises by one |
| `StreamExecution.StreamExecutionContext.CompleteTask` | onnxruntime/core/framework/stream_execution_context.cc:80-82 | the remaining-task count drops by one |
| `StreamExecution.StreamExecutionContext.SetStatus` | onnxruntime/core/framework/stream_execution_context.cc:93-100 | the new status is `SetStatusResult(old status, argument)`, which is first-failure-wins |
| `StreamExecution.StreamExecutionContext.RecycleNodeInputs` | onnxruntime/core/framework/stream_execution_context.cc:104-112 | the release plan becomes `Recycle(old plan, node_release_list[node])`, and the values released are exactly those of the actions that reached zero, in order |
| `StreamExecution.StreamExecutionContext.WaitAll` | onnxruntime/core/framework/stream_execution_context.cc:88-91 | when every queued invocation is counted, running the queue to the end leaves no invocation pending and zero remaining tasks, and a failed status is never replaced |
| `StreamExecution.RunSince` | onnxruntime/core/framework/stream_execution_context.cc:114-213 | the exit reason, the executed offsets and the new status are those of `RunSinceSpec`; the remaining-task count drops by exactly one unless the resume offset is past the end |
| `StreamExecution.ScheduleDownstream` | onnxruntime/core/framework/stream_execution_context.cc:215-235 | for a registered trigger, the remaining-task count rises by the number of registered (stream, offset) pairs, and exactly those invocations are queued in order; an unregistered trigger changes nothing |
| `NnapiBaseOpBuilder.ExternalFrom` | onnxruntime/core/providers/nnapi/nnapi_builtin/builders/impl/base_op_builder.cc:32-47 | the scan with early returns finds an external initializer exactly when some remaining input, its scale, or its zero point names one |
| `NnapiBaseOpBuilder.HasExternalInitializer` | onnxruntime/core/providers/nnapi/nnapi_builtin/builders/impl/base_op_builder.cc:12-48 | true exactly when some input arg, quant scale or present zero point names an initializer whose data location is EXTERNAL; unknown names are not external |
| `NnapiBaseOpBuilder.ShapesSupportedFrom` | onnxruntime/core/providers/nnapi/nnapi_builtin/builders/impl/base_op_builder.cc:119-135 | the scan that skips inputs that do not exist succeeds exactly when every remaining existing input, its scale and its present zero point have a shape with only concrete dimensions |
| `NnapiBaseOpBuilder.HasSupportedInputOutputs` | onnxruntime/core/providers/nnapi/nnapi_builtin/builders/impl/base_op_builder.cc:98-138 | true exactly when every existing input (and its quantization scale and present zero point) has a fully known shape and `HasSupportedInputOutputsImpl` holds |
| `NnapiBaseOpBuilder.DynamicDimensionRejected` | onnxruntime/core/providers/nnapi/nnapi_builtin/builders/impl/base_op_builder.cc:109-115 | an existing input with a dimension that has no value makes the inputs unsupported, whatever the builder's hook says |
| `NnapiBaseOpBuilder.InputIsFloat` | onnxruntime/core/providers/nnapi/nnapi_builtin/builders/impl/base_op_builder.cc:140-155 | true exactly when the input's element type can be read and is FLOAT (1) |
| `NnapiBaseOpBuilder.HasSupportedOpSet` | onnxruntime/core/providers/nnapi/nnapi_builtin/builders/impl/base_op_builder.cc:157-168 | true exactly when `GetMinSupportedOpSet <= SinceVersion <= GetMaxSupportedOpSet` |
| `NnapiBaseOpBuilder.IsNodeUnitTypeSupported` | onnxruntime/core/providers/nnapi/nnapi_builtin/builders/impl/base_op_builder.cc:170-179 | the base unit-type check, the default of the builder hook: true exactly for single-node units; false exactly for QDQ groups |
| `NnapiBaseOpBuilder.DefaultRejectsQDQGroup` | onnxruntime/core/providers/nnapi/nnapi_builtin/builders/impl/base_op_builder.cc:82-83 | with the base unit-type check, a QDQ group is not supported whatever the other hooks say |
| `NnapiBaseOpBuilder.IsOpSupported` | onnxruntime/core/providers/nnapi/nnapi_builtin/builders/impl/base_op_builder.cc:71-96 | false whenever the required feature level exceeds the device's; true exactly when all of these hold: the feature level suffices, the builder's unit-type check accepts the unit, inputs have known shapes and the IO hook holds, no input is an external initializer, the opset is in range, and `IsOpSupportedImpl` holds |
| `NnapiBaseOpBuilder.ExternalInitializerUnsupported` | onnxruntime/core/providers/nnapi/nnapi_builtin/builders/impl/base_op_builder.cc:88-90 | with any builder, a node unit with an external initializer among its inputs, scales or zero points is not supported |
| `NnapiBaseOpBuilder.AddToModelBuilder` | onnxruntime/core/providers/nnapi/nnapi_builtin/builders/impl/base_op_builder.cc:51-69 | fails exactly when `AddToModelBuilderImpl` fails and then returns its error; otherwise returns OK |

## Left out

- Concurrency. This covers `std::atomic_int`, the unsynchronised check-then-set of the status, `ThreadPool::Schedule` and the `SpinPause` loop of `WaitAll`. The model is sequential: interleavings are not explored. Scheduled work waits in the `pending` queue, and `WaitAll` runs that queue in order instead of spinning.
- `ScheduleDownstream` in single-thread mode: the thread pool (not part of this model) runs the continuation inline. The model queues it like any other. Failures such invocations install show up in the `reported` field of the step outcome.
- The terminate flag is read as one value for the whole invocation. Another thread setting it between two steps is not modelled.
- The `ENABLE_TRAINING` partial-range branch (`stream_execution_context.cc:125-170`). Its range object is not part of this model, so `end` is always the stream's step count.
- The internals of `CountDownBarrier` and of `Stream::CreateNotification` are not part of this model. `Dec` is modelled by its contract: decrement, and report reaching zero. Notification creation is an oracle that may return null.
- Step execution. `steps_[since]->Execute(...)` is an oracle. A thrown exception is modelled as a failing status. The calls a step makes into the context (barrier decrements, recycling inputs, scheduling downstream work) are not made from inside `RunSince`; a driver makes them in between (see `scenario.dfy`).
- `ExecutionFrame::ReleaseMLValue` is assumed to succeed. Its result is enforced in the source, and a release is recorded as the value index appended to `released`. The execution frame's storage is not modelled.
- Fixed-width integers. Release counts (`atomic_int`), `num_streams` (`int32_t`) and reference counts (`size_t` cast to `int`) are unbounded integers in the model. Overflow and the narrowing cast are not modelled.
- Logging (`LOGS`), the trivial accessors `GetSessionState`, `GetLogger`, `GetExecutionFrame`, `GetNotification` and `TaskStatus` (the model's fields are read directly), and the destructor.
- NNAPI: the operands and operations `AddToModelBuilderImpl` adds to the model builder are not modelled; the hook returns only a status. The debug-only `SetDebugCurrentOnnxNodeIndex` is not modelled. The `OpSupportCheckParams` that `AddToModelBuilder` builds are not modelled either, because their only use is a commented-out re-check.
- NNAPI: `GetType` (from shared utils, not part of this model) is an optional element type on the argument. `NodeArg::Exists` is a field. The builders' default hook implementations (in the header, not part of this model) are left to the caller, through `OpBuilderHooks`.
- The execution plan is assumed valid (`ValidPlan`, required by the constructor). Every release index in a node's release list is in range, and every downstream invocation names an existing stream and an offset no greater than that stream's step count. The planner that builds the plan is not part of this model.
- `ParameterOptimizerState.py` (generated FlatBuffers accessors), `coreml/model/model_stub.cc` (stubs that always fail) and `coreml/builders/coreml_spec.h` (an include and an alias) are not part of this model.
