/**
 * The deterministic bookkeeping rules of the stream execution context, one
 * sequential step at a time: how the task status is replaced, what a
 * count-down counter reports, how recycling a node's inputs moves the release
 * plan, and what one lane-runner invocation does.
 */
module SchedulingRules {
  import opened Common

  // ---------------------------------------------------------------------------
  // Task status: first failure wins
  // ---------------------------------------------------------------------------

  /** The task status after `SetStatus(incoming)` on a context whose status is `current`. */
  function SetStatusResult(current: Status, incoming: Status): (r: Status)
    ensures r.OK? <==> current.OK? && incoming.OK?
    ensures !current.OK? ==> r == current
    ensures incoming.OK? ==> r == current
    ensures r != current ==> r == incoming
  {
    if current.OK? && !incoming.OK? then incoming else current
  }

  /** The task status after a series of `SetStatus` calls, in order. */
  function SetStatusAll(current: Status, incoming: seq<Status>): Status
    decreases |incoming|
  {
    if incoming == [] then current
    else SetStatusAll(SetStatusResult(current, incoming[0]), incoming[1..])
  }

  /** Once non-OK, no later `SetStatus` replaces the status. */
  lemma {:induction false} FailureIsFinal(current: Status, incoming: seq<Status>)
    requires !current.OK?
    ensures SetStatusAll(current, incoming) == current
    decreases |incoming|
  {
    if incoming != [] {
      FailureIsFinal(SetStatusResult(current, incoming[0]), incoming[1..]);
    }
  }

  /**
   * Starting from OK, a series of `SetStatus` calls leaves OK exactly when every
   * reported status is OK, and otherwise the first failure reported.
   */
  lemma {:induction false} FirstFailureWins(incoming: seq<Status>)
    ensures (forall i :: 0 <= i < |incoming| ==> incoming[i].OK?) <==> SetStatusAll(OK, incoming).OK?
    ensures forall i :: 0 <= i < |incoming| && !incoming[i].OK? &&
                        (forall j :: 0 <= j < i ==> incoming[j].OK?) ==>
                        SetStatusAll(OK, incoming) == incoming[i]
    decreases |incoming|
  {
    if incoming != [] {
      if incoming[0].OK? {
        FirstFailureWins(incoming[1..]);
        assert forall i :: 1 <= i < |incoming| ==> incoming[i] == incoming[1..][i - 1];
      } else {
        FailureIsFinal(incoming[0], incoming[1..]);
      }
    }
  }

  // ---------------------------------------------------------------------------
  // Count-down counters: the barriers and the release-plan entries
  // ---------------------------------------------------------------------------

  /**
   * What `Dec` reports on each of `n` consecutive decrements of a counter that
   * holds `start`: true exactly on the decrement that leaves it at zero.
   */
  function DecrementReports(start: int, n: nat): (r: seq<bool>)
    ensures |r| == n
    decreases n
  {
    if n == 0 then [] else [start - 1 == 0] + DecrementReports(start - 1, n - 1)
  }

  /** The k-th decrement (counting from 0) reports true exactly when it is the start-th one. */
  lemma {:induction false} DecrementReportAt(start: int, n: nat, k: nat)
    requires k < n
    ensures DecrementReports(start, n)[k] <==> k + 1 == start
    decreases n
  {
    if k > 0 {
      DecrementReportAt(start - 1, n - 1, k - 1);
    }
  }

  /**
   * A counter set to `start` reports reaching zero at most once over any number
   * of decrements: once if it is decremented at least `start` times, never before.
   */
  lemma {:induction false} ReachesZeroOnce(start: int, n: nat)
    ensures multiset(DecrementReports(start, n))[true] == if 1 <= start <= n then 1 else 0
    decreases n
  {
    if n > 0 {
      ReachesZeroOnce(start - 1, n - 1);
      assert DecrementReports(start, n) == [start - 1 == 0] + DecrementReports(start - 1, n - 1);
    }
  }

  // ---------------------------------------------------------------------------
  // Release plan: RecycleNodeInputs
  // ---------------------------------------------------------------------------

  /** Every entry of `list` indexes a table of `n` entries. */
  predicate IndicesBelow(list: seq<nat>, n: nat) {
    forall k :: 0 <= k < |list| ==> list[k] < n
  }

  /** The release counts after a series of decrements, and the actions that reached zero, in order. */
  datatype Recycled = Recycled(counts: seq<int>, fired: seq<nat>)

  /** Decrements the release count of action `idx`; the action fires when its count becomes exactly zero. */
  function RecycleOne(r: Recycled, idx: nat): Recycled
    requires idx < |r.counts|
  {
    var left := r.counts[idx] - 1;
    Recycled(r.counts[idx := left], if left == 0 then r.fired + [idx] else r.fired)
  }

  /** Decrements the release count of each action in `list`, left to right. */
  function Recycle(counts: seq<int>, list: seq<nat>): (r: Recycled)
    requires IndicesBelow(list, |counts|)
    ensures |r.counts| == |counts|
    ensures IndicesBelow(r.fired, |counts|)
    decreases |list|
  {
    if list == [] then Recycled(counts, [])
    else RecycleOne(Recycle(counts, list[..|list| - 1]), list[|list| - 1])
  }

  /** Recycling one more action is one more `RecycleOne` step. */
  lemma RecycleSnoc(counts: seq<int>, list: seq<nat>, idx: nat)
    requires IndicesBelow(list, |counts|) && idx < |counts|
    ensures IndicesBelow(list + [idx], |counts|)
    ensures Recycle(counts, list + [idx]) == RecycleOne(Recycle(counts, list), idx)
  {
    assert (list + [idx])[..|list|] == list;
  }

  /** Each release count drops by the number of times its action is listed, and no other changes. */
  lemma {:induction false} RecycleDecrementsListed(counts: seq<int>, list: seq<nat>, i: nat)
    requires IndicesBelow(list, |counts|) && i < |counts|
    ensures Recycle(counts, list).counts[i] == counts[i] - multiset(list)[i]
    decreases |list|
  {
    if list != [] {
      var init := list[..|list| - 1];
      assert list == init + [list[|list| - 1]];
      RecycleDecrementsListed(counts, init, i);
    }
  }

  /**
   * Release action `idx` fires exactly once if its count `c` is positive and it
   * is decremented at least `c` times, and never otherwise; in particular never
   * before its c-th decrement.
   */
  lemma {:induction false} ReleasedExactlyOnce(counts: seq<int>, list: seq<nat>, idx: nat)
    requires IndicesBelow(list, |counts|) && idx < |counts|
    ensures multiset(Recycle(counts, list).fired)[idx] ==
            if 1 <= counts[idx] <= multiset(list)[idx] then 1 else 0
    decreases |list|
  {
    if list != [] {
      var init := list[..|list| - 1];
      assert list == init + [list[|list| - 1]];
      ReleasedExactlyOnce(counts, init, idx);
      RecycleDecrementsListed(counts, init, idx);
    }
  }

  /** Recycling two lists one after the other is recycling their concatenation. */
  lemma {:induction false} RecycleConcat(counts: seq<int>, first: seq<nat>, second: seq<nat>)
    requires IndicesBelow(first, |counts|) && IndicesBelow(second, |counts|)
    ensures var a := Recycle(counts, first);
            var b := Recycle(a.counts, second);
            Recycle(counts, first + second) == Recycled(b.counts, a.fired + b.fired)
    decreases |second|
  {
    if second == [] {
      assert first + second == first;
    } else {
      var init, last := second[..|second| - 1], second[|second| - 1];
      assert second == init + [last];
      assert first + second == (first + init) + [last];
      RecycleConcat(counts, first, init);
      var a := Recycle(counts, first);
      var prev := Recycle(a.counts, init);
      RecycleSnoc(a.counts, init, last);
      RecycleSnoc(counts, first + init, last);
      assert a.fired + (prev.fired + [last]) == (a.fired + prev.fired) + [last];
    }
  }

  // ---------------------------------------------------------------------------
  // The lane runner: RunSince
  // ---------------------------------------------------------------------------

  /**
   * What executing one step reports: its own status and whether the lane may go
   * on, and `reported`, a failure that another invocation installed in the shared
   * status while the step ran (a downstream invocation run inline in
   * single-thread mode, or another lane on the thread pool); OK when none.
   */
  datatype StepOutcome = StepOutcome(status: Status, continueFlag: bool, reported: Status)

  /** The steps of the plan: the outcome of executing step `offset` of stream `stream`. */
  type StepOracle = (nat, nat) -> StepOutcome

  /** Neither the step nor anything it ran beside it failed. */
  predicate Succeeded(outcome: StepOutcome) {
    outcome.status.OK? && outcome.reported.OK?
  }

  /**
   * Why an invocation of the lane runner returned. `BeyondEnd` is the enforcement
   * failure raised when asked to resume past the end of the stream.
   */
  datatype ExitReason = AlreadyFailed | Terminated | StepFailed | Suspended | Exhausted | BeyondEnd

  /** The exit reason, the offsets of the steps executed, in order, and the final task status. */
  datatype LaneRun = LaneRun(exit: ExitReason, executed: seq<nat>, status: Status)

  /** The status installed when the terminate flag is seen. */
  const TerminateStatus: Status := Error(Fail, "Exiting due to terminate flag being set to true.")

  /** How many times an invocation that exits for `exit` calls `CompleteTask`. */
  function Completions(exit: ExitReason): nat {
    if exit == BeyondEnd then 0 else 1
  }

  /** The loop of the lane runner from step `since` of a stream with `end` steps. */
  function LaneLoop(status: Status, terminate: bool, execute: StepOracle,
                    stream: nat, since: nat, end: nat): LaneRun
    requires since <= end
    decreases end - since
  {
    if since == end then LaneRun(Exhausted, [], status)
    else if !status.OK? then LaneRun(AlreadyFailed, [], status)
    else if terminate then LaneRun(Terminated, [], SetStatusResult(status, TerminateStatus))
    else
      var outcome := execute(stream, since);
      var during := SetStatusResult(status, outcome.reported);
      if !outcome.status.OK? then LaneRun(StepFailed, [since], SetStatusResult(during, outcome.status))
      else if !outcome.continueFlag then LaneRun(Suspended, [since], during)
      else
        var rest := LaneLoop(during, terminate, execute, stream, since + 1, end);
        rest.(executed := [since] + rest.executed)
  }

  /** One invocation of the lane runner on a context whose task status is `status`. */
  function RunSinceSpec(status: Status, terminate: bool, execute: StepOracle,
                        stream: nat, since: nat, end: nat): LaneRun
  {
    if !status.OK? then LaneRun(AlreadyFailed, [], status)
    else if since > end then LaneRun(BeyondEnd, [], status)
    else LaneLoop(status, terminate, execute, stream, since, end)
  }

  /** The consecutive offsets `from, from + 1, ...` below `to`. */
  function Offsets(from: nat, to: nat): (r: seq<nat>)
    requires from <= to
    ensures |r| == to - from
    ensures forall k :: 0 <= k < |r| ==> r[k] == from + k
  {
    seq(to - from, k requires 0 <= k < to - from => from + k)
  }

  /**
   * The loop of the lane runner entered with an OK status: the steps run are
   * consecutive from `since`; every step but the last succeeded and let the
   * lane go on; each exit reason is explained by the last step or the flag.
   */
  lemma {:induction false} LaneLoopSteps(status: Status, terminate: bool, execute: StepOracle,
                                         stream: nat, since: nat, end: nat)
    requires since <= end && status.OK?
    ensures var r := LaneLoop(status, terminate, execute, stream, since, end);
            var n := |r.executed|;
            && since + n <= end
            && r.executed == Offsets(since, since + n)
            && (forall k :: 0 <= k < n - 1 ==>
                  Succeeded(execute(stream, r.executed[k])) && execute(stream, r.executed[k]).continueFlag)
            && r.exit != BeyondEnd
            && (r.exit == Exhausted ==> since + n == end)
            && (r.exit == Terminated ==> terminate && n == 0 && r.status == TerminateStatus)
            && (r.exit == AlreadyFailed ==>
                  n > 0 && !execute(stream, r.executed[n - 1]).reported.OK?)
            && (r.exit == StepFailed ==>
                  n > 0 && !execute(stream, r.executed[n - 1]).status.OK?)
            && (r.exit == Suspended ==>
                  n > 0 && !execute(stream, r.executed[n - 1]).continueFlag)
            && (r.exit != Terminated ==>
                  r.status == if n == 0 then OK
                              else SetStatusResult(execute(stream, r.executed[n - 1]).reported,
                                                   execute(stream, r.executed[n - 1]).status))
    decreases end - since
  {
    if since < end && !terminate {
      var outcome := execute(stream, since);
      if Succeeded(outcome) && outcome.continueFlag {
        LaneLoopSteps(status, terminate, execute, stream, since + 1, end);
      }
    }
  }

  /**
   * One invocation of the lane runner: a context already in a bad status runs no
   * step and keeps its status; otherwise the steps run are the consecutive
   * offsets from `since`, all below `end`, a normal exit reaches `end`, and the
   * status is left OK exactly when the lane was not terminated and no step it
   * ran failed or saw another invocation fail.
   */
  lemma RunSinceSteps(status: Status, terminate: bool, execute: StepOracle,
                      stream: nat, since: nat, end: nat)
    ensures var r := RunSinceSpec(status, terminate, execute, stream, since, end);
            && (!status.OK? ==> r == LaneRun(AlreadyFailed, [], status))
            && (status.OK? && since > end ==> r == LaneRun(BeyondEnd, [], status))
            && (status.OK? && since <= end ==>
                  && since + |r.executed| <= end
                  && r.executed == Offsets(since, since + |r.executed|)
                  && (r.exit == Exhausted ==> since + |r.executed| == end)
                  && (r.exit == Terminated ==> r.executed == [] && r.status == TerminateStatus)
                  && (r.status.OK? <==>
                        r.exit != Terminated &&
                        forall k :: 0 <= k < |r.executed| ==> Succeeded(execute(stream, r.executed[k]))))
  {
    if status.OK? && since <= end {
      LaneLoopSteps(status, terminate, execute, stream, since, end);
    }
  }

  /**
   * Every invocation but the one asked to resume past the end of its stream
   * calls `CompleteTask` exactly once; the status never goes back to OK.
   */
  lemma RunSinceCompletesOnce(status: Status, terminate: bool, execute: StepOracle,
                              stream: nat, since: nat, end: nat)
    ensures var r := RunSinceSpec(status, terminate, execute, stream, since, end);
            && (Completions(r.exit) == 1 <==> !status.OK? || since <= end)
            && (!status.OK? ==> r.status == status)
  {
    if status.OK? && since <= end {
      LaneLoopSteps(status, terminate, execute, stream, since, end);
    }
  }

  /** With the terminate flag set, an invocation runs no step and ends in a failed status. */
  lemma TerminateRunsNothing(status: Status, execute: StepOracle, stream: nat, since: nat, end: nat)
    requires since < end
    ensures var r := RunSinceSpec(status, true, execute, stream, since, end);
            r.executed == [] && !r.status.OK? && (status.OK? ==> r.status == TerminateStatus)
  {
  }
}
