/**
 * How the table-storage data store turns the settled tasks of its submissions
 * into one count or one exception (`CountTableResults`, `InspectResults`,
 * `InspectBatchResults`).
 */
module ResultInspection {
  import opened Wrappers

  /** HTTP 400 Bad Request: every status from here on (client and server errors) is a failed write. */
  const BadRequest: int := 400

  /** The table service's answer for one operation; only its status matters here. */
  datatype TableResult = TableResult(httpStatusCode: int)

  predicate Failed(r: TableResult) {
    r.httpStatusCode >= BadRequest
  }

  /** The `AggregateException` a faulted task carries; its content is opaque here. */
  datatype TaskFault = TaskFault(description: string)

  /** How a submitted task has ended by the time the results are inspected. */
  datatype Settled<+T> = Faulted(fault: TaskFault) | Canceled | RanToCompletion(result: T)

  /** The exceptions a save can end with. */
  datatype SaveError =
    | TaskFaulted(fault: TaskFault)   // a faulted task's exception, rethrown
    | ResultOfCanceledTask            // `task.Result` read on a canceled task
    | DbUpdate(failed: TableResult)   // `DbUpdateException` for a result with a failed status
    | NullReference                   // the partition key read through a null table entity
    | TaskCanceled                    // the joining continuation cancelled by the token
    | NoTasksToJoin                   // `ArgumentException`: `ContinueWhenAll` given an empty task array

  /** The fault of the first faulted task, in array order (`FirstOrDefault(t => t.Exception != null)`). */
  function FirstFault<T>(tasks: seq<Settled<T>>): (r: Option<TaskFault>)
    ensures r.None? <==> forall i :: 0 <= i < |tasks| ==> !tasks[i].Faulted?
    ensures r.Some? ==> exists i :: 0 <= i < |tasks| && tasks[i] == Faulted(r.value)
                                 && forall j :: 0 <= j < i ==> !tasks[j].Faulted?
  {
    if tasks == [] then None
    else if tasks[0].Faulted? then Some(tasks[0].fault)
    else
      var r := FirstFault(tasks[1..]);
      assert forall i :: 0 < i < |tasks| ==> tasks[i] == tasks[1..][i - 1];
      r
  }

  /** The first result with a failed status, in order (`FirstOrDefault(r => r.HttpStatusCode >= BadRequest)`). */
  function FirstFailed(results: seq<TableResult>): (r: Option<TableResult>)
    ensures r.None? <==> forall i :: 0 <= i < |results| ==> !Failed(results[i])
    ensures r.Some? ==> exists i :: 0 <= i < |results| && results[i] == r.value && Failed(r.value)
                                 && forall j :: 0 <= j < i ==> !Failed(results[j])
  {
    if results == [] then None
    else if Failed(results[0]) then Some(results[0])
    else
      var r := FirstFailed(results[1..]);
      assert forall i :: 0 < i < |results| ==> results[i] == results[1..][i - 1];
      r
  }

  /** The sum of a sequence of counts. */
  function Total(counts: seq<int>): int {
    if counts == [] then 0 else counts[0] + Total(counts[1..])
  }

  /** The count `inspect` returns for each task; 0 stands in where it throws. */
  function Values<T>(tasks: seq<Settled<T>>, inspect: Settled<T> -> Result<int, SaveError>): seq<int> {
    seq(|tasks|, i requires 0 <= i < |tasks| => if inspect(tasks[i]).Success? then inspect(tasks[i]).value else 0)
  }

  /**
   * `tasks.Aggregate(acc, (current, task) => current + inspect(task))`: a left
   * fold that stops at the first exception `inspect` throws, and otherwise adds
   * every task's count to `acc`.
   */
  function SumInspected<T>(tasks: seq<Settled<T>>, inspect: Settled<T> -> Result<int, SaveError>, acc: int): (r: Result<int, SaveError>)
    ensures r.Success? <==> forall i :: 0 <= i < |tasks| ==> inspect(tasks[i]).Success?
    ensures r.Success? ==> r.value == acc + Total(Values(tasks, inspect))
    ensures r.Failure? ==> exists i :: 0 <= i < |tasks| && inspect(tasks[i]) == Failure(r.error)
                                    && forall j :: 0 <= j < i ==> inspect(tasks[j]).Success?
  {
    if tasks == [] then Success(acc)
    else
      assert forall i :: 0 < i < |tasks| ==> tasks[i] == tasks[1..][i - 1];
      assert Values(tasks[1..], inspect) == Values(tasks, inspect)[1..];
      match inspect(tasks[0])
      case Failure(e) => Failure(e)
      case Success(n) => SumInspected(tasks[1..], inspect, acc + n)
  }

  /**
   * `CountTableResults`: rethrow the first faulted task's exception, otherwise
   * fold `inspect` over the tasks. Fault precedence: when task `i` is the first
   * faulted one, its exception is the outcome, whatever the other tasks hold
   * and whatever `inspect` would make of them. Without a faulted task, the
   * count succeeds exactly when `inspect` succeeds on every task, with the
   * total of their counts, and otherwise ends with the first exception
   * `inspect` throws.
   */
  function CountTableResults<T>(tasks: seq<Settled<T>>, inspect: Settled<T> -> Result<int, SaveError>): (r: Result<int, SaveError>)
    ensures forall i :: 0 <= i < |tasks| && tasks[i].Faulted? && (forall j :: 0 <= j < i ==> !tasks[j].Faulted?)
              ==> r == Failure(TaskFaulted(tasks[i].fault))
    ensures (forall i :: 0 <= i < |tasks| ==> !tasks[i].Faulted?) ==>
              && (r.Success? <==> forall i :: 0 <= i < |tasks| ==> inspect(tasks[i]).Success?)
              && (r.Success? ==> r.value == Total(Values(tasks, inspect)))
              && (r.Failure? ==> exists i :: 0 <= i < |tasks| && inspect(tasks[i]) == r
                                            && forall j :: 0 <= j < i ==> inspect(tasks[j]).Success?)
  {
    match FirstFault(tasks)
    case Some(f) =>
      var k :| 0 <= k < |tasks| && tasks[k] == Faulted(f) && forall j :: 0 <= j < k ==> !tasks[j].Faulted?;
      assert forall i :: 0 <= i < |tasks| && tasks[i].Faulted? && (forall j :: 0 <= j < i ==> !tasks[j].Faulted?) ==> i == k;
      Failure(TaskFaulted(f))
    case None => SumInspected(tasks, inspect, 0)
  }

  /** `task.Result` of a settled task: a faulted or canceled task throws instead. */
  function ResultOf<T>(task: Settled<T>): Result<T, SaveError> {
    match task
    case Faulted(f) => Failure(TaskFaulted(f))
    case Canceled => Failure(ResultOfCanceledTask)
    case RanToCompletion(r) => Success(r)
  }

  /** The per-operation inspection: a failed status throws, any other status counts 1. */
  function InspectOperation(task: Settled<TableResult>): Result<int, SaveError> {
    match ResultOf(task)
    case Failure(e) => Failure(e)
    case Success(r) => if Failed(r) then Failure(DbUpdate(r)) else Success(1)
  }

  /** The per-batch inspection: the first failed result throws, otherwise the batch counts its results. */
  function InspectBatch(task: Settled<seq<TableResult>>): Result<int, SaveError> {
    match ResultOf(task)
    case Failure(e) => Failure(e)
    case Success(rs) =>
      match FirstFailed(rs)
      case Some(r) => Failure(DbUpdate(r))
      case None => Success(|rs|)
  }

  /**
   * `InspectResults`: the save counts one per task exactly when every task ran
   * to completion with a successful status; a faulted or canceled task, or a
   * failed status, always ends it with an exception.
   */
  function InspectResults(tasks: seq<Settled<TableResult>>): (r: Result<int, SaveError>)
    ensures r.Success? <==> forall i :: 0 <= i < |tasks| ==> tasks[i].RanToCompletion? && !Failed(tasks[i].result)
    ensures r.Success? ==> r.value == |tasks|
  {
    var r := CountTableResults(tasks, InspectOperation);
    if FirstFault(tasks).Some? then r
    else if r.Success? then
      assert forall t :: t in tasks ==> t.RanToCompletion?;
      OperationScan(tasks, 0);
      r
    else r
  }

  /**
   * `InspectBatchResults`: the save succeeds exactly when every batch task ran
   * to completion with no failed result, and it then counts every result of
   * every batch; anything else ends it with an exception.
   */
  function InspectBatchResults(tasks: seq<Settled<seq<TableResult>>>): (r: Result<int, SaveError>)
    ensures r.Success? <==> forall i :: 0 <= i < |tasks| ==>
              tasks[i].RanToCompletion? && forall k :: 0 <= k < |tasks[i].result| ==> !Failed(tasks[i].result[k])
    ensures r.Success? ==> (forall t :: t in tasks ==> t.RanToCompletion?) && r.value == |Items(tasks)|
  {
    var r := CountTableResults(tasks, InspectBatch);
    if FirstFault(tasks).Some? then r
    else if r.Success? then
      assert forall t :: t in tasks ==> t.RanToCompletion?;
      BatchScan(tasks, 0);
      r
    else r
  }

  // ---------------------------------------------------------------------------
  // Properties
  // ---------------------------------------------------------------------------

  /** Every completed task's results, flattened in task order. */
  function Items(tasks: seq<Settled<seq<TableResult>>>): seq<TableResult>
    requires forall t :: t in tasks ==> t.RanToCompletion?
  {
    if tasks == [] then [] else tasks[0].result + Items(tasks[1..])
  }

  /** Every completed task's result, in task order. */
  function Results(tasks: seq<Settled<TableResult>>): (rs: seq<TableResult>)
    requires forall t :: t in tasks ==> t.RanToCompletion?
    ensures |rs| == |tasks| && forall i :: 0 <= i < |tasks| ==> rs[i] == tasks[i].result
  {
    if tasks == [] then [] else [tasks[0].result] + Results(tasks[1..])
  }

  /** The outcome of scanning `items` in order: the first failed one throws, otherwise `acc` plus their number. */
  ghost predicate ScanOutcome(items: seq<TableResult>, acc: int, r: Result<int, SaveError>) {
    && (r.Failure? <==> exists k :: 0 <= k < |items| && Failed(items[k]))
    && (r.Failure? ==> exists k :: 0 <= k < |items| && r == Failure(DbUpdate(items[k])) && Failed(items[k])
                                   && forall j :: 0 <= j < k ==> !Failed(items[j]))
    && (r.Success? ==> r.value == acc + |items|)
  }

  lemma ScanOutcomeAppend(head: seq<TableResult>, tail: seq<TableResult>, acc: int, r: Result<int, SaveError>)
    requires forall k :: 0 <= k < |head| ==> !Failed(head[k])
    requires ScanOutcome(tail, acc + |head|, r)
    ensures ScanOutcome(head + tail, acc, r)
  {
    var items := head + tail;
    assert forall k :: 0 <= k < |tail| ==> items[|head| + k] == tail[k];
    if r.Failure? {
      var k :| 0 <= k < |tail| && r == Failure(DbUpdate(tail[k])) && Failed(tail[k])
               && forall j :: 0 <= j < k ==> !Failed(tail[j]);
      assert items[|head| + k] == tail[k];
      forall j | 0 <= j < |head| + k ensures !Failed(items[j]) {
        if j >= |head| { assert items[j] == tail[j - |head|]; }
      }
    } else {
      forall k | 0 <= k < |items| ensures !Failed(items[k]) {
        if k >= |head| { assert items[k] == tail[k - |head|]; }
      }
    }
  }

  lemma {:induction false} BatchScan(tasks: seq<Settled<seq<TableResult>>>, acc: int)
    requires forall t :: t in tasks ==> t.RanToCompletion?
    ensures ScanOutcome(Items(tasks), acc, SumInspected(tasks, InspectBatch, acc))
  {
    if tasks != [] {
      var rs := tasks[0].result;
      assert Items(tasks) == rs + Items(tasks[1..]);
      match FirstFailed(rs)
      case Some(f) =>
        var k :| 0 <= k < |rs| && rs[k] == f && Failed(f) && forall j :: 0 <= j < k ==> !Failed(rs[j]);
        assert Items(tasks)[k] == rs[k];
        assert forall j :: 0 <= j < k ==> Items(tasks)[j] == rs[j];
      case None =>
        BatchScan(tasks[1..], acc + |rs|);
        ScanOutcomeAppend(rs, Items(tasks[1..]), acc, SumInspected(tasks, InspectBatch, acc));
    }
  }

  lemma {:induction false} OperationScan(tasks: seq<Settled<TableResult>>, acc: int)
    requires forall t :: t in tasks ==> t.RanToCompletion?
    ensures ScanOutcome(Results(tasks), acc, SumInspected(tasks, InspectOperation, acc))
  {
    if tasks != [] {
      var r := tasks[0].result;
      var sum := SumInspected(tasks, InspectOperation, acc);
      assert Results(tasks) == [r] + Results(tasks[1..]);
      if !Failed(r) {
        assert sum == SumInspected(tasks[1..], InspectOperation, acc + 1);
        OperationScan(tasks[1..], acc + 1);
        ScanOutcomeAppend([r], Results(tasks[1..]), acc, sum);
      } else {
        assert sum == Failure(DbUpdate(r));
      }
    }
  }

  /**
   * When every batch task completed, `InspectBatchResults` throws
   * `DbUpdateException` for the first failed result in task order and, within
   * a batch, in result order; otherwise it returns the total number of results.
   */
  lemma BatchResultsCount(tasks: seq<Settled<seq<TableResult>>>)
    requires forall t :: t in tasks ==> t.RanToCompletion?
    ensures ScanOutcome(Items(tasks), 0, InspectBatchResults(tasks))
  {
    assert forall i :: 0 <= i < |tasks| ==> tasks[i] in tasks;
    BatchScan(tasks, 0);
  }

  /**
   * When every operation task completed, `InspectResults` throws
   * `DbUpdateException` for the first failed result in task order and
   * otherwise counts one per task.
   */
  lemma OperationResultsCount(tasks: seq<Settled<TableResult>>)
    requires forall t :: t in tasks ==> t.RanToCompletion?
    ensures ScanOutcome(Results(tasks), 0, InspectResults(tasks))
    ensures InspectResults(tasks).Success? ==> InspectResults(tasks).value == |tasks|
  {
    assert forall i :: 0 <= i < |tasks| ==> tasks[i] in tasks;
    OperationScan(tasks, 0);
  }

  /** The store's unit-test scenarios for `InspectBatchResults`. */
  lemma BatchInspectionExamples()
    ensures var good, bad := TableResult(200), TableResult(400);
      && InspectBatchResults([RanToCompletion([good, good]), RanToCompletion([good, good])]) == Success(4)
      && InspectBatchResults([RanToCompletion([good, good]), RanToCompletion([good, bad, good])]) == Failure(DbUpdate(bad))
      && InspectBatchResults([Faulted(TaskFault(""))]) == Failure(TaskFaulted(TaskFault("")))
  {
    CountedBatchesExample();
    FailingBatchesExample();
  }

  lemma CountedBatchesExample()
    ensures InspectBatchResults([RanToCompletion([TableResult(200), TableResult(200)]),
                                 RanToCompletion([TableResult(200), TableResult(200)])]) == Success(4)
  {
    var good := TableResult(200);
    var counted := [RanToCompletion([good, good]), RanToCompletion([good, good])];
    assert counted[1..] == [counted[1]] && Items([counted[1]]) == [good, good];
    assert Items(counted) == [good, good, good, good];
    assert !Failed(good);
  }

  lemma FailingBatchesExample()
    ensures InspectBatchResults([RanToCompletion([TableResult(200), TableResult(200)]),
                                 RanToCompletion([TableResult(200), TableResult(400), TableResult(200)])])
         == Failure(DbUpdate(TableResult(400)))
  {
    var good, bad := TableResult(200), TableResult(400);
    var failing := [RanToCompletion([good, good]), RanToCompletion([good, bad, good])];
    var r := InspectBatchResults(failing);
    BatchResultsCount(failing);
    assert ScanOutcome(Items(failing), 0, r);
    var items := Items(failing);
    assert items == [good, good, good, bad, good] by {
      assert failing[1..] == [failing[1]] && Items([failing[1]]) == [good, bad, good];
    }
    assert Failed(items[3]);
    assert forall k :: 0 <= k < 5 && Failed(items[k]) ==> items[k] == bad;
    assert r.Failure?;
  }

  /** The store's unit-test scenarios for `InspectResults`. */
  lemma OperationInspectionExamples()
    ensures var good, bad := TableResult(200), TableResult(400);
      && InspectResults([RanToCompletion(good), RanToCompletion(good)]) == Success(2)
      && InspectResults([Faulted(TaskFault(""))]) == Failure(TaskFaulted(TaskFault("")))
      && InspectResults([RanToCompletion(good), RanToCompletion(bad), RanToCompletion(good)]) == Failure(DbUpdate(bad))
  {
    var good, bad := TableResult(200), TableResult(400);
    var single := [RanToCompletion(good), RanToCompletion(bad), RanToCompletion(good)];
    OperationResultsCount(single);
    assert Results(single) == [good, bad, good];
  }
}
