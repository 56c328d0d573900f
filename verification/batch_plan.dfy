/**
 * The batch path of the table-storage data store (`SaveBatchChangesAsync`) as a
 * pure specification: which batches it starts, in which order, for a given
 * cancellation oracle, and an independent reference (greedy packing of each
 * partition's operations into batches of at most 100) that it is proved
 * against.
 */
module BatchPlan {
  import opened Wrappers
  import opened Linq
  import opened TableEntities
  import opened Cancellation

  /** The Azure Table service's limit on the operations of one entity-group transaction. */
  const MaxBatchOperations: nat := 100

  /** One `ExecuteBatchAsync` call: the batch and the table and partition it was built for. */
  datatype BatchSubmission = BatchSubmission(entityType: EntityType, partitionKey: string, operations: seq<TableOperation>)

  /** The batches started so far and the number of polls of the token so far. */
  datatype Progress = Progress(started: seq<BatchSubmission>, checks: nat)

  /** State after the loop over one partition's operations. */
  datatype Drained = Drained(progress: Progress, batch: seq<TableOperation>, stopped: bool)

  /** State after one partition: `stopped` when the loop over partitions breaks. */
  datatype PartitionRun = PartitionRun(progress: Progress, stopped: bool)

  /** Outcome of planning: completed, or the null dereference of a non-table entity's partition key. */
  datatype Plan = Planned(progress: Progress) | NullReference(progress: Progress)

  function Flush(et: EntityType, pk: string, batch: seq<TableOperation>): seq<BatchSubmission> {
    if batch == [] then [] else [BatchSubmission(et, pk, batch)]
  }

  /**
   * The loop over a partition's non-null operations: poll the token, stop if
   * cancellation is seen, otherwise add the operation and start the batch once
   * it holds `MaxBatchOperations` operations.
   */
  function DrainOps(ops: seq<TableOperation>, et: EntityType, pk: string, batch: seq<TableOperation>,
                    p: Progress, signal: Signal): Drained
    decreases |ops|
  {
    if ops == [] then Drained(p, batch, false)
    else if Requested(signal, p.checks) then Drained(Progress(p.started, p.checks + 1), batch, true)
    else
      var b := batch + [ops[0]];
      if |b| >= MaxBatchOperations then
        DrainOps(ops[1..], et, pk, [], Progress(p.started + [BatchSubmission(et, pk, b)], p.checks + 1), signal)
      else
        DrainOps(ops[1..], et, pk, b, Progress(p.started, p.checks + 1), signal)
  }

  /** One partition group: drain its operations, poll again, then start the partial batch unless cancelled. */
  function RunPartition(part: seq<StateEntry>, et: EntityType, pk: string, p: Progress, signal: Signal): PartitionRun {
    var d := DrainOps(NonNullOps(part), et, pk, [], p, signal);
    if Requested(signal, d.progress.checks) then
      PartitionRun(Progress(d.progress.started, d.progress.checks + 1), true)
    else
      PartitionRun(Progress(d.progress.started + Flush(et, pk, d.batch), d.progress.checks + 1), false)
  }

  /** The loop over the partition groups of one table group; it breaks when a partition saw cancellation. */
  function RunPartitions(parts: seq<(string, seq<StateEntry>)>, et: EntityType, p: Progress, signal: Signal): Progress {
    if parts == [] then p
    else
      var r := RunPartition(parts[0].1, et, parts[0].0, p, signal);
      if r.stopped then r.progress else RunPartitions(parts[1..], et, r.progress, signal)
  }

  predicate HasNonTableEntry(entries: seq<StateEntry>) {
    exists e :: e in entries && !IsTableEntry(e)
  }

  /**
   * The loop over table groups. Grouping a table group by partition key reads
   * the partition key of every entry first, so a non-table entry faults before
   * any of its partitions is visited. The loop has no cancellation check of
   * its own: it goes on to the next table group after a cancelled one.
   */
  function RunTables(groups: seq<(EntityType, seq<StateEntry>)>, p: Progress, signal: Signal): Plan {
    if groups == [] then Planned(p)
    else if HasNonTableEntry(groups[0].1) then NullReference(p)
    else RunTables(groups[1..], RunPartitions(GroupBy(groups[0].1, PartitionKeyOf), groups[0].0, p, signal), signal)
  }

  /** The batches `SaveBatchChangesAsync` starts, for a token that has been polled `checks` times before. */
  function PlanBatches(entries: seq<StateEntry>, signal: Signal, checks: nat): Plan {
    RunTables(GroupBy(entries, EntityTypeOf), Progress([], checks), signal)
  }

  // ---------------------------------------------------------------------------
  // The reference: greedy packing per partition, partitions and tables in
  // GroupBy order.
  // ---------------------------------------------------------------------------

  /** Greedy fixed-capacity packing: full batches of `MaxBatchOperations`, then the rest. */
  function Chunks<T>(s: seq<T>): seq<seq<T>>
    decreases |s|
  {
    if s == [] then []
    else if |s| <= MaxBatchOperations then [s]
    else [s[..MaxBatchOperations]] + Chunks(s[MaxBatchOperations..])
  }

  /**
   * Greedy packing loses and reorders nothing, every batch holds between 1 and
   * `MaxBatchOperations` elements, every batch but the last is full, and
   * there are ceil(n / MaxBatchOperations) of them; in particular an empty
   * input gives no batch.
   */
  lemma {:induction false} ChunksSpec<T>(s: seq<T>)
    ensures Concat(Chunks(s)) == s
    ensures forall c :: c in Chunks(s) ==> 0 < |c| <= MaxBatchOperations
    ensures forall i :: 0 <= i < |Chunks(s)| - 1 ==> |Chunks(s)[i]| == MaxBatchOperations
    ensures |Chunks(s)| == (|s| + MaxBatchOperations - 1) / MaxBatchOperations
    decreases |s|
  {
    if |s| > MaxBatchOperations {
      var head, tail := s[..MaxBatchOperations], s[MaxBatchOperations..];
      ChunksSpec(tail);
      assert s == head + tail;
      assert Concat(Chunks(s)) == head + Concat(Chunks(tail));
      assert forall i :: 0 < i < |Chunks(s)| ==> Chunks(s)[i] == Chunks(tail)[i - 1];
    }
  }

  function TagBatches(et: EntityType, pk: string, chunks: seq<seq<TableOperation>>): (bs: seq<BatchSubmission>)
    ensures |bs| == |chunks|
    ensures forall i :: 0 <= i < |bs| ==> bs[i] == BatchSubmission(et, pk, chunks[i])
  {
    if chunks == [] then [] else [BatchSubmission(et, pk, chunks[0])] + TagBatches(et, pk, chunks[1..])
  }

  function PartitionBatches(et: EntityType, pk: string, part: seq<StateEntry>): seq<BatchSubmission> {
    TagBatches(et, pk, Chunks(NonNullOps(part)))
  }

  function TableBatches(et: EntityType, parts: seq<(string, seq<StateEntry>)>): seq<BatchSubmission> {
    if parts == [] then [] else PartitionBatches(et, parts[0].0, parts[0].1) + TableBatches(et, parts[1..])
  }

  function ReferenceTables(groups: seq<(EntityType, seq<StateEntry>)>): seq<BatchSubmission> {
    if groups == [] then []
    else TableBatches(groups[0].0, GroupBy(groups[0].1, PartitionKeyOf)) + ReferenceTables(groups[1..])
  }

  /** Every partition's non-null operations packed greedily, partition after partition, table after table. */
  function ReferencePlan(entries: seq<StateEntry>): seq<BatchSubmission> {
    ReferenceTables(GroupBy(entries, EntityTypeOf))
  }
}
