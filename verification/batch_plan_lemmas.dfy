/**
 * What the batch path promises: without cancellation it starts exactly the
 * reference batches; with cancellation it starts a prefix of them and nothing
 * after the first poll that sees cancellation; every started batch holds 1 to
 * 100 operations of one table and one partition.
 */
module BatchPlanLemmas {
  import opened Wrappers
  import opened Linq
  import opened TableEntities
  import opened Cancellation
  import opened BatchPlan

  // ---------------------------------------------------------------------------
  // Greedy packing
  // ---------------------------------------------------------------------------

  lemma {:induction false} TagBatchesAppend(et: EntityType, pk: string, a: seq<seq<TableOperation>>, b: seq<seq<TableOperation>>)
    ensures TagBatches(et, pk, a + b) == TagBatches(et, pk, a) + TagBatches(et, pk, b)
  {
    var l, r := TagBatches(et, pk, a + b), TagBatches(et, pk, a) + TagBatches(et, pk, b);
    assert |l| == |r|;
    forall i | 0 <= i < |l| ensures l[i] == r[i] {
      if i < |a| { assert (a + b)[i] == a[i]; } else { assert (a + b)[i] == b[i - |a|]; }
    }
  }

  /** A full batch is the first chunk. */
  lemma ChunksAfterFull(b: seq<TableOperation>, rest: seq<TableOperation>)
    requires |b| == MaxBatchOperations
    ensures Chunks(b + rest) == [b] + Chunks(rest)
  {
    var s := b + rest;
    if rest == [] {
      assert s == b;
    } else {
      assert |s| > MaxBatchOperations;
      assert s[..MaxBatchOperations] == b;
      assert s[MaxBatchOperations..] == rest;
      assert Chunks(s) == [s[..MaxBatchOperations]] + Chunks(s[MaxBatchOperations..]);
    }
  }

  /** A batch below the limit is a single chunk, or none when empty. */
  lemma ChunksOfPartial(et: EntityType, pk: string, b: seq<TableOperation>)
    requires |b| < MaxBatchOperations
    ensures TagBatches(et, pk, Chunks(b)) == Flush(et, pk, b)
  {
  }

  /** Starting a full batch and packing the rest is packing everything. */
  lemma StartFullBatch(et: EntityType, pk: string, started: seq<BatchSubmission>, b: seq<TableOperation>, rest: seq<TableOperation>)
    requires |b| == MaxBatchOperations
    ensures (started + [BatchSubmission(et, pk, b)]) + TagBatches(et, pk, Chunks(rest))
         == started + TagBatches(et, pk, Chunks(b + rest))
  {
    ChunksAfterFull(b, rest);
    TagBatchesAppend(et, pk, [b], Chunks(rest));
    assert TagBatches(et, pk, [b]) == [BatchSubmission(et, pk, b)];
  }

  /** Without cancellation the operation loop starts the full chunks and keeps the last partial one. */
  lemma {:induction false} DrainNever(ops: seq<TableOperation>, et: EntityType, pk: string, batch: seq<TableOperation>, p: Progress)
    requires |batch| < MaxBatchOperations
    ensures var d := DrainOps(ops, et, pk, batch, p, Never);
      && !d.stopped
      && d.progress.checks == p.checks + |ops|
      && d.progress.started + Flush(et, pk, d.batch) == p.started + TagBatches(et, pk, Chunks(batch + ops))
    decreases |ops|
  {
    if ops == [] {
      assert batch + ops == batch;
      ChunksOfPartial(et, pk, batch);
    } else {
      var b := batch + [ops[0]];
      var rest := ops[1..];
      assert b + rest == batch + ops;
      if |b| >= MaxBatchOperations {
        var p' := Progress(p.started + [BatchSubmission(et, pk, b)], p.checks + 1);
        DrainNever(rest, et, pk, [], p');
        assert [] + rest == rest;
        StartFullBatch(et, pk, p.started, b, rest);
      } else {
        DrainNever(rest, et, pk, b, Progress(p.started, p.checks + 1));
      }
    }
  }

  /**
   * With cancellation the operation loop either runs as without it, or stops at
   * a poll that sees cancellation, having started a prefix of what it would
   * have started.
   */
  lemma {:induction false} DrainCancelled(ops: seq<TableOperation>, et: EntityType, pk: string, batch: seq<TableOperation>,
                                          p: Progress, signal: Signal)
    requires |batch| < MaxBatchOperations
    ensures var d := DrainOps(ops, et, pk, batch, p, signal);
            var n := DrainOps(ops, et, pk, batch, p, Never);
      || d == n
      || (d.stopped && Requested(signal, d.progress.checks)
          && d.progress.started <= n.progress.started + Flush(et, pk, n.batch))
    decreases |ops|
  {
    if ops != [] {
      var b := batch + [ops[0]];
      if Requested(signal, p.checks) {
        DrainNever(ops, et, pk, batch, p);
      } else if |b| >= MaxBatchOperations {
        DrainCancelled(ops[1..], et, pk, [], Progress(p.started + [BatchSubmission(et, pk, b)], p.checks + 1), signal);
      } else {
        DrainCancelled(ops[1..], et, pk, b, Progress(p.started, p.checks + 1), signal);
      }
    }
  }

  /** The operation loop starts only full batches and leaves fewer than `MaxBatchOperations` operations pending. */
  lemma {:induction false} DrainStartsFullBatches(ops: seq<TableOperation>, et: EntityType, pk: string, batch: seq<TableOperation>,
                                                  p: Progress, signal: Signal)
    requires |batch| < MaxBatchOperations
    ensures var d := DrainOps(ops, et, pk, batch, p, signal);
      && p.started <= d.progress.started
      && |d.batch| < MaxBatchOperations
      && forall i :: |p.started| <= i < |d.progress.started| ==> |d.progress.started[i].operations| == MaxBatchOperations
    decreases |ops|
  {
    if ops != [] && !Requested(signal, p.checks) {
      var b := batch + [ops[0]];
      if |b| >= MaxBatchOperations {
        var q := Progress(p.started + [BatchSubmission(et, pk, b)], p.checks + 1);
        DrainStartsFullBatches(ops[1..], et, pk, [], q, signal);
        var d := DrainOps(ops[1..], et, pk, [], q, signal);
        assert d.progress.started[..|p.started|] == q.started[..|p.started|];
        assert d.progress.started[|p.started|] == q.started[|p.started|];
      } else {
        DrainStartsFullBatches(ops[1..], et, pk, b, Progress(p.started, p.checks + 1), signal);
      }
    }
  }

  /** Once cancellation is seen, the operation loop adds nothing and starts nothing. */
  lemma DrainQuiet(ops: seq<TableOperation>, et: EntityType, pk: string, batch: seq<TableOperation>, p: Progress, signal: Signal)
    requires Requested(signal, p.checks)
    ensures var d := DrainOps(ops, et, pk, batch, p, signal);
      d.progress.started == p.started && d.progress.checks >= p.checks && d.batch == batch
  {
  }

  // ---------------------------------------------------------------------------
  // One partition, the partitions of one table
  // ---------------------------------------------------------------------------

  lemma PartitionNever(part: seq<StateEntry>, et: EntityType, pk: string, p: Progress)
    ensures var r := RunPartition(part, et, pk, p, Never);
      !r.stopped && r.progress.started == p.started + PartitionBatches(et, pk, part)
  {
    DrainNever(NonNullOps(part), et, pk, [], p);
    assert [] + NonNullOps(part) == NonNullOps(part);
  }

  lemma PartitionCancelled(part: seq<StateEntry>, et: EntityType, pk: string, p: Progress, signal: Signal)
    ensures var r := RunPartition(part, et, pk, p, signal);
            var n := RunPartition(part, et, pk, p, Never);
      || r == n
      || (r.stopped && Requested(signal, r.progress.checks) && r.progress.started <= n.progress.started)
  {
    DrainCancelled(NonNullOps(part), et, pk, [], p, signal);
  }

  /**
   * A partition that sees cancellation, in its operation loop or at the poll
   * after it, drops its partially filled batch: every batch it started is full.
   */
  lemma PartitionStopsWithFullBatches(part: seq<StateEntry>, et: EntityType, pk: string, p: Progress, signal: Signal)
    ensures var r := RunPartition(part, et, pk, p, signal);
      r.stopped ==>
        && p.started <= r.progress.started
        && forall i :: |p.started| <= i < |r.progress.started| ==> |r.progress.started[i].operations| == MaxBatchOperations
  {
    DrainStartsFullBatches(NonNullOps(part), et, pk, [], p, signal);
  }

  /**
   * The operation loop ran to its end and only the poll after it sees
   * cancellation: the partition stops, and it starts what the uncancelled run
   * starts less the pending batch, which is dropped rather than started.
   */
  lemma LatePollDropsPartialBatch(part: seq<StateEntry>, et: EntityType, pk: string, p: Progress, signal: Signal)
    requires var d := DrainOps(NonNullOps(part), et, pk, [], p, signal);
      !d.stopped && Requested(signal, d.progress.checks)
    ensures var d := DrainOps(NonNullOps(part), et, pk, [], p, signal);
            var r := RunPartition(part, et, pk, p, signal);
      && r.stopped
      && r.progress.started == d.progress.started
      && r.progress.started + Flush(et, pk, d.batch) == RunPartition(part, et, pk, p, Never).progress.started
  {
    DrainCancelled(NonNullOps(part), et, pk, [], p, signal);
  }

  lemma PartitionQuiet(part: seq<StateEntry>, et: EntityType, pk: string, p: Progress, signal: Signal)
    requires Requested(signal, p.checks)
    ensures var r := RunPartition(part, et, pk, p, signal);
      r.stopped && r.progress.started == p.started && r.progress.checks >= p.checks
  {
    DrainQuiet(NonNullOps(part), et, pk, [], p, signal);
  }

  lemma {:induction false} PartitionsNever(parts: seq<(string, seq<StateEntry>)>, et: EntityType, p: Progress)
    ensures RunPartitions(parts, et, p, Never).started == p.started + TableBatches(et, parts)
  {
    if parts != [] {
      PartitionNever(parts[0].1, et, parts[0].0, p);
      var r := RunPartition(parts[0].1, et, parts[0].0, p, Never);
      PartitionsNever(parts[1..], et, r.progress);
    }
  }

  lemma {:induction false} PartitionsCancelled(parts: seq<(string, seq<StateEntry>)>, et: EntityType, p: Progress, signal: Signal)
    ensures var q := RunPartitions(parts, et, p, signal);
            var n := RunPartitions(parts, et, p, Never);
      q == n || (Requested(signal, q.checks) && q.started <= n.started)
  {
    if parts != [] {
      PartitionCancelled(parts[0].1, et, parts[0].0, p, signal);
      PartitionNever(parts[0].1, et, parts[0].0, p);
      var r := RunPartition(parts[0].1, et, parts[0].0, p, signal);
      var rn := RunPartition(parts[0].1, et, parts[0].0, p, Never);
      if r == rn {
        PartitionsCancelled(parts[1..], et, r.progress, signal);
      } else {
        PartitionsNever(parts[1..], et, rn.progress);
      }
    }
  }

  lemma PartitionsQuiet(parts: seq<(string, seq<StateEntry>)>, et: EntityType, p: Progress, signal: Signal)
    requires Requested(signal, p.checks)
    ensures var q := RunPartitions(parts, et, p, signal);
      q.started == p.started && q.checks >= p.checks
  {
    if parts != [] {
      PartitionQuiet(parts[0].1, et, parts[0].0, p, signal);
    }
  }

  // ---------------------------------------------------------------------------
  // The table loop
  // ---------------------------------------------------------------------------

  predicate AnyNonTableEntry(groups: seq<(EntityType, seq<StateEntry>)>) {
    exists i :: 0 <= i < |groups| && HasNonTableEntry(groups[i].1)
  }

  lemma AnyNonTableEntryTail(groups: seq<(EntityType, seq<StateEntry>)>)
    requires groups != []
    ensures AnyNonTableEntry(groups) <==> HasNonTableEntry(groups[0].1) || AnyNonTableEntry(groups[1..])
  {
    if AnyNonTableEntry(groups) {
      var i :| 0 <= i < |groups| && HasNonTableEntry(groups[i].1);
      if i != 0 {
        assert HasNonTableEntry(groups[1..][i - 1].1);
      }
    }
    if AnyNonTableEntry(groups[1..]) {
      var i :| 0 <= i < |groups[1..]| && HasNonTableEntry(groups[1..][i].1);
      assert HasNonTableEntry(groups[i + 1].1);
    }
    if HasNonTableEntry(groups[0].1) {
      assert 0 < |groups|;
    }
  }

  /** Without cancellation the table loop starts the reference batches, up to the first faulting table. */
  lemma {:induction false} TablesNever(groups: seq<(EntityType, seq<StateEntry>)>, p: Progress)
    ensures var t := RunTables(groups, p, Never);
      && p.started <= t.progress.started
      && t.progress.started <= p.started + ReferenceTables(groups)
      && (!AnyNonTableEntry(groups) ==> t.Planned? && t.progress.started == p.started + ReferenceTables(groups))
  {
    if groups != [] {
      AnyNonTableEntryTail(groups);
      if !HasNonTableEntry(groups[0].1) {
        var et, parts := groups[0].0, GroupBy(groups[0].1, PartitionKeyOf);
        PartitionsNever(parts, et, p);
        var q := RunPartitions(parts, et, p, Never);
        assert RunTables(groups, p, Never) == RunTables(groups[1..], q, Never);
        TablesNever(groups[1..], q);
        var t := RunTables(groups[1..], q, Never);
        var tb, rest := TableBatches(et, parts), ReferenceTables(groups[1..]);
        assert p.started + ReferenceTables(groups) == q.started + rest by {
          var whole, split := p.started + ReferenceTables(groups), q.started + rest;
          assert ReferenceTables(groups) == tb + rest;
          forall i | 0 <= i < |split| ensures whole[i] == split[i] {}
        }
        assert t.progress.started[..|p.started|] == q.started[..|p.started|];
      }
    }
  }

  /** Once cancellation is seen, the table loop starts nothing more, though it goes on visiting tables. */
  lemma {:induction false} TablesQuiet(groups: seq<(EntityType, seq<StateEntry>)>, p: Progress, signal: Signal)
    requires Requested(signal, p.checks)
    ensures RunTables(groups, p, signal).progress.started == p.started
  {
    if groups != [] && !HasNonTableEntry(groups[0].1) {
      var parts := GroupBy(groups[0].1, PartitionKeyOf);
      PartitionsQuiet(parts, groups[0].0, p, signal);
      TablesQuiet(groups[1..], RunPartitions(parts, groups[0].0, p, signal), signal);
    }
  }

  /** Whether the table loop faults does not depend on the progress or the token. */
  lemma {:induction false} TablesFault(groups: seq<(EntityType, seq<StateEntry>)>, p: Progress, signal: Signal)
    ensures RunTables(groups, p, signal).NullReference? <==> AnyNonTableEntry(groups)
  {
    if groups != [] {
      AnyNonTableEntryTail(groups);
      if !HasNonTableEntry(groups[0].1) {
        var parts := GroupBy(groups[0].1, PartitionKeyOf);
        TablesFault(groups[1..], RunPartitions(parts, groups[0].0, p, signal), signal);
      }
    }
  }

  /**
   * A cancelled run of the table loop, from a state that is the uncancelled
   * run's state or has seen cancellation and started a prefix of it, starts a
   * prefix of what the uncancelled run starts.
   */
  lemma {:induction false} TablesCancelled(groups: seq<(EntityType, seq<StateEntry>)>, pc: Progress, pn: Progress, signal: Signal)
    requires pc == pn || (Requested(signal, pc.checks) && pc.started <= pn.started)
    ensures RunTables(groups, pc, signal).progress.started <= RunTables(groups, pn, Never).progress.started
  {
    if pc != pn {
      TablesQuiet(groups, pc, signal);
      TablesNever(groups, pn);
    } else if groups != [] && !HasNonTableEntry(groups[0].1) {
      var parts := GroupBy(groups[0].1, PartitionKeyOf);
      PartitionsCancelled(parts, groups[0].0, pc, signal);
      TablesCancelled(groups[1..], RunPartitions(parts, groups[0].0, pc, signal),
                      RunPartitions(parts, groups[0].0, pn, Never), signal);
    }
  }

  // ---------------------------------------------------------------------------
  // The batch path as a whole
  // ---------------------------------------------------------------------------

  lemma NonTableEntryInSomeGroup(entries: seq<StateEntry>)
    ensures AnyNonTableEntry(GroupBy(entries, EntityTypeOf)) <==> HasNonTableEntry(entries)
  {
    if HasNonTableEntry(entries) {
      NonTableEntryGrouped(entries);
    }
    if AnyNonTableEntry(GroupBy(entries, EntityTypeOf)) {
      NonTableGroupHasEntry(entries);
    }
  }

  lemma NonTableEntryGrouped(entries: seq<StateEntry>)
    requires HasNonTableEntry(entries)
    ensures AnyNonTableEntry(GroupBy(entries, EntityTypeOf))
  {
    var gs := GroupBy(entries, EntityTypeOf);
    var ks := Keys(entries, EntityTypeOf);
    var e :| e in entries && !IsTableEntry(e);
    var i :| 0 <= i < |ks| && ks[i] == e.entityType;
    assert e in gs[i].1;
  }

  lemma NonTableGroupHasEntry(entries: seq<StateEntry>)
    requires AnyNonTableEntry(GroupBy(entries, EntityTypeOf))
    ensures HasNonTableEntry(entries)
  {
    var gs := GroupBy(entries, EntityTypeOf);
    var i :| 0 <= i < |gs| && HasNonTableEntry(gs[i].1);
    var e :| e in gs[i].1 && !IsTableEntry(e);
    GroupMember(entries, EntityTypeOf, i, e);
  }

  /**
   * The batch path faults with a null dereference exactly when some entry is
   * not a table entity, whether or not cancellation is requested; the entries
   * that `GetOperation` would skip are not skipped here.
   */
  lemma PlanFaultsIffNonTableEntry(entries: seq<StateEntry>, signal: Signal, checks: nat)
    ensures PlanBatches(entries, signal, checks).NullReference? <==> HasNonTableEntry(entries)
  {
    TablesFault(GroupBy(entries, EntityTypeOf), Progress([], checks), signal);
    NonTableEntryInSomeGroup(entries);
  }

  /** Without cancellation and with table entities only, the batch path starts exactly the reference batches. */
  lemma PlanWithoutCancellation(entries: seq<StateEntry>, checks: nat)
    requires !HasNonTableEntry(entries)
    ensures PlanBatches(entries, Never, checks).Planned?
    ensures PlanBatches(entries, Never, checks).progress.started == ReferencePlan(entries)
  {
    NonTableEntryInSomeGroup(entries);
    TablesNever(GroupBy(entries, EntityTypeOf), Progress([], checks));
  }

  /**
   * Cancellation only truncates: the batches started under any cancellation are
   * a prefix of those started without it, which are a prefix of the reference
   * batches. A partially filled batch is therefore never started early.
   */
  lemma CancellationOnlyTruncates(entries: seq<StateEntry>, signal: Signal, checks: nat)
    ensures PlanBatches(entries, signal, checks).progress.started <= PlanBatches(entries, Never, checks).progress.started
    ensures PlanBatches(entries, Never, checks).progress.started <= ReferencePlan(entries)
  {
    var gs := GroupBy(entries, EntityTypeOf);
    TablesCancelled(gs, Progress([], checks), Progress([], checks), signal);
    TablesNever(gs, Progress([], checks));
  }

  /** If the very first poll sees cancellation, no batch is started at all. */
  lemma CancelledBeforeStart(entries: seq<StateEntry>, signal: Signal, checks: nat)
    requires Requested(signal, checks)
    ensures PlanBatches(entries, signal, checks).progress.started == []
  {
    TablesQuiet(GroupBy(entries, EntityTypeOf), Progress([], checks), signal);
  }

  // ---------------------------------------------------------------------------
  // What every started batch looks like
  // ---------------------------------------------------------------------------

  /**
   * A batch the store may start: 1 to `MaxBatchOperations` operations, all on
   * entities of the batch's partition, each the operation of an entry of the
   * batch's entity type.
   */
  ghost predicate WellFormedBatch(entries: seq<StateEntry>, b: BatchSubmission) {
    && 0 < |b.operations| <= MaxBatchOperations
    && forall op :: op in b.operations ==>
         && op.entity.PartitionKey == b.partitionKey
         && exists e :: e in entries && e.entityType == b.entityType && OperationFor(e) == Some(op)
  }

  /** `part` holds entries of `entries` with entity type `et` and partition key `pk`. */
  ghost predicate PartitionOf(entries: seq<StateEntry>, et: EntityType, pk: string, part: seq<StateEntry>) {
    forall e :: e in part ==> e in entries && e.entityType == et && PartitionKeyOf(e) == pk
  }

  lemma PartitionBatchesWellFormed(entries: seq<StateEntry>, et: EntityType, pk: string, part: seq<StateEntry>)
    requires PartitionOf(entries, et, pk, part)
    ensures forall b :: b in PartitionBatches(et, pk, part) ==> WellFormedBatch(entries, b)
  {
    var ops := NonNullOps(part);
    var cs := Chunks(ops);
    ChunksSpec(ops);
    forall b | b in PartitionBatches(et, pk, part) ensures WellFormedBatch(entries, b) {
      var i :| 0 <= i < |cs| && TagBatches(et, pk, cs)[i] == b;
      assert b.operations == cs[i] && cs[i] in cs;
      forall op | op in b.operations
        ensures op.entity.PartitionKey == b.partitionKey
        ensures exists e :: e in entries && e.entityType == b.entityType && OperationFor(e) == Some(op)
      {
        InConcat(cs, cs[i], op);
        var e :| e in part && OperationFor(e) == Some(op);
        assert e in entries && e.entityType == b.entityType;
      }
    }
  }

  lemma {:induction false} TableBatchesWellFormed(entries: seq<StateEntry>, et: EntityType, parts: seq<(string, seq<StateEntry>)>)
    requires forall i :: 0 <= i < |parts| ==> PartitionOf(entries, et, parts[i].0, parts[i].1)
    ensures forall b :: b in TableBatches(et, parts) ==> WellFormedBatch(entries, b)
  {
    if parts != [] {
      PartitionBatchesWellFormed(entries, et, parts[0].0, parts[0].1);
      assert forall i :: 0 <= i < |parts[1..]| ==> parts[1..][i] == parts[i + 1];
      TableBatchesWellFormed(entries, et, parts[1..]);
    }
  }

  lemma {:induction false} ReferenceTablesWellFormed(entries: seq<StateEntry>, groups: seq<(EntityType, seq<StateEntry>)>)
    requires forall i, e :: 0 <= i < |groups| && e in groups[i].1 ==> e in entries && e.entityType == groups[i].0
    ensures forall b :: b in ReferenceTables(groups) ==> WellFormedBatch(entries, b)
  {
    if groups != [] {
      var et, g := groups[0].0, groups[0].1;
      var parts := GroupBy(g, PartitionKeyOf);
      forall i | 0 <= i < |parts| ensures PartitionOf(entries, et, parts[i].0, parts[i].1) {
        assert parts[i].1 == Where(g, PartitionKeyOf, parts[i].0);
      }
      TableBatchesWellFormed(entries, et, parts);
      forall i, e | 0 <= i < |groups[1..]| && e in groups[1..][i].1
        ensures e in entries && e.entityType == groups[1..][i].0
      {
        assert groups[1..][i] == groups[i + 1];
      }
      ReferenceTablesWellFormed(entries, groups[1..]);
    }
  }

  /** Every reference batch holds 1 to 100 operations of one table and one partition. */
  lemma ReferenceWellFormed(entries: seq<StateEntry>)
    ensures forall b :: b in ReferencePlan(entries) ==> WellFormedBatch(entries, b)
  {
    ReferenceTablesWellFormed(entries, GroupBy(entries, EntityTypeOf));
  }

  /**
   * Every batch the batch path starts, whatever the cancellation, holds between
   * 1 and 100 operations, all from one entity-type table and one partition key.
   */
  lemma StartedBatchesWellFormed(entries: seq<StateEntry>, signal: Signal, checks: nat)
    ensures forall b :: b in PlanBatches(entries, signal, checks).progress.started ==> WellFormedBatch(entries, b)
  {
    CancellationOnlyTruncates(entries, signal, checks);
    ReferenceWellFormed(entries);
    var started := PlanBatches(entries, signal, checks).progress.started;
    assert started <= ReferencePlan(entries);
    forall b | b in started ensures WellFormedBatch(entries, b) {
      var i :| 0 <= i < |started| && started[i] == b;
      assert ReferencePlan(entries)[i] == b;
    }
  }

  // ---------------------------------------------------------------------------
  // Each partition's batches
  // ---------------------------------------------------------------------------

  function BatchKey(b: BatchSubmission): (EntityType, string) {
    (b.entityType, b.partitionKey)
  }

  /** The batches among `bs` that were built for one table and one partition, in start order. */
  function BatchesFor(bs: seq<BatchSubmission>, et: EntityType, pk: string): seq<BatchSubmission> {
    Where(bs, BatchKey, (et, pk))
  }

  /** The entries of one table and one partition, in input order: one group of the nested GroupBy. */
  function PartitionEntries(entries: seq<StateEntry>, et: EntityType, pk: string): seq<StateEntry> {
    Where(Where(entries, EntityTypeOf, et), PartitionKeyOf, pk)
  }

  function OperationsOf(bs: seq<BatchSubmission>): seq<seq<TableOperation>> {
    if bs == [] then [] else [bs[0].operations] + OperationsOf(bs[1..])
  }

  lemma {:induction false} OperationsOfTagged(et: EntityType, pk: string, cs: seq<seq<TableOperation>>)
    ensures OperationsOf(TagBatches(et, pk, cs)) == cs
  {
    if cs != [] {
      OperationsOfTagged(et, pk, cs[1..]);
      assert TagBatches(et, pk, cs)[1..] == TagBatches(et, pk, cs[1..]);
    }
  }

  lemma PartitionBatchesKeyed(et: EntityType, pk: string, part: seq<StateEntry>)
    ensures forall b :: b in PartitionBatches(et, pk, part) ==> BatchKey(b) == (et, pk)
  {
  }

  lemma {:induction false} TableBatchesTagged(et: EntityType, parts: seq<(string, seq<StateEntry>)>)
    ensures forall b :: b in TableBatches(et, parts) ==> b.entityType == et
  {
    if parts != [] {
      PartitionBatchesKeyed(et, parts[0].0, parts[0].1);
      TableBatchesTagged(et, parts[1..]);
    }
  }

  lemma {:induction false} TableBatchesFor(et: EntityType, pk: string, g: seq<StateEntry>, ks: seq<string>)
    requires Distinct(ks)
    ensures Where(TableBatches(et, GroupsOf(ks, g, PartitionKeyOf)), BatchKey, (et, pk))
         == if pk in ks then PartitionBatches(et, pk, Where(g, PartitionKeyOf, pk)) else []
  {
    if ks != [] {
      TableBatchesForHead(et, pk, g, ks);
      assert Distinct(ks[1..]);
      TableBatchesFor(et, pk, g, ks[1..]);
      assert pk in ks <==> pk == ks[0] || pk in ks[1..];
      assert pk == ks[0] ==> pk !in ks[1..];
    }
  }

  /** The first partition group contributes its batches to partition `pk` exactly when its key is `pk`. */
  lemma TableBatchesForHead(et: EntityType, pk: string, g: seq<StateEntry>, ks: seq<string>)
    requires ks != []
    ensures Where(TableBatches(et, GroupsOf(ks, g, PartitionKeyOf)), BatchKey, (et, pk))
         == (if ks[0] == pk then PartitionBatches(et, pk, Where(g, PartitionKeyOf, pk)) else [])
            + Where(TableBatches(et, GroupsOf(ks[1..], g, PartitionKeyOf)), BatchKey, (et, pk))
  {
    var gs := GroupsOf(ks, g, PartitionKeyOf);
    var first := PartitionBatches(et, ks[0], Where(g, PartitionKeyOf, ks[0]));
    var rest := TableBatches(et, gs[1..]);
    assert gs[1..] == GroupsOf(ks[1..], g, PartitionKeyOf);
    assert TableBatches(et, gs) == first + rest;
    WhereAppend(first, rest, BatchKey, (et, pk));
    PartitionBatchesKeyed(et, ks[0], Where(g, PartitionKeyOf, ks[0]));
    if ks[0] == pk {
      WhereAll(first, BatchKey, (et, pk));
    } else {
      WhereNone(first, BatchKey, (et, pk));
    }
  }

  lemma {:induction false} ReferenceTablesFor(entries: seq<StateEntry>, et: EntityType, pk: string, ks: seq<EntityType>)
    requires Distinct(ks)
    ensures Where(ReferenceTables(GroupsOf(ks, entries, EntityTypeOf)), BatchKey, (et, pk))
         == if et in ks then Where(TableBatches(et, GroupBy(Where(entries, EntityTypeOf, et), PartitionKeyOf)), BatchKey, (et, pk))
            else []
  {
    if ks != [] {
      var gs := GroupsOf(ks, entries, EntityTypeOf);
      var first := TableBatches(ks[0], GroupBy(Where(entries, EntityTypeOf, ks[0]), PartitionKeyOf));
      assert gs[1..] == GroupsOf(ks[1..], entries, EntityTypeOf);
      assert ReferenceTables(gs) == first + ReferenceTables(gs[1..]);
      WhereAppend(first, ReferenceTables(gs[1..]), BatchKey, (et, pk));
      if ks[0] != et {
        TableBatchesTagged(ks[0], GroupBy(Where(entries, EntityTypeOf, ks[0]), PartitionKeyOf));
        WhereNone(first, BatchKey, (et, pk));
      }
      assert Distinct(ks[1..]);
      ReferenceTablesFor(entries, et, pk, ks[1..]);
      assert et in ks <==> et == ks[0] || et in ks[1..];
      assert et == ks[0] ==> et !in ks[1..];
    }
  }

  lemma EmptyPartitionNoBatches(et: EntityType, pk: string)
    ensures PartitionBatches(et, pk, []) == []
  {
  }

  /** The reference batches of one table and partition are the greedy packing of that partition's operations. */
  lemma ReferenceBatchesFor(entries: seq<StateEntry>, et: EntityType, pk: string)
    ensures BatchesFor(ReferencePlan(entries), et, pk) == PartitionBatches(et, pk, PartitionEntries(entries, et, pk))
  {
    var ks := Keys(entries, EntityTypeOf);
    ReferenceTablesFor(entries, et, pk, ks);
    var g := Where(entries, EntityTypeOf, et);
    if et in ks {
      var pks := Keys(g, PartitionKeyOf);
      TableBatchesFor(et, pk, g, pks);
      if pk !in pks {
        WhereNone(g, PartitionKeyOf, pk);
        EmptyPartitionNoBatches(et, pk);
      }
    } else {
      WhereNone(entries, EntityTypeOf, et);
      EmptyPartitionNoBatches(et, pk);
    }
  }

  /**
   * Without cancellation and with table entities only, each partition's batches,
   * concatenated in start order, are exactly its non-null operations in input
   * order, there are ceil(n / 100) of them, and a partition without non-null
   * operations starts none.
   */
  lemma PartitionReassembles(entries: seq<StateEntry>, et: EntityType, pk: string, checks: nat)
    requires !HasNonTableEntry(entries)
    ensures var bs := BatchesFor(PlanBatches(entries, Never, checks).progress.started, et, pk);
            var ops := NonNullOps(PartitionEntries(entries, et, pk));
      && Concat(OperationsOf(bs)) == ops
      && |bs| == (|ops| + MaxBatchOperations - 1) / MaxBatchOperations
      && (ops == [] ==> bs == [])
  {
    PlanWithoutCancellation(entries, checks);
    ReferenceBatchesFor(entries, et, pk);
    var ops := NonNullOps(PartitionEntries(entries, et, pk));
    OperationsOfTagged(et, pk, Chunks(ops));
    ChunksSpec(ops);
  }
}
