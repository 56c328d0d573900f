/**
 * The two write paths of the table-storage data store, as the loops the
 * source runs: `SaveBatchChangesAsync` (entity-group transactions of up to 100
 * operations per partition) and `SaveChangesAsync` (one operation per entry).
 * Each is proved to submit exactly what its specification function plans, to
 * poll the cancellation token as often as the plan says, to end with the
 * outcome of inspecting the settled submissions, and to change no entity but
 * by giving a deleted entity without ETag the wildcard ETag.
 *
 * The remote table is the `respond` parameter: the settled outcome of the
 * n-th submission. The asynchronous join (`ContinueWhenAll`) happens after
 * every submission is settled.
 */
module TableDataStore {
  import opened Wrappers
  import opened Linq
  import opened TableEntities
  import opened Cancellation
  import opened ResultInspection
  import BatchPlan
  import OperationPlan

  type BatchSubmission = BatchPlan.BatchSubmission
  type OperationSubmission = OperationPlan.OperationSubmission

  /** The settled task of each submission, in submission order. */
  function Settle<S, R>(submitted: seq<S>, respond: (nat, S) -> Settled<R>): seq<Settled<R>> {
    seq(|submitted|, i requires 0 <= i < |submitted| => respond(i, submitted[i]))
  }

  /** The entities of `part` are among `ents`, those of its Deleted entries among `deleted`. */
  ghost predicate EntitiesWithin(part: seq<StateEntry>, ents: set<TableEntity>, deleted: set<TableEntity>) {
    forall e :: e in part ==> EntityObjects(e) <= ents && (e.state == Deleted ==> EntityObjects(e) <= deleted)
  }

  /** The ETags of `ents` in the current state. */
  ghost function ETags(ents: set<TableEntity>): map<TableEntity, Option<string>>
    reads ents
  {
    map x | x in ents :: x.ETag
  }

  /** Since the snapshot `before`, the only ETag change has been a missing ETag of `deleted` becoming the wildcard. */
  ghost predicate WildcardsSince(before: map<TableEntity, Option<string>>, deleted: set<TableEntity>)
    reads before.Keys
  {
    forall x :: x in before ==>
      x.ETag == before[x] || (before[x] == None && x.ETag == Some(Wildcard) && x in deleted)
  }

  /** Between the snapshots `before` and `now`, the only change is a missing ETag of `deleted` becoming the wildcard. */
  ghost predicate Widened(before: map<TableEntity, Option<string>>, now: map<TableEntity, Option<string>>,
                          deleted: set<TableEntity>) {
    forall x :: x in before ==>
      x in now && (now[x] == before[x] || (before[x] == None && now[x] == Some(Wildcard) && x in deleted))
  }

  /** Taking a snapshot of `ents` where `WildcardsSince(before, deleted)` holds. */
  lemma Snapshot(before: map<TableEntity, Option<string>>, ents: set<TableEntity>, deleted: set<TableEntity>)
    requires before.Keys <= ents
    requires WildcardsSince(before, deleted)
    ensures Widened(before, ETags(ents), deleted)
  {
  }

  /** A `GetOperation` call on `entry`, made when the ETags were `pre`, keeps `WildcardsSince`. */
  lemma GetOperationKeepsWildcards(before: map<TableEntity, Option<string>>, pre: map<TableEntity, Option<string>>,
                                   deleted: set<TableEntity>, entry: StateEntry)
    requires Widened(before, pre, deleted)
    requires entry.state == Deleted ==> EntityObjects(entry) <= deleted
    requires forall x :: x in before && x !in EntityObjects(entry) ==> x.ETag == pre[x]
    requires IsTableEntry(entry) && entry.entity.entity in before ==>
      entry.entity.entity.ETag ==
        if entry.state == Deleted && pre[entry.entity.entity] == None then Some(Wildcard)
        else pre[entry.entity.entity]
    ensures WildcardsSince(before, deleted)
  {
  }

  /** A call that kept `WildcardsSince` for the snapshot `pre` taken before it keeps it for `before`. */
  lemma CallKeepsWildcards(before: map<TableEntity, Option<string>>, pre: map<TableEntity, Option<string>>,
                           deleted: set<TableEntity>)
    requires Widened(before, pre, deleted)
    requires WildcardsSince(pre, deleted)
    ensures WildcardsSince(before, deleted)
  {
  }

  /** Every group's entries have their entities among `ents`, and those of Deleted entries among `deleted`. */
  ghost predicate GroupsWithin<K>(groups: seq<(K, seq<StateEntry>)>, ents: set<TableEntity>, deleted: set<TableEntity>) {
    forall i :: 0 <= i < |groups| ==> EntitiesWithin(groups[i].1, ents, deleted)
  }

  lemma GroupByWithin<K>(entries: seq<StateEntry>, key: StateEntry -> K, ents: set<TableEntity>, deleted: set<TableEntity>)
    requires EntitiesWithin(entries, ents, deleted)
    ensures GroupsWithin(GroupBy(entries, key), ents, deleted)
  {
    var groups := GroupBy(entries, key);
    forall i, e | 0 <= i < |groups| && e in groups[i].1 ensures e in entries {
      GroupMember(entries, key, i, e);
    }
  }

  lemma EntitiesOfEntries(entries: seq<StateEntry>)
    ensures EntitiesWithin(entries, AllEntities(entries), DeletedEntities(entries))
  {
  }

  /** `GetOperation` on one entry, inside a loop that keeps `WildcardsSince(before, deleted)`. */
  method Visit(ghost ents: set<TableEntity>, ghost deleted: set<TableEntity>, ghost before: map<TableEntity, Option<string>>,
               entry: StateEntry)
    returns (op: Option<TableOperation>)
    requires before.Keys <= ents && WildcardsSince(before, deleted)
    requires EntityObjects(entry) <= ents && (entry.state == Deleted ==> EntityObjects(entry) <= deleted)
    modifies ents
    ensures op == OperationFor(entry)
    ensures WildcardsSince(before, deleted)
  {
    Snapshot(before, ents, deleted);
    ghost var pre := ETags(ents);
    op := GetOperation(entry);
    GetOperationKeepsWildcards(before, pre, deleted, entry);
  }

  /** One step of the loop over table groups of the per-operation path, as the plan takes it. */
  lemma SubmitGroupsStep(groups: seq<(EntityType, seq<StateEntry>)>, i: nat, p: OperationPlan.Submitted, signal: Signal)
    requires i < |groups|
    ensures var s := OperationPlan.SubmitGroup(groups[i].1, groups[i].0, p, signal);
      OperationPlan.SubmitGroups(groups[i..], p, signal)
      == if Requested(signal, s.checks) then OperationPlan.Submitted(s.submissions, s.checks + 1)
         else OperationPlan.SubmitGroups(groups[i + 1..], OperationPlan.Submitted(s.submissions, s.checks + 1), signal)
  {
    assert groups[i..][1..] == groups[i + 1..];
  }

  lemma NonNullOpsAt(part: seq<StateEntry>, k: nat)
    requires k < |part|
    ensures OperationFor(part[k]).None? ==> NonNullOps(part[k..]) == NonNullOps(part[k + 1..])
    ensures OperationFor(part[k]).Some? ==> NonNullOps(part[k..]) == [OperationFor(part[k]).value] + NonNullOps(part[k + 1..])
  {
    assert part[k..][1..] == part[k + 1..];
  }

  /** One step of the partition loop, as the plan takes it. */
  lemma DrainStep(op: TableOperation, rest: seq<TableOperation>, et: EntityType, pk: string,
                  batch: seq<TableOperation>, p: BatchPlan.Progress, signal: Signal)
    ensures Requested(signal, p.checks) ==>
      BatchPlan.DrainOps([op] + rest, et, pk, batch, p, signal)
      == BatchPlan.Drained(BatchPlan.Progress(p.started, p.checks + 1), batch, true)
    ensures !Requested(signal, p.checks) && |batch| + 1 >= BatchPlan.MaxBatchOperations ==>
      BatchPlan.DrainOps([op] + rest, et, pk, batch, p, signal)
      == BatchPlan.DrainOps(rest, et, pk, [], BatchPlan.Progress(p.started + [BatchPlan.BatchSubmission(et, pk, batch + [op])], p.checks + 1), signal)
    ensures !Requested(signal, p.checks) && |batch| + 1 < BatchPlan.MaxBatchOperations ==>
      BatchPlan.DrainOps([op] + rest, et, pk, batch, p, signal)
      == BatchPlan.DrainOps(rest, et, pk, batch + [op], BatchPlan.Progress(p.started, p.checks + 1), signal)
  {
    var ops := [op] + rest;
    assert ops != [] && ops[0] == op && ops[1..] == rest;
    assert |batch + [op]| == |batch| + 1;
  }

  // ---------------------------------------------------------------------------
  // SaveBatchChangesAsync
  // ---------------------------------------------------------------------------

  /**
   * The loop over one partition group's non-null operations: add each to the
   * batch, starting the batch whenever it is full, until cancellation is seen.
   */
  method DrainPartition(ghost ents: set<TableEntity>, ghost deleted: set<TableEntity>, part: seq<StateEntry>,
                        et: EntityType, pk: string,
                        token: CancellationToken, started0: seq<BatchSubmission>)
    returns (started: seq<BatchSubmission>, batch: seq<TableOperation>, ghost cancelled: bool)
    requires EntitiesWithin(part, ents, deleted)
    modifies token, ents
    ensures BatchPlan.DrainOps(NonNullOps(part), et, pk, [], BatchPlan.Progress(started0, old(token.checks)), token.signal)
         == BatchPlan.Drained(BatchPlan.Progress(started, token.checks), batch, cancelled)
    ensures WildcardsSince(old(ETags(ents)), deleted)
  {
    ghost var goal := BatchPlan.DrainOps(NonNullOps(part), et, pk, [], BatchPlan.Progress(started0, token.checks), token.signal);
    ghost var before := ETags(ents);
    batch := [];
    started := started0;
    cancelled := false;
    var k := 0;
    assert part[0..] == part;
    while k < |part|
      invariant 0 <= k <= |part|
      invariant BatchPlan.DrainOps(NonNullOps(part[k..]), et, pk, batch, BatchPlan.Progress(started, token.checks), token.signal) == goal
      invariant WildcardsSince(before, deleted)
    {
      assert part[k] in part;
      var stop;
      started, batch, stop := DrainEntry(ents, deleted, before, part, k, et, pk, token, started, batch);
      if stop {
        cancelled := true;
        break;
      }
      k := k + 1;
    }
  }

  /**
   * One step of the partition loop: the operation of `part[k]`, if it has one,
   * is polled for and then added to the batch, which is started when full.
   */
  method DrainEntry(ghost ents: set<TableEntity>, ghost deleted: set<TableEntity>, ghost before: map<TableEntity, Option<string>>,
                    part: seq<StateEntry>, k: nat, et: EntityType, pk: string,
                    token: CancellationToken, started0: seq<BatchSubmission>, batch0: seq<TableOperation>)
    returns (started: seq<BatchSubmission>, batch: seq<TableOperation>, stop: bool)
    requires k < |part|
    requires before.Keys <= ents && WildcardsSince(before, deleted)
    requires EntityObjects(part[k]) <= ents && (part[k].state == Deleted ==> EntityObjects(part[k]) <= deleted)
    modifies token, ents
    ensures WildcardsSince(before, deleted)
    ensures var d := BatchPlan.DrainOps(NonNullOps(part[k..]), et, pk, batch0, BatchPlan.Progress(started0, old(token.checks)), token.signal);
      if stop then d == BatchPlan.Drained(BatchPlan.Progress(started, token.checks), batch, true)
      else d == BatchPlan.DrainOps(NonNullOps(part[k + 1..]), et, pk, batch, BatchPlan.Progress(started, token.checks), token.signal)
  {
    NonNullOpsAt(part, k);
    started, batch, stop := started0, batch0, false;
    var op := Visit(ents, deleted, before, part[k]);
    if op.Some? {
      DrainStep(op.value, NonNullOps(part[k + 1..]), et, pk, batch, BatchPlan.Progress(started, token.checks), token.signal);
      var requested := token.IsCancellationRequested();
      if requested {
        return started, batch, true;
      }
      batch := batch + [op.value];
      if |batch| >= BatchPlan.MaxBatchOperations {
        started := started + [BatchPlan.BatchSubmission(et, pk, batch)];
        batch := [];
      }
    }
  }

  /** One partition group: drain it, then poll again and start the partial batch unless cancelled. */
  method SavePartition(ghost ents: set<TableEntity>, ghost deleted: set<TableEntity>, part: seq<StateEntry>,
                       et: EntityType, pk: string,
                       token: CancellationToken, started0: seq<BatchSubmission>)
    returns (started: seq<BatchSubmission>, stopped: bool)
    requires EntitiesWithin(part, ents, deleted)
    modifies token, ents
    ensures var r := BatchPlan.RunPartition(part, et, pk, BatchPlan.Progress(started0, old(token.checks)), token.signal);
      started == r.progress.started && token.checks == r.progress.checks && stopped == r.stopped
    ensures WildcardsSince(old(ETags(ents)), deleted)
  {
    var batch;
    ghost var cancelled;
    started, batch, cancelled := DrainPartition(ents, deleted, part, et, pk, token, started0);
    var requested := token.IsCancellationRequested();
    stopped := requested;
    if !requested && |batch| != 0 {
      started := started + [BatchPlan.BatchSubmission(et, pk, batch)];
    }
  }

  /** The loop over the partition groups of one table group; it breaks when a partition saw cancellation. */
  method SaveTableGroup(ghost ents: set<TableEntity>, ghost deleted: set<TableEntity>, group: seq<StateEntry>,
                        et: EntityType, token: CancellationToken, started0: seq<BatchSubmission>)
    returns (started: seq<BatchSubmission>)
    requires EntitiesWithin(group, ents, deleted)
    modifies token, ents
    ensures var p := BatchPlan.RunPartitions(GroupBy(group, PartitionKeyOf), et, BatchPlan.Progress(started0, old(token.checks)), token.signal);
      started == p.started && token.checks == p.checks
    ensures WildcardsSince(old(ETags(ents)), deleted)
  {
    var parts := GroupBy(group, PartitionKeyOf);
    ghost var goal := BatchPlan.RunPartitions(parts, et, BatchPlan.Progress(started0, token.checks), token.signal);
    ghost var before := ETags(ents);
    GroupByWithin(group, PartitionKeyOf, ents, deleted);
    started := started0;
    var j := 0;
    assert parts[0..] == parts;
    while j < |parts|
      invariant 0 <= j <= |parts|
      invariant BatchPlan.RunPartitions(parts[j..], et, BatchPlan.Progress(started, token.checks), token.signal) == goal
      invariant WildcardsSince(before, deleted)
    {
      assert parts[j..][1..] == parts[j + 1..];
      var stopped;
      Snapshot(before, ents, deleted);
      ghost var pre := ETags(ents);
      started, stopped := SavePartition(ents, deleted, parts[j].1, et, parts[j].0, token, started);
      CallKeepsWildcards(before, pre, deleted);
      if stopped {
        break;
      }
      j := j + 1;
    }
  }

  /**
   * The loop over table groups of the batch path. Grouping a table group by
   * partition key dereferences every entry's table entity first, so a
   * non-table entry faults before any of its group's partitions is visited.
   */
  method SaveTableGroups(ghost ents: set<TableEntity>, ghost deleted: set<TableEntity>,
                         groups: seq<(EntityType, seq<StateEntry>)>, token: CancellationToken)
    returns (started: seq<BatchSubmission>, faulted: bool)
    requires GroupsWithin(groups, ents, deleted)
    modifies token, ents
    ensures BatchPlan.RunTables(groups, BatchPlan.Progress([], old(token.checks)), token.signal)
         == if faulted then BatchPlan.NullReference(BatchPlan.Progress(started, token.checks))
            else BatchPlan.Planned(BatchPlan.Progress(started, token.checks))
    ensures OnlyWildcardsAdded(ents, deleted)
  {
    ghost var goal := BatchPlan.RunTables(groups, BatchPlan.Progress([], token.checks), token.signal);
    ghost var before := ETags(ents);
    started, faulted := [], false;
    var i := 0;
    assert groups[0..] == groups;
    while i < |groups|
      invariant 0 <= i <= |groups|
      invariant BatchPlan.RunTables(groups[i..], BatchPlan.Progress(started, token.checks), token.signal) == goal
      invariant WildcardsSince(before, deleted)
      invariant !faulted
    {
      assert groups[i..][1..] == groups[i + 1..];
      if BatchPlan.HasNonTableEntry(groups[i].1) {
        faulted := true;
        break;
      }
      Snapshot(before, ents, deleted);
      ghost var pre := ETags(ents);
      started := SaveTableGroup(ents, deleted, groups[i].1, groups[i].0, token, started);
      CallKeepsWildcards(before, pre, deleted);
      i := i + 1;
    }
    forall x | x in ents
      ensures x.ETag == old(x.ETag) || (old(x.ETag) == None && x.ETag == Some(Wildcard) && x in deleted)
    {
      assert x in before;
    }
  }

  /**
   * `SaveBatchChangesAsync`: the batches started are those the plan starts;
   * a non-table entity faults with `NullReferenceException` once its table
   * group is reached; otherwise a save that started no batch fails in
   * `ContinueWhenAll`, which rejects an empty task array before it looks at
   * the token, and any other save polls the token once more at the join and
   * either is cancelled or inspects the settled batches.
   */
  method SaveBatchChanges(entries: seq<StateEntry>, token: CancellationToken,
                          respond: (nat, BatchSubmission) -> Settled<seq<TableResult>>)
    returns (started: seq<BatchSubmission>, outcome: Result<int, SaveError>)
    modifies token, AllEntities(entries)
    ensures var plan := BatchPlan.PlanBatches(entries, token.signal, old(token.checks));
      && started == plan.progress.started
      && (plan.NullReference? ==> outcome == Failure(NullReference) && token.checks == plan.progress.checks)
      && (plan.Planned? && started == [] ==>
            outcome == Failure(NoTasksToJoin) && token.checks == plan.progress.checks)
      && (plan.Planned? && started != [] ==>
            && token.checks == plan.progress.checks + 1
            && outcome == if Requested(token.signal, plan.progress.checks) then Failure(TaskCanceled)
                          else InspectBatchResults(Settle(started, respond)))
    ensures OnlyWildcardsAdded(AllEntities(entries), DeletedEntities(entries))
  {
    EntitiesOfEntries(entries);
    var groups := GroupBy(entries, EntityTypeOf);
    GroupByWithin(entries, EntityTypeOf, AllEntities(entries), DeletedEntities(entries));
    var faulted;
    started, faulted := SaveTableGroups(AllEntities(entries), DeletedEntities(entries), groups, token);
    if faulted {
      outcome := Failure(NullReference);
      return;
    }
    if started == [] {
      outcome := Failure(NoTasksToJoin);
      return;
    }
    var cancelled := token.IsCancellationRequested();
    if cancelled {
      outcome := Failure(TaskCanceled);
    } else {
      outcome := InspectBatchResults(Settle(started, respond));
    }
  }

  // ---------------------------------------------------------------------------
  // SaveChangesAsync
  // ---------------------------------------------------------------------------

  /**
   * One table group of the per-operation path: each entry's operation, null
   * or not, is computed and then submitted unless the poll that follows it
   * sees cancellation.
   */
  method SubmitTableGroup(ghost ents: set<TableEntity>, ghost deleted: set<TableEntity>, group: seq<StateEntry>,
                          et: EntityType, token: CancellationToken, submitted0: seq<OperationSubmission>)
    returns (submitted: seq<OperationSubmission>)
    requires EntitiesWithin(group, ents, deleted)
    modifies token, ents
    ensures OperationPlan.SubmitGroup(group, et, OperationPlan.Submitted(submitted0, old(token.checks)), token.signal)
         == OperationPlan.Submitted(submitted, token.checks)
    ensures WildcardsSince(old(ETags(ents)), deleted)
  {
    ghost var goal := OperationPlan.SubmitGroup(group, et, OperationPlan.Submitted(submitted0, token.checks), token.signal);
    ghost var before := ETags(ents);
    submitted := submitted0;
    var k := 0;
    assert group[0..] == group;
    while k < |group|
      invariant 0 <= k <= |group|
      invariant OperationPlan.SubmitGroup(group[k..], et, OperationPlan.Submitted(submitted, token.checks), token.signal) == goal
      invariant WildcardsSince(before, deleted)
    {
      assert group[k] in group;
      assert group[k..][1..] == group[k + 1..];
      var op := Visit(ents, deleted, before, group[k]);
      var requested := token.IsCancellationRequested();
      if requested {
        break;
      }
      submitted := submitted + [OperationPlan.OperationSubmission(et, op)];
      k := k + 1;
    }
  }

  /** The loop over table groups of the per-operation path, which polls the token after each group. */
  method SubmitTableGroups(ghost ents: set<TableEntity>, ghost deleted: set<TableEntity>,
                           groups: seq<(EntityType, seq<StateEntry>)>, token: CancellationToken)
    returns (submitted: seq<OperationSubmission>)
    requires GroupsWithin(groups, ents, deleted)
    modifies token, ents
    ensures OperationPlan.SubmitGroups(groups, OperationPlan.Submitted([], old(token.checks)), token.signal)
         == OperationPlan.Submitted(submitted, token.checks)
    ensures OnlyWildcardsAdded(ents, deleted)
  {
    ghost var goal := OperationPlan.SubmitGroups(groups, OperationPlan.Submitted([], token.checks), token.signal);
    ghost var before := ETags(ents);
    submitted := [];
    var i := 0;
    assert groups[0..] == groups;
    while i < |groups|
      invariant 0 <= i <= |groups|
      invariant OperationPlan.SubmitGroups(groups[i..], OperationPlan.Submitted(submitted, token.checks), token.signal) == goal
      invariant WildcardsSince(before, deleted)
    {
      ghost var p := OperationPlan.Submitted(submitted, token.checks);
      ghost var s := OperationPlan.SubmitGroup(groups[i].1, groups[i].0, p, token.signal);
      SubmitGroupsStep(groups, i, p, token.signal);
      Snapshot(before, ents, deleted);
      ghost var pre := ETags(ents);
      submitted := SubmitTableGroup(ents, deleted, groups[i].1, groups[i].0, token, submitted);
      CallKeepsWildcards(before, pre, deleted);
      assert s == OperationPlan.Submitted(submitted, token.checks);
      var requested := token.IsCancellationRequested();
      if requested {
        break;
      }
      assert token.checks == s.checks + 1 && !Requested(token.signal, s.checks);
      i := i + 1;
    }
    forall x | x in ents
      ensures x.ETag == old(x.ETag) || (old(x.ETag) == None && x.ETag == Some(Wildcard) && x in deleted)
    {
      assert x in before;
    }
  }

  /**
   * `SaveChangesAsync`: the operations submitted are those the plan submits,
   * and the outcome is that of inspecting their settled tasks, unless none
   * was submitted: `ContinueWhenAll` rejects an empty task array. The join
   * takes no token, so nothing is polled after the loop.
   */
  method SaveChanges(entries: seq<StateEntry>, token: CancellationToken,
                     respond: (nat, OperationSubmission) -> Settled<TableResult>)
    returns (submitted: seq<OperationSubmission>, outcome: Result<int, SaveError>)
    modifies token, AllEntities(entries)
    ensures var plan := OperationPlan.PlanOperations(entries, token.signal, old(token.checks));
      && submitted == plan.submissions
      && token.checks == plan.checks
      && outcome == if submitted == [] then Failure(NoTasksToJoin) else InspectResults(Settle(submitted, respond))
    ensures OnlyWildcardsAdded(AllEntities(entries), DeletedEntities(entries))
  {
    EntitiesOfEntries(entries);
    var groups := GroupBy(entries, EntityTypeOf);
    GroupByWithin(entries, EntityTypeOf, AllEntities(entries), DeletedEntities(entries));
    submitted := SubmitTableGroups(AllEntities(entries), DeletedEntities(entries), groups, token);
    if submitted == [] {
      outcome := Failure(NoTasksToJoin);
    } else {
      outcome := InspectResults(Settle(submitted, respond));
    }
  }
}
