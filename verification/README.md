# Table-storage saves and migration bookkeeping, modelled in Dafny

This project models two pieces of an early Entity Framework code base.

**The Azure Table Storage data store** (`AzureTableStorageDataStore`) writes the
change tracker's state entries to Azure tables in one of two ways:

- `SaveChangesAsync` submits one table operation per entry, table group after
  table group. It polls the cancellation token after each entry and after each
  table group.
- `SaveBatchChangesAsync` packs each partition's non-null operations into
  entity-group transactions of at most 100 operations. It polls the token
  before each operation is added and after each partition, and once more when
  it joins the tasks.

The store maps each entry to an Insert, Replace or Delete operation
(`GetOperation`). Before a Delete, it gives an entity without an ETag the
wildcard ETag `"*"`. It joins the submitted tasks with `ContinueWhenAll`, which
rejects an empty task array with `ArgumentException`, so a save that submits
nothing fails. Otherwise, once all tasks have settled, it turns them into one
count or one exception (`CountTableResults`, `InspectResults`,
`InspectBatchResults`).

**The migrator** (`Migrator`):

- creates a migration from the difference between the assembly's model and the
  context's model;
- lists the migrations after a named one;
- lists the migrations not yet recorded in the history table;
- generates the SQL for a list of migrations.

Modules, one file each:

- `wrappers.dfy` (`Wrappers`): `Option` and `Result`.
- `linq.dfy` (`Linq`): the LINQ operators the store relies on. `Where` keeps
  order. `GroupBy` gives one group per key, with keys in order of first
  occurrence and input order inside each group.
- `table_entities.dfy` (`TableEntities`):
  - state entries;
  - a table entity as a class with an immutable partition key and a mutable ETag;
  - table operations;
  - `GetOperation`, as a method that may write the ETag.
- `cancellation.dfy` (`Cancellation`): the cancellation token as a class that
  counts its polls, driven by an oracle `Signal`. `AtCheck(n)` means poll `n`
  is the first to see cancellation.
- `batch_plan.dfy` / `batch_plan_lemmas.dfy` (`BatchPlan`, `BatchPlanLemmas`):
  - the batch path as a pure function of the entries and the oracle (`PlanBatches`);
  - an independent reference: greedy packing of each partition's operations
    (`ReferencePlan`, `Chunks`);
  - the lemmas that relate the two.
- `operation_plan.dfy` (`OperationPlan`):
  - the per-operation path as a pure function (`PlanOperations`);
  - its reference (`ReferenceSubmissions`, one submission per entry);
  - the lemmas that relate the two.
- `result_inspection.dfy` (`ResultInspection`): settled tasks, fault
  precedence, counting, and the unit-test scenarios.
- `table_data_store.dfy` (`TableDataStore`): the two save paths as imperative
  loops over the token and the entities. Each is proved to do exactly what its
  plan function says, and to change no entity except by adding wildcard ETags.
- `migrations.dfy` (`Migrations`): the migrator.

The remote table service, the clock and the migrator's collaborators are
parameters:

- `respond` gives the settled outcome of the n-th submission.
- `Collaborators` holds the model differ, the database builder and the SQL
  generator as functions.
- The migration timestamp is an argument.

## Model

Source paths are relative to the repository root.

| member | source | states |
|---|---|---|
| TableEntities.OperationFor | src/Microsoft.Data.Entity.AzureTableStorage/AzureTableStorageDataStore.cs:162-195 | An entry has an operation exactly when its entity is a table entity and its state is Added, Deleted or Modified. The operation refers to the entry's own entity object. |
| TableEntities.NonNullOps | src/Microsoft.Data.Entity.AzureTableStorage/AzureTableStorageDataStore.cs:109 | `Select(GetOperation).Where(op != null)` yields at most one operation per entry. Each operation it yields is the operation of one of the entries. Every entry's non-null operation is among them. |
| TableEntities.NonNullOpsAppend | src/Microsoft.Data.Entity.AzureTableStorage/AzureTableStorageDataStore.cs:109 | Dropping the null operations keeps order: the operations of `a + b` are those of `a` followed by those of `b`. |
| TableEntities.GetOperation | src/Microsoft.Data.Entity.AzureTableStorage/AzureTableStorageDataStore.cs:162-195 | Added gives Insert, Modified gives Replace, Deleted gives Delete. Unchanged, Unknown and non-table entities give null. A Deleted entity's null ETag becomes `"*"`. Every other ETag, including a Deleted entity's existing one, is left as it was. |
| Cancellation.CancellationToken.IsCancellationRequested | src/Microsoft.Data.Entity.AzureTableStorage/AzureTableStorageDataStore.cs:111 | Each poll counts once. It reports cancellation exactly from the oracle's first cancelled poll onwards. |
| Linq.Where | src/Microsoft.Data.Entity.AzureTableStorage/AzureTableStorageDataStore.cs:105 | The result is no longer than the input. It holds exactly the input elements with the given key. |
| Linq.KeysInFirstOccurrenceOrder | src/Microsoft.Data.Entity.AzureTableStorage/AzureTableStorageDataStore.cs:92 | The group keys are pairwise distinct. Every element's key is among them, and every key is some element's key. They are in first-occurrence order: the keys of any prefix of the input are a prefix of the keys. |
| Linq.GroupByIsPermutation | src/Microsoft.Data.Entity.AzureTableStorage/AzureTableStorageDataStore.cs:105 | Grouping neither loses nor duplicates an entry: the groups' members are a permutation of the input. |
| BatchPlan.ChunksSpec | src/Microsoft.Data.Entity.AzureTableStorage/AzureTableStorageDataStore.cs:108-130 | Greedy packing preserves the operations and their order. Every batch holds 1 to 100 operations, and every batch but the last is full. There are ceil(n/100) batches. |
| BatchPlan.PlanBatches | src/Microsoft.Data.Entity.AzureTableStorage/AzureTableStorageDataStore.cs:92-132 | The batches `SaveBatchChangesAsync` starts, as a function of the entries and the cancellation oracle. It has no contract of its own: `BatchPlanLemmas.PlanFaultsIffNonTableEntry`, `PlanWithoutCancellation`, `CancellationOnlyTruncates`, `CancelledBeforeStart` and `StartedBatchesWellFormed` state what it plans. |
| BatchPlanLemmas.PlanFaultsIffNonTableEntry | src/Microsoft.Data.Entity.AzureTableStorage/AzureTableStorageDataStore.cs:102-105 | The batch path faults with a null dereference if and only if some entry is not a table entity, whatever the cancellation. |
| BatchPlanLemmas.PlanWithoutCancellation | src/Microsoft.Data.Entity.AzureTableStorage/AzureTableStorageDataStore.cs:102-132 | Without cancellation, and with table entities only, the started batches are exactly the reference: each partition's non-null operations packed greedily, partition after partition, table after table. |
| BatchPlanLemmas.CancellationOnlyTruncates | src/Microsoft.Data.Entity.AzureTableStorage/AzureTableStorageDataStore.cs:109-126 | The batches started under any cancellation are a prefix of those started without it, which are a prefix of the reference. Cancellation never starts a partial batch early. |
| BatchPlanLemmas.CancelledBeforeStart | src/Microsoft.Data.Entity.AzureTableStorage/AzureTableStorageDataStore.cs:109-126 | A token that is cancelled at its first poll starts no batch. |
| BatchPlanLemmas.PartitionStopsWithFullBatches | src/Microsoft.Data.Entity.AzureTableStorage/AzureTableStorageDataStore.cs:111-126 | A partition that sees cancellation, in its operation loop or at the poll after it, drops its partially filled batch: every batch it started holds exactly 100 operations. |
| BatchPlanLemmas.LatePollDropsPartialBatch | src/Microsoft.Data.Entity.AzureTableStorage/AzureTableStorageDataStore.cs:108-126 | When the operation loop runs to its end and only the poll after it sees cancellation, the loop over partitions breaks and the pending batch is dropped: the partition starts what the uncancelled run starts, less that batch. |
| BatchPlanLemmas.StartedBatchesWellFormed | src/Microsoft.Data.Entity.AzureTableStorage/AzureTableStorageDataStore.cs:106-130 | Under any cancellation, every started batch holds 1 to 100 (`MAX_BATCH_OPERATIONS`) operations. Each operation is for an entry of the batch's entity type, and its entity has the batch's partition key. |
| BatchPlanLemmas.ReferenceWellFormed | src/Microsoft.Data.Entity.AzureTableStorage/AzureTableStorageDataStore.cs:106-130 | Every reference batch holds 1 to 100 (`MAX_BATCH_OPERATIONS`, declared at line 29) operations of one table and one partition, the shape the partition loop gives every batch it starts. |
| BatchPlanLemmas.ReferenceBatchesFor | src/Microsoft.Data.Entity.AzureTableStorage/AzureTableStorageDataStore.cs:102-131 | The reference batches of one (entity type, partition key) are that partition's entries packed greedily. |
| BatchPlanLemmas.PartitionReassembles | src/Microsoft.Data.Entity.AzureTableStorage/AzureTableStorageDataStore.cs:106-130 | Without cancellation, one partition's batches, concatenated in start order, are exactly its non-null operations in input order. There are ceil(n/100) of them. A partition with no non-null operation starts no batch. |
| OperationPlan.PlanOperations | src/Microsoft.Data.Entity.AzureTableStorage/AzureTableStorageDataStore.cs:58-76 | Under any cancellation, the per-operation path submits a prefix of the reference submissions. Without cancellation it submits all of them. A token that is cancelled at its first poll leads to no submission. |
| OperationPlan.ReferenceOnePerEntry | src/Microsoft.Data.Entity.AzureTableStorage/AzureTableStorageDataStore.cs:60-68 | The reference has exactly one submission per entry, null operations included. Every entry's submission is in it, and nothing else is. |
| OperationPlan.ReferenceKeepsTableOrder | src/Microsoft.Data.Entity.AzureTableStorage/AzureTableStorageDataStore.cs:60-68 | Within one entity type, the reference submits the entries' operations in input order. |
| ResultInspection.FirstFault | src/Microsoft.Data.Entity.AzureTableStorage/AzureTableStorageDataStore.cs:151 | The result is null if and only if no task faulted. Otherwise it is the fault of the first faulted task. |
| ResultInspection.FirstFailed | src/Microsoft.Data.Entity.AzureTableStorage/AzureTableStorageDataStore.cs:140 | The result is null if and only if no result has status 400 or above. Otherwise it is the first such result. |
| ResultInspection.CountTableResults | src/Microsoft.Data.Entity.AzureTableStorage/AzureTableStorageDataStore.cs:149-158 | The first faulted task's exception is rethrown, whatever the other tasks hold and whatever the inspection would make of them. With no faulted task, the count succeeds exactly when the inspection succeeds on every task, and then it is the total of the inspections' counts (`Total`). Otherwise it ends with the first exception the inspection throws. |
| ResultInspection.SumInspected | src/Microsoft.Data.Entity.AzureTableStorage/AzureTableStorageDataStore.cs:157 | `Aggregate` from a seed: it succeeds exactly when every inspection succeeds, and then returns the seed plus the total of their counts. Otherwise it ends with the first inspection's exception. |
| ResultInspection.BatchResultsCount | src/Microsoft.Data.Entity.AzureTableStorage/AzureTableStorageDataStore.cs:136-147 | If all batch tasks completed, the inspection throws `DbUpdateException` for the first failed result (in task order, then result order) exactly when one exists. Otherwise it returns the total number of results. |
| ResultInspection.OperationResultsCount | src/Microsoft.Data.Entity.AzureTableStorage/AzureTableStorageDataStore.cs:78-88 | If all operation tasks completed, the inspection throws `DbUpdateException` for the first failed result exactly when one exists. Otherwise it returns the number of tasks. |
| ResultInspection.InspectResults | src/Microsoft.Data.Entity.AzureTableStorage/AzureTableStorageDataStore.cs:78-88 | The per-operation save succeeds exactly when every task ran to completion with a status below 400. Its count is then the number of tasks. A faulted or canceled task always ends the save with an exception. `OperationResultsCount` states which exception. |
| ResultInspection.InspectBatchResults | src/Microsoft.Data.Entity.AzureTableStorage/AzureTableStorageDataStore.cs:136-147 | The batch save succeeds exactly when every batch task ran to completion and none of its results has status 400 or above. Its count is then the total number of results across the batches. `BatchResultsCount` states which exception a failed result raises. |
| ResultInspection.BatchInspectionExamples | test/Microsoft.Data.Entity.AzureTableStorage.Tests/AzureTableStorageDataStoreTests.cs:43-64 | The batch scenarios: 2+2 good batch results count 4, a bad batch result throws `DbUpdateException`, a faulted batch throws its fault. |
| ResultInspection.OperationInspectionExamples | test/Microsoft.Data.Entity.AzureTableStorage.Tests/AzureTableStorageDataStoreTests.cs:66-85 | The per-operation scenarios: two good results count 2, a faulted task throws its fault, a bad result throws `DbUpdateException`. |
| TableDataStore.Visit | src/Microsoft.Data.Entity.AzureTableStorage/AzureTableStorageDataStore.cs:109 | One `GetOperation` call inside a loop. It yields the entry's operation and keeps the invariant that the only ETag change so far is wildcards added to deleted entities. |
| TableDataStore.DrainEntry | src/Microsoft.Data.Entity.AzureTableStorage/AzureTableStorageDataStore.cs:109-122 | One entry of the partition loop: it computes the operation, then polls, then adds the operation and starts the batch when full. It takes exactly one step of `BatchPlan.DrainOps`. |
| TableDataStore.DrainPartition | src/Microsoft.Data.Entity.AzureTableStorage/AzureTableStorageDataStore.cs:108-122 | The loop over one partition ends in the state `BatchPlan.DrainOps` predicts: started batches, the pending batch, the poll count and whether cancellation was seen. |
| TableDataStore.SavePartition | src/Microsoft.Data.Entity.AzureTableStorage/AzureTableStorageDataStore.cs:106-131 | One partition group, including the poll after the loop and the start of the partial batch, as `BatchPlan.RunPartition` predicts. |
| TableDataStore.SaveTableGroup | src/Microsoft.Data.Entity.AzureTableStorage/AzureTableStorageDataStore.cs:104-131 | The loop over one table group's partitions, as `BatchPlan.RunPartitions` predicts. |
| TableDataStore.SaveTableGroups | src/Microsoft.Data.Entity.AzureTableStorage/AzureTableStorageDataStore.cs:102-132 | The loop over table groups, including the null-dereference fault, as `BatchPlan.RunTables` predicts. It changes entities only by adding wildcard ETags to deleted ones. |
| TableDataStore.SaveBatchChanges | src/Microsoft.Data.Entity.AzureTableStorage/AzureTableStorageDataStore.cs:90-134 | The batches started are the plan's. A non-table entity ends in `NullReferenceException`. Otherwise, if no batch was started, `ContinueWhenAll` rejects the empty task array with `ArgumentException` before it looks at the token. If some batch was started, the join polls once more: it is cancelled or returns the inspection of the settled batches. The only entity change is a deleted entity's null ETag becoming `"*"`. |
| TableDataStore.SubmitTableGroup | src/Microsoft.Data.Entity.AzureTableStorage/AzureTableStorageDataStore.cs:65-68 | `Select(GetOperation).TakeWhile(!cancelled)` for one table group, as `OperationPlan.SubmitGroup` predicts. |
| TableDataStore.SubmitTableGroups | src/Microsoft.Data.Entity.AzureTableStorage/AzureTableStorageDataStore.cs:62-74 | The loop over table groups, with its poll and break after each group, as `OperationPlan.SubmitGroups` predicts. |
| TableDataStore.SaveChanges | src/Microsoft.Data.Entity.AzureTableStorage/AzureTableStorageDataStore.cs:58-76 | The submissions are the plan's, and the token is polled as often as the plan says. If nothing was submitted, `ContinueWhenAll` rejects the empty task array with `ArgumentException`. Otherwise the outcome is the inspection of the settled tasks. The only entity change is a deleted entity's null ETag becoming `"*"`. |
| Migrations.Migrator.CreateMigration | src/Microsoft.Data.Entity.Migrations/Infrastructure/Migrator.cs:87-114 | An empty name is rejected. Otherwise the migration carries the name, the timestamp and both models. With an assembly model, upgrade is Diff(source, target) and downgrade is Diff(target, source). Without one, they are DiffSource(target) and DiffTarget(target). |
| Migrations.Migrator.GetPendingMigrations | src/Microsoft.Data.Entity.Migrations/Infrastructure/Migrator.cs:121-126 | Every result comes from the assembly, and no history entry matches it on both timestamp and name. Every unmatched assembly migration is in the result. |
| Migrations.PendingMigrations | src/Microsoft.Data.Entity.Migrations/Infrastructure/Migrator.cs:123-125 | The same two directions, plus: no more results than assembly migrations. |
| Migrations.PendingAppend | src/Microsoft.Data.Entity.Migrations/Infrastructure/Migrator.cs:123-125 | The pending list keeps assembly order: the pending part of a joined list is the joined pending parts. |
| Migrations.IndexOfName | src/Microsoft.Data.Entity.Migrations/Infrastructure/Migrator.cs:135-145 | The result is the first position whose name matches, or none when no name matches. |
| Migrations.MigrationsSince | src/Microsoft.Data.Entity.Migrations/Infrastructure/Migrator.cs:128-148 | The result is the migrations strictly after the first one with the name, or [] when none has it. |
| Migrations.Migrator.GetMigrationsSince | src/Microsoft.Data.Entity.Migrations/Infrastructure/Migrator.cs:128-148 | An empty name is rejected. Otherwise the `found`-flag loop returns exactly `MigrationsSince`. |
| Migrations.Migrator.GenerateSqlStatements | src/Microsoft.Data.Entity.Migrations/Infrastructure/Migrator.cs:159-175 | The statements are the concatenation, in migration order, of each migration's generator output. Each migration uses the generator for its target model's database, with its downgrade or upgrade operations, always with idempotent SQL. |
| Migrations.SqlForAppend | src/Microsoft.Data.Entity.Migrations/Infrastructure/Migrator.cs:164-172 | The SQL of two lists one after the other is the SQL of the joined list. |
| Migrations.SqlForBasics | src/Microsoft.Data.Entity.Migrations/Infrastructure/Migrator.cs:159-175 | No migrations give no SQL. One migration's SQL is the generator's idempotent output for the operations of the chosen direction. |

## Left out

- `Query` and `AsyncQuery` (the query pipeline) are not part of this model.
- The connection, `GetTableReference` and the table name are not modelled: a submission records the entity type, which names its table.
- The asynchronous execution is not modelled. The remote service is the parameter `respond`, and the join happens after every submission has settled. Retry policies, timeouts, and cancellation of tasks already submitted are not modelled; a submitted task's outcome is whatever `respond` says.
- The entity payload is not modelled. A table entity is its partition key and its ETag.
- The `NotImplementedException` branch of `GetOperation` is not modelled, because the closed `EntityState` datatype has no further state.
- TableDataStore.SaveBatchChanges: the ETag effect is stated as a frame: only a deleted entity's null ETag may become `"*"`. The contract does not say which deleted entities were visited before cancellation, and does not say that every submitted Delete carries an ETag. `GetOperation`'s own contract states the per-call effect.
- TableDataStore.SaveChanges: the same frame-only statement of the ETag effect as for `SaveBatchChanges`.
- TableEntities.GetOperation: the storage client's operation factories and `ExecuteAsync` are taken as never throwing. The client's `TableOperation.Replace` and `TableOperation.Delete` reject an entity whose ETag is null or empty with `ArgumentException`. So a Modified entity without an ETag, or a Deleted entity whose ETag is `""` (which `?? "*"` leaves as it is), ends the source's loop with that exception. The model gives these entities a Replace or Delete operation. Likewise, `ExecuteAsync(null)` for a non-table entity on the per-operation path is taken to yield a task whose outcome `respond` gives, not to throw synchronously. The client library is not part of this model.
- TableEntities.EntityType: an entity type is a value compared by its name and storage name. `GroupBy(s => s.EntityType)` compares entity-type objects by reference, so two distinct entity types with equal names would form one group only in the model.
- TableDataStore.SaveTableGroups, TableDataStore.SubmitTableGroups, TableDataStore.DrainEntry: the outer loops and the partition loop's body are separate methods. The original has them inline in one method. Each is proved against the same plan function the inline code follows.
- ResultInspection.CountTableResults: the sum is an unbounded integer. The source adds in 32-bit `int`, which would wrap past 2^31-1 results; this cannot be reached by any real save.
- Null strings are not modelled: the model rejects the empty name, and a null name is not representable.
- Migrations.Migrator.GetPendingMigrations: the `Except` overload with a predicate comes from a utility class that is not part of this model. It is modelled as an order-preserving filter that does not remove duplicates among the assembly's migrations.
- `UpdateDatabase` and `CreateMigrationTimestamp` are not modelled: they need a database connection and the clock. The timestamp is an argument of `CreateMigration`.
- `SqlGeneratorFactory.Create(database).Generate(ops, idempotent)` is one collaborator function `generate(database, ops, idempotent)`.
