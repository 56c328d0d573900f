/**
 * The migration bookkeeping of the migrator: creating a migration from the
 * difference of two models, finding the migrations after a named one and
 * those not yet applied, and generating the SQL of a list of migrations.
 *
 * Models, migration operations, databases and SQL statements are type
 * parameters (`M`, `O`, `D`, `S`): the model differ, the database builder and
 * the SQL generator are functions the migrator is given.
 */
module Migrations {
  import opened Wrappers
  import opened Linq

  /** A migration's metadata: its name, its creation timestamp, the models it goes between and its operations. */
  datatype Migration<M, O> = Migration(
    name: string,
    timestamp: string,
    sourceModel: Option<M>,
    targetModel: M,
    upgradeOperations: seq<O>,
    downgradeOperations: seq<O>)

  /** `Check.NotEmpty` failing: the argument named `paramName` is empty. */
  datatype ArgumentError = EmptyArgument(paramName: string)

  /** The collaborators the migrator calls and does not implement. */
  datatype Collaborators<!M, !O, !D, S> = Collaborators(
    diff: (M, M) -> seq<O>,          // ModelDiffer.Diff(source, target)
    diffSource: M -> seq<O>,         // ModelDiffer.DiffSource(target): create everything
    diffTarget: M -> seq<O>,         // ModelDiffer.DiffTarget(target): drop everything
    getDatabase: M -> D,             // DatabaseBuilder.GetDatabase
    generate: (D, seq<O>, bool) -> seq<S>)  // the SQL generator for a database; the flag asks for idempotent SQL

  /** Two migrations are the same applied migration when timestamp and name agree. */
  predicate SameMigration<M, O>(x: Migration<M, O>, y: Migration<M, O>) {
    x.timestamp == y.timestamp && x.name == y.name
  }

  /** Whether the history holds a migration with `x`'s timestamp and name. */
  predicate Applied<M, O>(x: Migration<M, O>, history: seq<Migration<M, O>>) {
    exists j :: 0 <= j < |history| && SameMigration(x, history[j])
  }

  /** The first position of a migration named `name`. */
  function IndexOfName<M, O>(migrations: seq<Migration<M, O>>, name: string): (r: Option<nat>)
    ensures r.Some? ==> r.value < |migrations| && migrations[r.value].name == name
                        && forall j :: 0 <= j < r.value ==> migrations[j].name != name
    ensures r.None? ==> forall j :: 0 <= j < |migrations| ==> migrations[j].name != name
  {
    if migrations == [] then None
    else if migrations[0].name == name then Some(0)
    else
      match IndexOfName(migrations[1..], name)
      case None => None
      case Some(i) => Some(i + 1)
  }

  /**
   * The migrations strictly after the first one named `name`, in order; none
   * when no migration has that name.
   */
  function MigrationsSince<M, O>(migrations: seq<Migration<M, O>>, name: string): (r: seq<Migration<M, O>>)
    ensures (forall j :: 0 <= j < |migrations| ==> migrations[j].name != name) ==> r == []
    ensures forall i :: 0 <= i < |migrations| && migrations[i].name == name
                        && (forall j :: 0 <= j < i ==> migrations[j].name != name)
                        ==> r == migrations[i + 1..]
  {
    match IndexOfName(migrations, name)
    case None => []
    case Some(i) => migrations[i + 1..]
  }

  /** The assembly's migrations that no history entry matches on timestamp and name, in assembly order. */
  function PendingMigrations<M, O>(assembly: seq<Migration<M, O>>, history: seq<Migration<M, O>>): (r: seq<Migration<M, O>>)
    ensures |r| <= |assembly|
    ensures forall i :: 0 <= i < |r| ==> r[i] in assembly && !Applied(r[i], history)
    ensures forall i :: 0 <= i < |assembly| && !Applied(assembly[i], history) ==> assembly[i] in r
  {
    if assembly == [] then []
    else
      var rest := PendingMigrations(assembly[1..], history);
      if Applied(assembly[0], history) then rest else [assembly[0]] + rest
  }

  function OperationsFor<M, O>(m: Migration<M, O>, downgrade: bool): seq<O> {
    if downgrade then m.downgradeOperations else m.upgradeOperations
  }

  /**
   * The SQL of a list of migrations: for each migration in order, the
   * idempotent SQL its target model's generator produces for its downgrade or
   * upgrade operations.
   */
  function SqlFor<M, O, D, S>(c: Collaborators<M, O, D, S>, migrations: seq<Migration<M, O>>, downgrade: bool): seq<S> {
    Concat(seq(|migrations|, i requires 0 <= i < |migrations| =>
      c.generate(c.getDatabase(migrations[i].targetModel), OperationsFor(migrations[i], downgrade), true)))
  }

  /** The migrator's state: the migrations of its assembly and of the history table, the two models and its collaborators. */
  datatype Migrator<!M, !O, !D, S> = Migrator(
    assemblyModel: Option<M>,
    contextModel: M,
    assemblyMigrations: seq<Migration<M, O>>,
    historyMigrations: seq<Migration<M, O>>,
    collaborators: Collaborators<M, O, D, S>)
  {
    /**
     * `CreateMigration`: rejects an empty name; otherwise diffs the assembly's
     * model against the context's model both ways, or, without an assembly
     * model, creates and drops everything of the context's model. The
     * timestamp is given, not read from the clock.
     */
    function CreateMigration(migrationName: string, timestamp: string): (r: Result<Migration<M, O>, ArgumentError>)
      ensures migrationName == [] <==> r == Failure(EmptyArgument("migrationName"))
      ensures r.Success? ==>
        && r.value.name == migrationName && r.value.timestamp == timestamp
        && r.value.sourceModel == assemblyModel && r.value.targetModel == contextModel
      ensures r.Success? && assemblyModel.Some? ==>
        && r.value.upgradeOperations == collaborators.diff(assemblyModel.value, contextModel)
        && r.value.downgradeOperations == collaborators.diff(contextModel, assemblyModel.value)
      ensures r.Success? && assemblyModel.None? ==>
        && r.value.upgradeOperations == collaborators.diffSource(contextModel)
        && r.value.downgradeOperations == collaborators.diffTarget(contextModel)
    {
      if migrationName == [] then Failure(EmptyArgument("migrationName"))
      else
        var target := contextModel;
        var (up, down) :=
          match assemblyModel
          case Some(source) => (collaborators.diff(source, target), collaborators.diff(target, source))
          case None => (collaborators.diffSource(target), collaborators.diffTarget(target));
        Success(Migration(migrationName, timestamp, assemblyModel, target, up, down))
    }

    /** `GetPendingMigrations`: the assembly's migrations not in the history, in assembly order. */
    function GetPendingMigrations(): (r: seq<Migration<M, O>>)
      ensures forall i :: 0 <= i < |r| ==> r[i] in assemblyMigrations && !Applied(r[i], historyMigrations)
      ensures forall i :: 0 <= i < |assemblyMigrations| && !Applied(assemblyMigrations[i], historyMigrations)
                          ==> assemblyMigrations[i] in r
    {
      PendingMigrations(assemblyMigrations, historyMigrations)
    }

    /**
     * `GetMigrationsSince`: rejects an empty name; otherwise scans the
     * assembly's migrations with a `found` flag and collects those after the
     * first one with that name.
     */
    method GetMigrationsSince(migrationName: string) returns (r: Result<seq<Migration<M, O>>, ArgumentError>)
      ensures migrationName == [] ==> r == Failure(EmptyArgument("migrationName"))
      ensures migrationName != [] ==> r == Success(MigrationsSince(assemblyMigrations, migrationName))
    {
      if migrationName == [] {
        return Failure(EmptyArgument("migrationName"));
      }
      var ms := assemblyMigrations;
      var migrations := [];
      var found := false;
      ghost var first := 0;
      for k := 0 to |ms|
        invariant !found ==> migrations == [] && forall j :: 0 <= j < k ==> ms[j].name != migrationName
        invariant found ==> first < k && ms[first].name == migrationName && migrations == ms[first + 1..k]
        invariant found ==> forall j :: 0 <= j < first ==> ms[j].name != migrationName
      {
        if found {
          migrations := migrations + [ms[k]];
        } else if ms[k].name == migrationName {
          found := true;
          first := k;
        }
      }
      if found {
        assert migrations == ms[first + 1..];
      }
      return Success(migrations);
    }

    /**
     * `GenerateSqlStatements`: appends, migration after migration, the SQL
     * the generator for its target model's database produces for its
     * downgrade or upgrade operations, always asking for idempotent SQL.
     */
    method GenerateSqlStatements(migrations: seq<Migration<M, O>>, downgrade: bool) returns (sqlStatements: seq<S>)
      ensures sqlStatements == SqlFor(collaborators, migrations, downgrade)
    {
      sqlStatements := [];
      for i := 0 to |migrations|
        invariant sqlStatements == SqlFor(collaborators, migrations[..i], downgrade)
      {
        var database := collaborators.getDatabase(migrations[i].targetModel);
        SqlForSnoc(collaborators, migrations[..i], migrations[i], downgrade);
        assert migrations[..i + 1] == migrations[..i] + [migrations[i]];
        sqlStatements := sqlStatements + collaborators.generate(database, OperationsFor(migrations[i], downgrade), true);
      }
      assert migrations[..|migrations|] == migrations;
    }
  }

  // ---------------------------------------------------------------------------
  // Properties
  // ---------------------------------------------------------------------------

  lemma SqlForSnoc<M, O, D, S>(c: Collaborators<M, O, D, S>, migrations: seq<Migration<M, O>>, m: Migration<M, O>, downgrade: bool)
    ensures SqlFor(c, migrations + [m], downgrade)
         == SqlFor(c, migrations, downgrade) + c.generate(c.getDatabase(m.targetModel), OperationsFor(m, downgrade), true)
  {
    var ms := migrations + [m];
    var all := seq(|ms|, i requires 0 <= i < |ms| =>
      c.generate(c.getDatabase(ms[i].targetModel), OperationsFor(ms[i], downgrade), true));
    var init := seq(|migrations|, i requires 0 <= i < |migrations| =>
      c.generate(c.getDatabase(migrations[i].targetModel), OperationsFor(migrations[i], downgrade), true));
    assert all == init + [c.generate(c.getDatabase(m.targetModel), OperationsFor(m, downgrade), true)];
    ConcatAppend(init, [c.generate(c.getDatabase(m.targetModel), OperationsFor(m, downgrade), true)]);
  }

  /** Generating the SQL of two lists of migrations one after the other gives the SQL of the joined list. */
  lemma {:induction false} SqlForAppend<M, O, D, S>(c: Collaborators<M, O, D, S>, a: seq<Migration<M, O>>, b: seq<Migration<M, O>>, downgrade: bool)
    ensures SqlFor(c, a + b, downgrade) == SqlFor(c, a, downgrade) + SqlFor(c, b, downgrade)
    decreases |b|
  {
    if b == [] {
      assert a + b == a;
    } else {
      var init, last := b[..|b| - 1], b[|b| - 1];
      assert b == init + [last];
      assert a + b == (a + init) + [last];
      SqlForSnoc(c, a + init, last, downgrade);
      SqlForSnoc(c, init, last, downgrade);
      SqlForAppend(c, a, init, downgrade);
    }
  }

  /** No migrations, no SQL; and one migration's SQL is the generator's idempotent output for its operations. */
  lemma SqlForBasics<M, O, D, S>(c: Collaborators<M, O, D, S>, m: Migration<M, O>, downgrade: bool)
    ensures SqlFor(c, [], downgrade) == []
    ensures SqlFor(c, [m], downgrade)
         == c.generate(c.getDatabase(m.targetModel), if downgrade then m.downgradeOperations else m.upgradeOperations, true)
  {
    SqlForSnoc(c, [], m, downgrade);
    assert [] + [m] == [m];
  }

  /** Pending migrations keep the assembly's order: the pending part of a joined list is the joined pending parts. */
  lemma {:induction false} PendingAppend<M, O>(a: seq<Migration<M, O>>, b: seq<Migration<M, O>>, history: seq<Migration<M, O>>)
    ensures PendingMigrations(a + b, history) == PendingMigrations(a, history) + PendingMigrations(b, history)
  {
    if a == [] {
      assert a + b == b;
    } else {
      assert (a + b)[1..] == a[1..] + b;
      PendingAppend(a[1..], b, history);
    }
  }
}
