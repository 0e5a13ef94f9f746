/**
 The migration runner. Every call is one transaction under an advisory lock: it
 works on a copy and assigns the copy back to commit.
 */
module Runners {
  import opened Wrappers
  import opened MigrationSteps
  import L = Loader
  import Sorting
  import M = MigrationSteps

  datatype AppliedMigration = AppliedMigration(version: int, record: Record)

  ghost predicate Listed(applied: seq<AppliedMigration>, v: int) {
    exists i :: 0 <= i < |applied| && applied[i].version == v
  }

  /** The rows are those of the table. */
  ghost predicate Lists(applied: seq<AppliedMigration>, records: Records) {
    && (forall i | 0 <= i < |applied| ::
          applied[i].version in records && records[applied[i].version] == applied[i].record)
    && (forall v | v in records :: Listed(applied, v))
  }

  function OldestFirst(a: AppliedMigration): int {
    a.version
  }

  function NewestFirst(a: AppliedMigration): int {
    -a.version
  }

  ghost predicate InOrder(applied: seq<AppliedMigration>) {
    Sorting.Ascending(OldestFirst, applied)
  }

  ghost predicate Backwards(applied: seq<AppliedMigration>) {
    Sorting.Ascending(NewestFirst, applied)
  }

  /** The rows read so far: all but the remaining ones, which are newer. */
  ghost predicate Gathered(applied: seq<AppliedMigration>, records: Records, remaining: set<int>) {
    && remaining <= records.Keys && InOrder(applied)
    && (forall i, u | 0 <= i < |applied| && u in remaining :: applied[i].version < u)
    && (forall i | 0 <= i < |applied| ::
          applied[i].version in records && records[applied[i].version] == applied[i].record)
    && (forall v | v in records && v !in remaining :: Listed(applied, v))
  }

  lemma GatheredMore(applied: seq<AppliedMigration>, records: Records, remaining: set<int>, v: int)
    requires Gathered(applied, records, remaining) && v in remaining && forall u | u in remaining :: v <= u
    ensures Gathered(applied + [AppliedMigration(v, records[v])], records, remaining - {v})
  {
    var row := AppliedMigration(v, records[v]);
    var more := applied + [row];
    forall i, j | 0 <= i < j < |more| ensures OldestFirst(more[i]) < OldestFirst(more[j]) {
      assert j < |applied| ==> OldestFirst(applied[i]) < OldestFirst(applied[j]);
    }
    forall u | u in records && u !in remaining - {v} ensures Listed(more, u) {
      ListedLater(applied, row, u);
    }
  }

  /** The query of all rows, oldest version first. */
  method LoadAppliedMigrations(records: Records) returns (applied: seq<AppliedMigration>)
    ensures Lists(applied, records) && InOrder(applied)
  {
    applied := [];
    var remaining := records.Keys;
    while remaining != {}
      invariant Gathered(applied, records, remaining)
      decreases |remaining|
    {
      LeastExists(remaining);
      var v: int :| v in remaining && forall u | u in remaining :: v <= u;
      GatheredMore(applied, records, remaining, v);
      applied := applied + [AppliedMigration(v, records[v])];
      remaining := remaining - {v};
    }
  }

  lemma ListedLater(applied: seq<AppliedMigration>, a: AppliedMigration, v: int)
    ensures Listed(applied, v) || a.version == v ==> Listed(applied + [a], v)
  {
    var more := applied + [a];
    assert more[|applied|] == a;
    assert forall i | 0 <= i < |applied| :: more[i] == applied[i];
  }

  lemma OrderIsDistinct(applied: seq<AppliedMigration>)
    requires InOrder(applied)
    ensures Sorting.Distinct(NewestFirst, applied)
  {
  }

  lemma ListsSorted(applied: seq<AppliedMigration>, sorted: seq<AppliedMigration>, records: Records)
    requires Lists(applied, records) && forall x :: x in sorted <==> x in applied
    ensures Lists(sorted, records)
  {
    forall i | 0 <= i < |sorted|
      ensures sorted[i].version in records && records[sorted[i].version] == sorted[i].record
    {
      assert sorted[i] in applied;
    }
    forall v | v in records ensures Listed(sorted, v) {
      assert Listed(applied, v);
      var i :| 0 <= i < |applied| && applied[i].version == v;
      assert applied[i] in sorted;
    }
  }

  method ByVersion(ms: seq<Migration>) returns (known: map<int, Migration>)
    ensures known == Catalog(ms)
  {
    known := map[];
    for i := 0 to |ms|
      invariant known == Catalog(ms[..i])
    {
      known := known[ms[i].version := ms[i]];
      assert ms[..i + 1][..i] == ms[..i];
    }
    assert ms[..|ms|] == ms;
  }

  predicate Covered(known: map<int, Migration>, rows: seq<AppliedMigration>) {
    forall i | 0 <= i < |rows| :: rows[i].version in known
  }

  function UndoAll<S>(exec: Engine<S>, known: map<int, Migration>, rows: seq<AppliedMigration>, copy: Copy<S>)
    : Answer<Copy<S>>
    requires Covered(known, rows)
  {
    if rows == [] then Done(copy)
    else
      var m := known[rows[0].version];
      match exec(m.downSql, copy.schema)
      case None => Failed(SqlFailed(m.version))
      case Some(schema) => UndoAll(exec, known, rows[1..], Copy(schema, copy.records - {m.version}))
  }

  /** The database the binaries share. */
  class Database<S> {
    var schema: S
    var history: Option<Records>

    constructor (schema: S)
      ensures State() == Store(schema, None)
    {
      this.schema, history := schema, None;
    }

    function State(): Store<S>
      reads this
    {
      Store(schema, history)
    }
  }

  class Runner<S> {
    const pool: Database<S>
    const exec: Engine<S>
    const migrations: seq<Migration>

    ghost predicate Valid() {
      Usable(migrations)
    }

    constructor (pool: Database<S>, exec: Engine<S>, migrations: seq<Migration>)
      requires Usable(migrations)
      ensures Valid() && this.pool == pool && this.exec == exec && this.migrations == migrations
    {
      this.pool, this.exec, this.migrations := pool, exec, migrations;
    }

    /** The first row that the embedded list does not explain. */
    method ValidateApplied(applied: seq<AppliedMigration>, ghost records: Records) returns (error: Option<RunError>)
      requires Valid() && Lists(applied, records) && InOrder(applied)
      ensures error == Drift(migrations, records)
    {
      var known := ByVersion(migrations);
      for i := 0 to |applied|
        invariant forall j | 0 <= j < i :: Fits(migrations, records, applied[j].version)
      {
        var row := applied[i];
        ghost var v := row.version;
        assert forall u | u in records && u < v :: Listed(applied, u) && Fits(migrations, records, u);
        CatalogHolds(migrations, v);
        if row.version !in known {
          error := Some(UnknownVersion(row.version));
          assert IsFirstMisfit(migrations, records, error.value);
          MisfitIsUnique(migrations, records, error.value, Drift(migrations, records).value);
          return;
        }
        var migration := known[row.version];
        if migration.name != row.record.name || migration.checksum != row.record.checksum {
          error := Some(DiffersFromEmbedded(row.version));
          forall k | 0 <= k < |migrations| && migrations[k].version == v
            ensures RecordOf(migrations[k]) != records[v]
          {
            CatalogFinds(migrations, k);
          }
          assert IsFirstMisfit(migrations, records, error.value);
          MisfitIsUnique(migrations, records, error.value, Drift(migrations, records).value);
          return;
        }
        assert RecordOf(migration) == records[v];
      }
      forall v | v in records ensures Fits(migrations, records, v) {
        assert Listed(applied, v);
      }
      error := None;
    }

    /** The versions of the rows. */
    method VersionsOf(applied: seq<AppliedMigration>, ghost records: Records) returns (versions: set<int>)
      requires Lists(applied, records)
      ensures versions == records.Keys
    {
      versions := {};
      for i := 0 to |applied|
        invariant versions <= records.Keys
        invariant forall j | 0 <= j < i :: applied[j].version in versions
      {
        versions := versions + {applied[i].version};
      }
      forall v | v in records ensures v in versions {
        assert Listed(applied, v);
      }
    }

    method Up() returns (error: Option<RunError>)
      requires Valid()
      modifies pool
      ensures Outcome(pool.State(), error) == M.Up(exec, migrations, old(pool.State()))
    {
      ghost var before := pool.State();
      var schema, records := pool.schema, pool.State().Applied();
      ghost var start := Copy(schema, records);
      var applied := LoadAppliedMigrations(records);
      error := ValidateApplied(applied, records);
      if error.Some? {
        return;
      }
      var appliedByVersion := VersionsOf(applied, records);
      ghost var target := Apply(exec, migrations, before.Applied(), start);
      for i := 0 to |migrations|
        invariant pool.State() == before
        invariant Apply(exec, migrations[i..], before.Applied(), Copy(schema, records)) == target
      {
        var migration := migrations[i];
        assert migrations[i..][0] == migration && migrations[i..][1..] == migrations[i + 1..];
        if migration.version in appliedByVersion {
          continue;
        }
        var executed := exec(migration.upSql, schema);
        if executed.None? {
          return Some(SqlFailed(migration.version));
        }
        if migration.version in records { // the primary key refuses the row
          return Some(RecordFailed(migration.version));
        }
        schema, records := executed.value, records[migration.version := RecordOf(migration)];
      }
      pool.schema, pool.history := schema, Some(records);
      error := None;
    }

    /** The rollback loop. */
    method RollBackRows(known: map<int, Migration>, rows: seq<AppliedMigration>, copy: Copy<S>)
      returns (answer: Answer<Copy<S>>)
      requires Covered(known, rows)
      ensures answer == UndoAll(exec, known, rows, copy)
    {
      var now := copy;
      for i := 0 to |rows|
        invariant UndoAll(exec, known, rows[i..], now) == UndoAll(exec, known, rows, copy)
      {
        assert rows[i..][0] == rows[i] && rows[i..][1..] == rows[i + 1..];
        var migration := known[rows[i].version];
        var executed := exec(migration.downSql, now.schema);
        if executed.None? {
          return Failed(SqlFailed(migration.version));
        }
        now := Copy(executed.value, now.records - {migration.version});
      }
      answer := Done(now);
    }

    method Down(steps: int) returns (error: Option<RunError>)
      requires Valid()
      modifies pool
      ensures Outcome(pool.State(), error) == M.Down(exec, migrations, steps, old(pool.State()))
    {
      if steps <= 0 {
        return Some(StepsNotPositive);
      }
      var records := pool.State().Applied();
      var applied := LoadAppliedMigrations(records);
      error := ValidateApplied(applied, records);
      if error.Some? {
        return;
      }
      var sorted := Sorting.Sorted(NewestFirst, applied);
      OrderIsDistinct(applied);
      Sorting.SortedSorts(NewestFirst, applied);
      Sorting.SameMembers(sorted, applied);
      ListsSorted(applied, sorted, records);
      ValidatedIsKnown(migrations, records);
      applied := sorted;
      var migrationsByVersion := ByVersion(migrations);
      var n := Clamped(steps, |applied|);
      forall v | v in migrationsByVersion ensures migrationsByVersion[v].version == v {
        CatalogHolds(migrations, v);
      }
      SortedUnwinds(migrationsByVersion, records, applied);
      UndoAllIsRollBack(exec, migrationsByVersion, steps, Copy(pool.schema, records), applied);
      var answer := RollBackRows(migrationsByVersion, applied[..n], Copy(pool.schema, records));
      if answer.Failed? {
        return Some(answer.error);
      }
      pool.schema, pool.history := answer.value.schema, Some(answer.value.records);
    }

    /** The greatest version on record, 0 if there is none: the only thing it may change is to create the table. */
    method CurrentVersion() returns (version: int)
      modifies pool
      ensures version == Newest(old(pool.State()).Applied())
      ensures pool.State() == Initialized(old(pool.State()))
    {
      var records := pool.State().Applied();
      var applied := LoadAppliedMigrations(records);
      version := if applied == [] then 0 else applied[|applied| - 1].version;
      assert forall v | v in records :: Listed(applied, v);
      pool.history := Some(records);
    }
  }

  lemma NewestIsFirst(applied: seq<AppliedMigration>, records: Records)
    requires applied != [] && Backwards(applied) && Lists(applied, records)
    ensures records != map[] && Greatest(records.Keys) == applied[0].version
    ensures Lists(applied[1..], records - {applied[0].version})
  {
  }

  function Clamped(k: nat, n: nat): nat {
    if k > n then n else k
  }

  lemma NoRowsLeft(applied: seq<AppliedMigration>, records: Records)
    requires applied == [] && Lists(applied, records)
    ensures records == map[]
  {
    forall v ensures v !in records {
      assert v in records ==> Listed(applied, v);
    }
  }

  /** Row by row, the next one is the newest of what is left of the table. */
  ghost predicate Unwinds(known: map<int, Migration>, records: Records, applied: seq<AppliedMigration>) {
    if applied == [] then records == map[]
    else
      var v := applied[0].version;
      && records != map[] && Greatest(records.Keys) == v
      && v in known && known[v].version == v
      && Unwinds(known, records - {v}, applied[1..])
  }

  lemma {:induction false} SortedUnwinds(
    known: map<int, Migration>, records: Records, applied: seq<AppliedMigration>)
    requires Backwards(applied) && Lists(applied, records)
    requires records.Keys <= known.Keys && forall v | v in known :: known[v].version == v
    ensures Unwinds(known, records, applied)
    decreases |applied|
  {
    if applied == [] {
      NoRowsLeft(applied, records);
    } else {
      NewestIsFirst(applied, records);
      SortedUnwinds(known, records - {applied[0].version}, applied[1..]);
    }
  }

  lemma {:induction false} UnwindingIsCovered(
    known: map<int, Migration>, records: Records, applied: seq<AppliedMigration>, n: nat)
    requires Unwinds(known, records, applied) && n <= |applied|
    ensures Covered(known, applied[..n])
    decreases |applied|
  {
    if n > 0 {
      var rest := applied[1..];
      UnwindingIsCovered(known, records - {applied[0].version}, rest, n - 1);
      forall i | 0 <= i < n ensures applied[..n][i].version in known {
        assert i > 0 ==> applied[..n][i] == rest[..n - 1][i - 1];
      }
    }
  }

  lemma PrefixTail(applied: seq<AppliedMigration>, n: nat)
    requires 0 < n <= |applied|
    ensures applied[..n] != [] && applied[..n][0] == applied[0] && applied[..n][1..] == applied[1..][..n - 1]
  {
  }

  /** The loop over the sorted and clamped rows undoes the newest migration `k` times. */
  lemma {:induction false} UndoAllIsRollBack<S>(
    exec: Engine<S>, known: map<int, Migration>, k: nat, copy: Copy<S>, applied: seq<AppliedMigration>)
    requires Unwinds(known, copy.records, applied) && copy.records.Keys <= known.Keys
    ensures Covered(known, applied[..Clamped(k, |applied|)])
    ensures UndoAll(exec, known, applied[..Clamped(k, |applied|)], copy) == RollBack(exec, known, k, copy)
    decreases |applied|
  {
    var n := Clamped(k, |applied|);
    UnwindingIsCovered(known, copy.records, applied, n);
    if n > 0 {
      var v := applied[0].version;
      PrefixTail(applied, n);
      match exec(known[v].downSql, copy.schema)
      case None =>
      case Some(schema) => UndoAllIsRollBack(exec, known, k - 1, Copy(schema, copy.records - {v}), applied[1..]);
    }
  }

  /** A runner exists exactly for a loadable directory. */
  method NewRunner<S>(pool: Database<S>, exec: Engine<S>, files: seq<L.Entry>, sha: string -> string)
    returns (runner: Option<Runner<S>>)
    ensures runner.Some? <==> L.Loadable(L.Classified(files))
    ensures runner.Some? ==> runner.value.Valid() && runner.value.pool == pool && runner.value.exec == exec
                             && L.LoadedFrom(L.Classified(files), sha, runner.value.migrations)
  {
    var loaded := L.Load(files, sha);
    match loaded
    case Failed(_) => runner := None;
    case Loaded(ms) =>
      LoadedIsUsable(files, sha, ms);
      var r := new Runner<S>(pool, exec, ms);
      runner := Some(r);
  }

  lemma LoadedIsUsable(files: seq<L.Entry>, sha: string -> string, ms: seq<Migration>)
    requires L.LoadedFrom(L.Classified(files), sha, ms)
    ensures Usable(ms)
  {
    forall i | 0 <= i < |ms| ensures ms[i].version > 0 {
      assert L.FromFiles(L.Classified(files), sha, ms[i]);
      var k :| L.IsScript(L.Classified(files), k, ms[i].version) && L.Classified(files)[k].name == ms[i].name;
    }
  }
}
