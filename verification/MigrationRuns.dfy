/**
 Whole runs of the migration runner: binaries of different ages work on one
 database. A binary embeds a prefix of one list that only ever grows at its
 end. The advisory lock makes their calls a sequence.
 */
module MigrationRuns {
  import opened Wrappers
  import opened M = MigrationSteps
  import L = Loader

  /** The rows that a list of migrations leaves. */
  function RecordsOf(ms: seq<Migration>): Records {
    if ms == [] then map[]
    else
      var last := ms[|ms| - 1];
      RecordsOf(ms[..|ms| - 1])[last.version := RecordOf(last)]
  }

  /** The schema that a list of migrations makes of an empty one. */
  function Fold<S>(exec: Engine<S>, ms: seq<Migration>, base: S): Option<S> {
    if ms == [] then Some(base)
    else
      match Fold(exec, ms[..|ms| - 1], base)
      case None => None
      case Some(schema) => exec(ms[|ms| - 1].upSql, schema)
  }

  /** The first `j` migrations are applied, and nothing else has touched the schema. */
  ghost predicate InStep<S>(exec: Engine<S>, all: seq<Migration>, base: S, j: nat, store: Store<S>) {
    j <= |all| && store.Applied() == RecordsOf(all[..j]) && Fold(exec, all[..j], base) == Some(store.schema)
  }

  /** If the down script runs after the up script, it undoes it. */
  ghost predicate Undone<S(!new)>(exec: Engine<S>, m: Migration) {
    forall schema | exec(m.upSql, schema).Some? ::
      var down := exec(m.downSql, exec(m.upSql, schema).value);
      down.None? || down.value == schema
  }

  // ---- The rows of a prefix ----

  lemma PrefixIsUsable(all: seq<Migration>, n: nat)
    requires Usable(all) && n <= |all|
    ensures Usable(all[..n])
  {
  }

  lemma Ordered(all: seq<Migration>, i: nat, j: nat)
    requires Usable(all) && i < j < |all|
    ensures all[i].version < all[j].version
  {
  }

  lemma {:induction false} RowOf(all: seq<Migration>, j: nat, i: nat)
    requires Usable(all) && i < j <= |all|
    ensures all[i].version in RecordsOf(all[..j]) && RecordsOf(all[..j])[all[i].version] == RecordOf(all[i])
  {
    assert all[..j][..j - 1] == all[..j - 1];
    if i < j - 1 {
      RowOf(all, j - 1, i);
      Ordered(all, i, j - 1);
    }
  }

  lemma {:induction false} RowFrom(all: seq<Migration>, j: nat, v: int)
    requires j <= |all|
    ensures v in RecordsOf(all[..j]) ==> exists i :: 0 <= i < j && all[i].version == v
  {
    if j > 0 {
      assert all[..j][..j - 1] == all[..j - 1];
      if all[j - 1].version != v {
        RowFrom(all, j - 1, v);
      }
    }
  }

  lemma NoRowFor(all: seq<Migration>, j: nat, n: nat)
    requires Usable(all) && j <= n < |all|
    ensures all[n].version !in RecordsOf(all[..j])
  {
    forall i | 0 <= i < j ensures all[i].version != all[n].version {
      Ordered(all, i, n);
    }
    RowFrom(all, j, all[n].version);
  }

  /** A binary that knows every applied migration finds no drift. */
  lemma NewerFindsNoDrift(all: seq<Migration>, j: nat, n: nat)
    requires Usable(all) && j <= n <= |all|
    ensures Validated(all[..n], RecordsOf(all[..j]))
  {
    forall v | v in RecordsOf(all[..j]) ensures Fits(all[..n], RecordsOf(all[..j]), v) {
      RowFrom(all, j, v);
      var i :| 0 <= i < j && all[i].version == v;
      RowOf(all, j, i);
      assert all[..n][i] == all[i];
    }
  }

  /** An older binary stops at the first migration it does not know. */
  lemma OlderFindsDrift(all: seq<Migration>, j: nat, n: nat)
    requires Usable(all) && n < j <= |all|
    ensures Drift(all[..n], RecordsOf(all[..j])) == Some(UnknownVersion(all[n].version))
  {
    var records, v := RecordsOf(all[..j]), all[n].version;
    RowOf(all, j, n);
    forall i | 0 <= i < n ensures all[..n][i].version != v {
      Ordered(all, i, n);
    }
    assert !L.HasVersion(all[..n], v);
    forall u | u in records && u < v ensures Fits(all[..n], records, u) {
      RowFrom(all, j, u);
      var i :| 0 <= i < j && all[i].version == u;
      RowOf(all, j, i);
      assert i > n ==> L.VersionOf(all[n]) < L.VersionOf(all[i]);
      assert i < n && all[..n][i] == all[i];
    }
    var e := UnknownVersion(v);
    assert IsFirstMisfit(all[..n], records, e);
    MisfitIsUnique(all[..n], records, e, Drift(all[..n], records).value);
  }

  lemma NewestRow(all: seq<Migration>, j: nat)
    requires Usable(all) && 0 < j <= |all|
    ensures var records := RecordsOf(all[..j]);
            && records != map[] && Greatest(records.Keys) == all[j - 1].version
            && records - {all[j - 1].version} == RecordsOf(all[..j - 1])
  {
    var records, v := RecordsOf(all[..j]), all[j - 1].version;
    RowOf(all, j, j - 1);
    forall u | u in records ensures u <= v {
      RowFrom(all, j, u);
      var i :| 0 <= i < j && all[i].version == u;
      if i < j - 1 {
        Ordered(all, i, j - 1);
      }
    }
    assert all[..j][..j - 1] == all[..j - 1];
    NoRowFor(all, j - 1, j - 1);
    var front := RecordsOf(all[..j - 1]);
    assert records == front[v := RecordOf(all[j - 1])] && v !in front;
    assert records - {v} == front;
  }

  // ---- Up ----

  lemma {:induction false} FoldStuck<S>(exec: Engine<S>, all: seq<Migration>, base: S, i: nat, n: nat)
    requires i <= n <= |all| && Fold(exec, all[..i], base).None?
    ensures Fold(exec, all[..n], base).None?
    decreases n - i
  {
    if i < n {
      assert all[..i + 1][..i] == all[..i];
      FoldStuck(exec, all, base, i + 1, n);
    }
  }

  /** The migrations applied already are skipped. */
  lemma {:induction false} Skips<S>(exec: Engine<S>, all: seq<Migration>, i: nat, j: nat, n: nat, copy: Copy<S>)
    requires Usable(all) && i <= j <= n <= |all|
    ensures Apply(exec, all[i..n], RecordsOf(all[..j]), copy) == Apply(exec, all[j..n], RecordsOf(all[..j]), copy)
    decreases j - i
  {
    if i < j {
      RowOf(all, j, i);
      assert all[i..n][0] == all[i] && all[i..n][1..] == all[i + 1..n];
      Skips(exec, all, i + 1, j, n, copy);
    }
  }

  /** The pending ones are run in order, up to the first that fails. */
  lemma {:induction false} AppliesPending<S>(
    exec: Engine<S>, all: seq<Migration>, base: S, i: nat, j: nat, n: nat, schema: S)
    requires Usable(all) && j <= i <= n <= |all| && Fold(exec, all[..i], base) == Some(schema)
    ensures var answer := Apply(exec, all[i..n], RecordsOf(all[..j]), Copy(schema, RecordsOf(all[..i])));
            match Fold(exec, all[..n], base)
            case Some(final) => answer == Done(Copy(final, RecordsOf(all[..n])))
            case None => answer.Failed? && answer.error.SqlFailed?
    decreases n - i
  {
    if i < n {
      var rest := all[i..n];
      assert rest[0] == all[i] && rest[1..] == all[i + 1..n];
      assert all[..i + 1][..i] == all[..i];
      NoRowFor(all, j, i);
      NoRowFor(all, i, i);
      match exec(all[i].upSql, schema)
      case None => FoldStuck(exec, all, base, i + 1, n);
      case Some(next) => AppliesPending(exec, all, base, i + 1, j, n, next);
    }
  }

  /** Up brings the database exactly to the binary's own list, or changes nothing. */
  lemma UpReaches<S>(exec: Engine<S>, all: seq<Migration>, base: S, j: nat, n: nat, store: Store<S>)
    requires Usable(all) && InStep(exec, all, base, j, store) && j <= n <= |all|
    ensures var r := Up(exec, all[..n], store);
            match Fold(exec, all[..n], base)
            case Some(final) => r == Outcome(Store(final, Some(RecordsOf(all[..n]))), None)
            case None => r.store == store && r.error.Some? && r.error.value.SqlFailed?
  {
    NewerFindsNoDrift(all, j, n);
    Skips(exec, all, 0, j, n, Copy(store.schema, store.Applied()));
    assert all[0..n] == all[..n];
    AppliesPending(exec, all, base, j, j, n, store.schema);
  }

  // ---- Down ----

  function Left(j: nat, k: nat): nat {
    if k > j then 0 else j - k
  }

  lemma {:induction false} RollBackReaches<S(!new)>(
    exec: Engine<S>, all: seq<Migration>, base: S, j: nat, n: nat, k: nat, copy: Copy<S>)
    requires Usable(all) && j <= n <= |all| && (forall m | m in all :: Undone(exec, m))
    requires copy.records == RecordsOf(all[..j]) && Fold(exec, all[..j], base) == Some(copy.schema)
    requires copy.records.Keys <= Catalog(all[..n]).Keys
    ensures match RollBack(exec, Catalog(all[..n]), k, copy)
            case Done(c) => c.records == RecordsOf(all[..Left(j, k)])
                            && Fold(exec, all[..Left(j, k)], base) == Some(c.schema)
            case Failed(e) => e.SqlFailed?
    decreases j
  {
    if j > 0 && k > 0 {
      NewestRow(all, j);
      var m := all[j - 1];
      PrefixIsUsable(all, n);
      assert all[..n][j - 1] == m;
      CatalogFinds(all[..n], j - 1);
      assert all[..j][..j - 1] == all[..j - 1];
      var before := Fold(exec, all[..j - 1], base).value;
      assert m in all && Undone(exec, m) && exec(m.upSql, before) == Some(copy.schema);
      match exec(m.downSql, copy.schema)
      case None =>
      case Some(schema) =>
        RollBackReaches(exec, all, base, j - 1, n, k - 1, Copy(schema, copy.records - {m.version}));
    }
  }

  /** Down takes the newest migrations away, as many as there are, exactly if their scripts run; else it changes nothing. */
  lemma DownReaches<S(!new)>(
    exec: Engine<S>, all: seq<Migration>, base: S, j: nat, n: nat, steps: int, store: Store<S>)
    requires Usable(all) && InStep(exec, all, base, j, store) && j <= n <= |all|
    requires steps > 0 && (forall m | m in all :: Undone(exec, m))
    ensures var r := Down(exec, all[..n], steps, store);
            && (r.error.None? <==> CanRollBack(exec, all[..n], steps, store))
            && if r.error.None? then InStep(exec, all, base, Left(j, steps), r.store)
               else r.store == store && r.error.value.SqlFailed?
  {
    DownSucceeds(exec, all[..n], steps, store);
    NewerFindsNoDrift(all, j, n);
    ValidatedIsKnown(all[..n], store.Applied());
    RollBackReaches(exec, all, base, j, n, steps, Copy(store.schema, store.Applied()));
  }

  // ---- Old and new binaries on one database ----

  datatype Command = UpCommand | DownCommand(steps: int) | VersionCommand

  /** A call by the binary that embeds the first `binary` migrations. */
  datatype Call = Call(binary: nat, command: Command)

  ghost function Perform<S>(exec: Engine<S>, all: seq<Migration>, call: Call, store: Store<S>): Outcome<S>
    requires call.binary <= |all|
  {
    match call.command
    case UpCommand => Up(exec, all[..call.binary], store)
    case DownCommand(steps) => Down(exec, all[..call.binary], steps, store)
    case VersionCommand => Outcome(Initialized(store), None)
  }

  ghost function PerformAll<S>(exec: Engine<S>, all: seq<Migration>, calls: seq<Call>, store: Store<S>): Store<S>
    requires forall c | c in calls :: c.binary <= |all|
  {
    if calls == [] then store
    else PerformAll(exec, all, calls[1..], Perform(exec, all, calls[0], store).store)
  }

  /** A binary that does not know an applied migration changes nothing. */
  lemma OldBinaryRefuses<S>(
    exec: Engine<S>, all: seq<Migration>, base: S, j: nat, n: nat, steps: int, store: Store<S>)
    requires Usable(all) && InStep(exec, all, base, j, store) && n < j && steps > 0
    ensures Up(exec, all[..n], store) == Outcome(store, Some(UnknownVersion(all[n].version)))
    ensures Down(exec, all[..n], steps, store) == Outcome(store, Some(UnknownVersion(all[n].version)))
  {
    OlderFindsDrift(all, j, n);
  }

  ghost predicate SomewhereInStep<S>(exec: Engine<S>, all: seq<Migration>, base: S, store: Store<S>) {
    exists j :: InStep(exec, all, base, j, store)
  }

  lemma CallKeepsStep<S(!new)>(exec: Engine<S>, all: seq<Migration>, base: S, call: Call, store: Store<S>)
    requires Usable(all) && SomewhereInStep(exec, all, base, store) && call.binary <= |all|
    requires forall m | m in all :: Undone(exec, m)
    ensures SomewhereInStep(exec, all, base, Perform(exec, all, call, store).store)
  {
    var j :| InStep(exec, all, base, j, store);
    var n := call.binary;
    match call.command
    case UpCommand =>
      if n < j {
        OldBinaryRefuses(exec, all, base, j, n, 1, store);
      } else {
        UpReaches(exec, all, base, j, n, store);
        assert InStep(exec, all, base, if Up(exec, all[..n], store).error.None? then n else j,
                      Up(exec, all[..n], store).store);
      }
    case DownCommand(steps) =>
      if steps > 0 {
        if n < j {
          OldBinaryRefuses(exec, all, base, j, n, steps, store);
        } else {
          DownReaches(exec, all, base, j, n, steps, store);
        }
      }
    case VersionCommand =>
      assert InStep(exec, all, base, j, Initialized(store));
  }

  /**
   Whatever binaries of whatever age do in whatever order, and whichever
   scripts fail, from an empty database: the applied migrations are always a
   prefix of the list, and the schema is that prefix run in order.
   */
  lemma {:induction false} BinariesStayInStep<S(!new)>(
    exec: Engine<S>, all: seq<Migration>, base: S, calls: seq<Call>, store: Store<S>)
    requires Usable(all) && SomewhereInStep(exec, all, base, store)
    requires (forall c | c in calls :: c.binary <= |all|) && (forall m | m in all :: Undone(exec, m))
    ensures SomewhereInStep(exec, all, base, PerformAll(exec, all, calls, store))
  {
    if calls != [] {
      CallKeepsStep(exec, all, base, calls[0], store);
      BinariesStayInStep(exec, all, base, calls[1..], Perform(exec, all, calls[0], store).store);
    }
  }

  lemma FromEmpty<S(!new)>(exec: Engine<S>, all: seq<Migration>, base: S, calls: seq<Call>)
    requires Usable(all)
    requires (forall c | c in calls :: c.binary <= |all|) && (forall m | m in all :: Undone(exec, m))
    ensures SomewhereInStep(exec, all, base, PerformAll(exec, all, calls, Store(base, None)))
  {
    assert InStep(exec, all, base, 0, Store(base, None));
    BinariesStayInStep(exec, all, base, calls, Store(base, None));
  }

  /** The reported version is that of the last applied migration, and 0 exactly when none is. */
  lemma VersionTellsStep<S>(exec: Engine<S>, all: seq<Migration>, base: S, j: nat, store: Store<S>)
    requires Usable(all) && InStep(exec, all, base, j, store)
    ensures Newest(store.Applied()) == if j == 0 then 0 else all[j - 1].version
    ensures Newest(store.Applied()) == 0 <==> store.Applied() == map[]
  {
    if j > 0 {
      NewestRow(all, j);
    }
  }

  // ---- Algebra ----

  /** Rolling back and going up again leads back to the same schema and rows. */
  lemma UpDownUp<S(!new)>(
    exec: Engine<S>, all: seq<Migration>, base: S, j: nat, n: nat, steps: int, store: Store<S>)
    requires Usable(all) && InStep(exec, all, base, j, store) && j <= n <= |all|
    requires steps > 0 && (forall m | m in all :: Undone(exec, m))
    ensures var up := Up(exec, all[..n], store);
            up.error.None? ==>
              Up(exec, all[..n], Down(exec, all[..n], steps, up.store).store) == up
  {
    UpReaches(exec, all, base, j, n, store);
    var up := Up(exec, all[..n], store);
    if up.error.None? {
      assert InStep(exec, all, base, n, up.store);
      DownReaches(exec, all, base, n, n, steps, up.store);
      var down := Down(exec, all[..n], steps, up.store);
      UpReaches(exec, all, base, if down.error.None? then Left(n, steps) else n, n, down.store);
    }
  }

  lemma {:induction false} AppliesNothing<S>(exec: Engine<S>, ms: seq<Migration>, already: Records, copy: Copy<S>)
    requires forall m | m in ms :: m.version in already
    ensures Apply(exec, ms, already, copy) == Done(copy)
  {
    if ms != [] {
      assert ms[0] in ms;
      AppliesNothing(exec, ms[1..], already, copy);
    }
  }

  ghost predicate Explained(ms: seq<Migration>, before: Records, after: Records, v: int)
    requires v in after
  {
    (v in before && before[v] == after[v]) || Fits(ms, after, v)
  }

  /** What a successful loop leaves: the old rows, and one for each migration that had none. */
  lemma {:induction false} AppliedRows<S>(exec: Engine<S>, ms: seq<Migration>, already: Records, copy: Copy<S>)
    ensures match Apply(exec, ms, already, copy)
            case Failed(_) => true
            case Done(c) =>
              && copy.records.Keys <= c.records.Keys
              && (forall m | m in ms :: m.version in already || m.version in c.records)
              && (forall v | v in c.records :: Explained(ms, copy.records, c.records, v))
  {
    if ms != [] {
      var m := ms[0];
      var executed := exec(m.upSql, copy.schema);
      if m.version in already {
        AppliedRows(exec, ms[1..], already, copy);
        RestExplains(exec, ms, already, copy, copy);
      } else if executed.Some? && m.version !in copy.records {
        var next := Copy(executed.value, copy.records[m.version := RecordOf(m)]);
        AppliedRows(exec, ms[1..], already, next);
        RestExplains(exec, ms, already, copy, next);
      }
    }
  }

  lemma RestExplains<S>(exec: Engine<S>, ms: seq<Migration>, already: Records, copy: Copy<S>, next: Copy<S>)
    requires ms != []
    requires next.records == copy.records
             || (ms[0].version !in copy.records && next.records == copy.records[ms[0].version := RecordOf(ms[0])])
    ensures match Apply(exec, ms[1..], already, next)
            case Failed(_) => true
            case Done(c) =>
              (forall v | v in c.records :: Explained(ms[1..], next.records, c.records, v)) ==>
                forall v | v in c.records :: Explained(ms, copy.records, c.records, v)
  {
  }

  /** A second Up changes nothing, whatever the database holds and whether or not the first succeeded. */
  lemma UpTwice<S>(exec: Engine<S>, ms: seq<Migration>, store: Store<S>)
    ensures var once := Up(exec, ms, store); Up(exec, ms, once.store) == once
  {
    var records := store.Applied();
    if Validated(ms, records) {
      var copy := Copy(store.schema, records);
      AppliedRows(exec, ms, records, copy);
      match Apply(exec, ms, records, copy)
      case Failed(_) =>
      case Done(c) =>
        forall v | v in c.records ensures Fits(ms, c.records, v) {
          assert Explained(ms, records, c.records, v);
          assert v in records ==> Fits(ms, records, v);
        }
        AppliesNothing(exec, ms, c.records, c);
    }
  }

  // ---- Drift, on the names and checksums ----

  /** Some migration of the list has the version, the name and the checksum of the row. */
  ghost predicate Agrees(ms: seq<Migration>, records: Records, v: int) {
    && v in records
    && exists i :: 0 <= i < |ms| && ms[i].version == v
                   && ms[i].name == records[v].name && ms[i].checksum == records[v].checksum
  }

  lemma AgreeingFits(ms: seq<Migration>, records: Records, v: int)
    requires v in records
    ensures Fits(ms, records, v) <==> Agrees(ms, records, v)
  {
    if Fits(ms, records, v) {
      var i :| 0 <= i < |ms| && ms[i].version == v && RecordOf(ms[i]) == records[v];
      assert ms[i].name == records[v].name && ms[i].checksum == records[v].checksum;
    }
    if Agrees(ms, records, v) {
      var i :| 0 <= i < |ms| && ms[i].version == v
               && ms[i].name == records[v].name && ms[i].checksum == records[v].checksum;
      assert RecordOf(ms[i]) == records[v];
    }
  }

  /** A row that nothing in the list agrees with stops every call; the first such row is the one that is named. */
  lemma MisfitIsRefused<S>(exec: Engine<S>, ms: seq<Migration>, steps: int, store: Store<S>, v: int)
    requires steps > 0 && v in store.Applied() && !Agrees(ms, store.Applied(), v)
    ensures Up(exec, ms, store).store == store && Up(exec, ms, store).error.Some?
    ensures Down(exec, ms, steps, store).store == store && Down(exec, ms, steps, store).error.Some?
    ensures (forall u | u in store.Applied() && u < v :: Agrees(ms, store.Applied(), u)) ==>
              var e := if L.HasVersion(ms, v) then DiffersFromEmbedded(v) else UnknownVersion(v);
              Up(exec, ms, store) == Outcome(store, Some(e)) && Down(exec, ms, steps, store) == Outcome(store, Some(e))
  {
    var records := store.Applied();
    AgreeingFits(ms, records, v);
    if forall u | u in records && u < v :: Agrees(ms, records, u) {
      forall u | u in records && u < v ensures Fits(ms, records, u) {
        AgreeingFits(ms, records, u);
      }
      var e := if L.HasVersion(ms, v) then DiffersFromEmbedded(v) else UnknownVersion(v);
      assert IsFirstMisfit(ms, records, e);
      MisfitIsUnique(ms, records, e, Drift(ms, records).value);
    }
  }

  /** A migration that was edited after it was applied, in name or script, is refused by Up and Down. */
  lemma EditedMigrationIsRefused<S>(exec: Engine<S>, ms: seq<Migration>, steps: int, store: Store<S>, k: nat)
    requires Usable(ms) && k < |ms| && steps > 0 && ms[k].version in store.Applied()
    requires var row := store.Applied()[ms[k].version]; ms[k].name != row.name || ms[k].checksum != row.checksum
    ensures Up(exec, ms, store).store == store && Up(exec, ms, store).error.Some?
    ensures Down(exec, ms, steps, store).store == store && Down(exec, ms, steps, store).error.Some?
    ensures (forall u | u in store.Applied() && u < ms[k].version :: Agrees(ms, store.Applied(), u)) ==>
              var e := DiffersFromEmbedded(ms[k].version);
              Up(exec, ms, store) == Outcome(store, Some(e)) && Down(exec, ms, steps, store) == Outcome(store, Some(e))
  {
    var v := ms[k].version;
    forall i | 0 <= i < |ms| && ms[i].version == v ensures i == k {
      assert i < k ==> L.VersionOf(ms[i]) < L.VersionOf(ms[k]);
      assert k < i ==> L.VersionOf(ms[k]) < L.VersionOf(ms[i]);
    }
    assert !Agrees(ms, store.Applied(), v) && L.HasVersion(ms, v);
    MisfitIsRefused(exec, ms, steps, store, v);
  }

  /** After a successful Up the table has exactly the name and checksum of every migration of the list, and no other row. */
  lemma UpRecords<S>(exec: Engine<S>, ms: seq<Migration>, store: Store<S>)
    requires Usable(ms) && Up(exec, ms, store).error.None?
    ensures var records := Up(exec, ms, store).store.Applied();
            && (forall i | 0 <= i < |ms| ::
                  && ms[i].version in records
                  && records[ms[i].version].name == ms[i].name && records[ms[i].version].checksum == ms[i].checksum)
            && (forall v | v in records :: Agrees(ms, records, v))
  {
    UpTwice(exec, ms, store);
    var after := Up(exec, ms, store).store.Applied();
    forall v | v in after ensures Agrees(ms, after, v) {
      assert Fits(ms, after, v);
      AgreeingFits(ms, after, v);
    }
    AppliedRows(exec, ms, store.Applied(), Copy(store.schema, store.Applied()));
    forall i | 0 <= i < |ms|
      ensures ms[i].version in after
              && after[ms[i].version].name == ms[i].name && after[ms[i].version].checksum == ms[i].checksum
    {
      assert ms[i] in ms;
      var v := ms[i].version;
      assert v in after && Agrees(ms, after, v);
      var k :| 0 <= k < |ms| && ms[k].version == v && ms[k].name == after[v].name && ms[k].checksum == after[v].checksum;
      assert i < k ==> L.VersionOf(ms[i]) < L.VersionOf(ms[k]);
      assert k < i ==> L.VersionOf(ms[k]) < L.VersionOf(ms[i]);
    }
  }

  /** Rolling back `a + b` steps is rolling back `a` and then `b`. */
  lemma {:induction false} RollBackSplits<S>(
    exec: Engine<S>, known: map<int, Migration>, a: nat, b: nat, copy: Copy<S>)
    requires copy.records.Keys <= known.Keys
    ensures match RollBack(exec, known, a, copy)
            case Failed(e) => RollBack(exec, known, a + b, copy) == Failed(e)
            case Done(c) => c.records.Keys <= copy.records.Keys
                            && (forall v | v in c.records :: c.records[v] == copy.records[v])
                            && RollBack(exec, known, a + b, copy) == RollBack(exec, known, b, c)
    decreases a
  {
    if a > 0 && copy.records != map[] {
      var v := Greatest(copy.records.Keys);
      match exec(known[v].downSql, copy.schema)
      case None =>
      case Some(schema) => RollBackSplits(exec, known, a - 1, b, Copy(schema, copy.records - {v}));
    }
  }

  lemma {:induction false} FewerRun<S>(exec: Engine<S>, known: map<int, Migration>, a: nat, b: nat, copy: Copy<S>)
    requires copy.records.Keys <= known.Keys && a <= b && Runs(exec, known, b, copy)
    ensures Runs(exec, known, a, copy)
    decreases a
  {
    if a > 0 && copy.records != map[] {
      var v := Greatest(copy.records.Keys);
      FewerRun(exec, known, a - 1, b - 1, Copy(exec(known[v].downSql, copy.schema).value, copy.records - {v}));
    }
  }

  /** Which script fails first does not depend on how many would follow it. */
  lemma {:induction false} FirstFailure<S>(exec: Engine<S>, known: map<int, Migration>, a: nat, b: nat, copy: Copy<S>)
    requires copy.records.Keys <= known.Keys && !Runs(exec, known, a, copy) && !Runs(exec, known, b, copy)
    ensures RollBack(exec, known, a, copy) == RollBack(exec, known, b, copy)
    decreases a
  {
    var v := Greatest(copy.records.Keys);
    match exec(known[v].downSql, copy.schema)
    case None =>
    case Some(schema) => FirstFailure(exec, known, a - 1, b - 1, Copy(schema, copy.records - {v}));
  }

  /** A rollback that fails later than its first `a` steps had something to undo in them. */
  lemma {:induction false} StepsShrink<S>(exec: Engine<S>, known: map<int, Migration>, a: nat, copy: Copy<S>)
    requires copy.records.Keys <= known.Keys && a > 0 && copy.records != map[] && Runs(exec, known, a, copy)
    ensures RollBack(exec, known, a, copy).Done?
    ensures RollBack(exec, known, a, copy).value.records != copy.records
  {
    var v := Greatest(copy.records.Keys);
    var next := Copy(exec(known[v].downSql, copy.schema).value, copy.records - {v});
    RunsDecides(exec, known, a, copy);
    RollBackSplits(exec, known, a - 1, 0, next);
  }

  /** Down succeeds exactly if the binary explains every row and the scripts it needs all run. */
  lemma DownSucceeds<S>(exec: Engine<S>, ms: seq<Migration>, steps: int, store: Store<S>)
    requires steps > 0
    ensures Down(exec, ms, steps, store).error.None? <==> CanRollBack(exec, ms, steps, store)
  {
    var records := store.Applied();
    if Validated(ms, records) {
      ValidatedIsKnown(ms, records);
      RunsDecides(exec, Catalog(ms), steps, Copy(store.schema, records));
    }
  }

  /** After a rollback the binary still explains every row. */
  lemma StillValidated<S>(exec: Engine<S>, ms: seq<Migration>, a: nat, copy: Copy<S>)
    requires Validated(ms, copy.records) && copy.records.Keys <= Catalog(ms).Keys
    ensures match RollBack(exec, Catalog(ms), a, copy)
            case Failed(_) => true
            case Done(c) => Validated(ms, c.records) && c.records.Keys <= Catalog(ms).Keys
  {
    RollBackSplits(exec, Catalog(ms), a, 0, copy);
    match RollBack(exec, Catalog(ms), a, copy)
    case Failed(_) =>
    case Done(c) =>
      forall v | v in c.records ensures Fits(ms, c.records, v) {
        assert Fits(ms, copy.records, v);
      }
  }

  /**
   The law Down(a); Down(b) == Down(a + b), for any database and any binary: it
   holds exactly with drift, if all a + b scripts run, or if one of the first
   min(a, b) fails.  Otherwise a first call succeeds that the one call takes back.
   */
  lemma DownAdds<S>(exec: Engine<S>, ms: seq<Migration>, a: int, b: int, store: Store<S>)
    requires a > 0 && b > 0
    ensures var both := Down(exec, ms, a + b, store);
            Down(exec, ms, b, Down(exec, ms, a, store).store) == both
            <==> !Validated(ms, store.Applied())
                 || CanRollBack(exec, ms, a + b, store) || !CanRollBack(exec, ms, if a < b then a else b, store)
  {
    var records, known := store.Applied(), Catalog(ms);
    if Validated(ms, records) {
      ValidatedIsKnown(ms, records);
      var copy := Copy(store.schema, records);
      RollBackSplits(exec, known, a, b, copy);
      StillValidated(exec, ms, a, copy);
      RunsDecides(exec, known, a, copy);
      RunsDecides(exec, known, b, copy);
      RunsDecides(exec, known, a + b, copy);
      if Runs(exec, known, a, copy) {
        FewerRun(exec, known, if a < b then a else b, a, copy);
        if !Runs(exec, known, a + b, copy) {
          StepsShrink(exec, known, a, copy);
        }
      } else {
        if Runs(exec, known, b, copy) {
          FewerRun(exec, known, if a < b then a else b, b, copy);
          if a < b { FewerRun(exec, known, a, b, copy); }
        } else {
          FirstFailure(exec, known, a, b, copy);
        }
      }
    }
  }

  /** In particular wherever no script fails. */
  lemma DownAddsWithoutFailures<S(!new)>(exec: Engine<S>, ms: seq<Migration>, a: int, b: int, store: Store<S>)
    requires a > 0 && b > 0 && forall sql, schema :: exec(sql, schema).Some?
    ensures Down(exec, ms, b, Down(exec, ms, a, store).store) == Down(exec, ms, a + b, store)
  {
    DownAdds(exec, ms, a, b, store);
    if Validated(ms, store.Applied()) {
      ValidatedIsKnown(ms, store.Applied());
      AllRun(exec, Catalog(ms), a + b, Copy(store.schema, store.Applied()));
    }
  }

  lemma {:induction false} AllRun<S(!new)>(exec: Engine<S>, known: map<int, Migration>, k: nat, copy: Copy<S>)
    requires copy.records.Keys <= known.Keys && forall sql, schema :: exec(sql, schema).Some?
    ensures Runs(exec, known, k, copy)
    decreases k
  {
    if k > 0 && copy.records != map[] {
      var v := Greatest(copy.records.Keys);
      assert exec(known[v].downSql, copy.schema).Some?;
      AllRun(exec, known, k - 1, Copy(exec(known[v].downSql, copy.schema).value, copy.records - {v}));
    }
  }

  /** Two migrations on a database that counts them; the older one cannot be undone. */
  const OLDER: Migration := L.Migration(1, "a", "up", "stuck", "")
  const NEWER: Migration := L.Migration(2, "b", "up", "down", "")

  function Counting(sql: string, count: int): Option<int> {
    if sql == "up" then Some(count + 1) else if sql == "down" then Some(count - 1) else None
  }

  /** Two single steps leave the newer migration undone, two steps at once leave everything. */
  lemma DownAddsFails()
    ensures var ms := [OLDER, NEWER];
            var store := Up(Counting, ms, Store(0, None)).store;
            && Usable(ms) && store == Store(2, Some(RecordsOf(ms)))
            && Down(Counting, ms, 1, Down(Counting, ms, 1, store).store).store == Store(1, Some(RecordsOf([OLDER])))
            && Down(Counting, ms, 2, store) == Outcome(store, Some(SqlFailed(1)))
  {
    var all := [OLDER, NEWER];
    assert all[..0] == [] && all[..1] == [OLDER] && all[..2] == all;
    assert RecordsOf([OLDER]) == map[1 := RecordOf(OLDER)];
    assert Fold(Counting, [OLDER], 0) == Some(1);
    assert Fold(Counting, all, 0) == Some(2);
    UpReaches(Counting, all, 0, 0, 2, Store(0, None));
    var two := Copy(2, RecordsOf(all));
    var one := Copy(1, RecordsOf([OLDER]));
    NewestRow(all, 2);
    NewestRow(all, 1);
    CatalogFinds(all, 0);
    CatalogFinds(all, 1);
    NewerFindsNoDrift(all, 2, 2);
    NewerFindsNoDrift(all, 1, 2);
    ValidatedIsKnown(all, two.records);
    ValidatedIsKnown(all, one.records);
    assert RollBack(Counting, Catalog(all), 0, one) == Done(one);
    assert RollBack(Counting, Catalog(all), 1, two) == Done(one);
    assert RollBack(Counting, Catalog(all), 1, one) == Failed(SqlFailed(1));
    assert RollBack(Counting, Catalog(all), 2, two) == Failed(SqlFailed(1));
  }
}
