/**
 What the migration runner does to a database. The schema is a value of any
 type; `exec` runs a script on it and answers None when the script fails.
 */
module MigrationSteps {
  import opened Wrappers
  import L = Loader

  type Migration = L.Migration

  type Engine<!S> = (string, S) -> Option<S>

  /** A row of schema_migrations without its version. */
  datatype Record = Record(name: string, checksum: string)

  type Records = map<int, Record>

  /** `history` is None until the table exists. */
  datatype Store<S> = Store(schema: S, history: Option<Records>)
  {
    function Applied(): Records {
      if history.Some? then history.value else map[]
    }
  }

  datatype RunError =
    | StepsNotPositive
    | UnknownVersion(version: int)
    | DiffersFromEmbedded(version: int)
    | SqlFailed(version: int)
    | RecordFailed(version: int)

  datatype Answer<T> = Done(value: T) | Failed(error: RunError)

  /** The working copy of a transaction. */
  datatype Copy<S> = Copy(schema: S, records: Records)

  datatype Outcome<S> = Outcome(store: Store<S>, error: Option<RunError>)

  function RecordOf(m: Migration): Record {
    Record(m.name, m.checksum)
  }

  /** What the loader guarantees of the embedded list. */
  ghost predicate Usable(ms: seq<Migration>) {
    L.Ascending(ms) && forall i | 0 <= i < |ms| :: ms[i].version > 0
  }

  // ---- Drift ----

  ghost predicate Fits(ms: seq<Migration>, records: Records, v: int)
    requires v in records
  {
    exists i :: 0 <= i < |ms| && ms[i].version == v && RecordOf(ms[i]) == records[v]
  }

  ghost predicate Validated(ms: seq<Migration>, records: Records) {
    forall v | v in records :: Fits(ms, records, v)
  }

  ghost predicate IsFirstMisfit(ms: seq<Migration>, records: Records, e: RunError) {
    && (e.UnknownVersion? || e.DiffersFromEmbedded?)
    && e.version in records && !Fits(ms, records, e.version)
    && (forall u | u in records && u < e.version :: Fits(ms, records, u))
    && (e.UnknownVersion? <==> !L.HasVersion(ms, e.version))
  }

  lemma {:induction false} LeastExists(s: set<int>)
    requires s != {}
    ensures exists v :: v in s && forall u | u in s :: v <= u
  {
    L.HasMember(s);
    var x :| x in s;
    if s - {x} != {} {
      LeastExists(s - {x});
      var y :| y in s - {x} && forall u | u in s - {x} :: y <= u;
      var v := if x < y then x else y;
      forall u | u in s ensures v <= u {
        assert u == x || u in s - {x};
      }
    } else {
      forall u | u in s ensures u == x {
        assert u == x || u in s - {x};
      }
    }
  }

  lemma MisfitExists(ms: seq<Migration>, records: Records)
    requires !Validated(ms, records)
    ensures exists e :: IsFirstMisfit(ms, records, e)
  {
    var misfits := set v | v in records && !Fits(ms, records, v);
    var x :| x in records && !Fits(ms, records, x);
    assert x in misfits;
    LeastExists(misfits);
    var v :| v in misfits && forall u | u in misfits :: v <= u;
    forall u | u in records && u < v ensures Fits(ms, records, u) {
      assert u !in misfits;
    }
    assert IsFirstMisfit(ms, records, if L.HasVersion(ms, v) then DiffersFromEmbedded(v) else UnknownVersion(v));
  }

  lemma MisfitIsUnique(ms: seq<Migration>, records: Records, a: RunError, b: RunError)
    requires IsFirstMisfit(ms, records, a) && IsFirstMisfit(ms, records, b)
    ensures a == b
  {
  }

  ghost function Drift(ms: seq<Migration>, records: Records): (e: Option<RunError>)
    ensures e.None? <==> Validated(ms, records)
    ensures e.Some? ==> IsFirstMisfit(ms, records, e.value)
  {
    if Validated(ms, records) then None
    else
      MisfitExists(ms, records);
      var e :| IsFirstMisfit(ms, records, e);
      Some(e)
  }

  // ---- What the operations do ----

  /** The scripts of a list in order, without those already applied at the start. */
  function Apply<S>(exec: Engine<S>, ms: seq<Migration>, already: Records, copy: Copy<S>): Answer<Copy<S>> {
    if ms == [] then Done(copy)
    else
      var m := ms[0];
      if m.version in already then Apply(exec, ms[1..], already, copy)
      else
        match exec(m.upSql, copy.schema)
        case None => Failed(SqlFailed(m.version))
        case Some(schema) =>
          if m.version in copy.records then Failed(RecordFailed(m.version))
          else Apply(exec, ms[1..], already, Copy(schema, copy.records[m.version := RecordOf(m)]))
  }

  ghost function Greatest(s: set<int>): (g: int)
    requires s != {}
    ensures g in s && forall x | x in s :: x <= g
  {
    L.HasMember(s);
    var x :| x in s;
    assert forall y | y in s :: y == x || y in s - {x};
    if s == {x} then x
    else
      var g := Greatest(s - {x});
      if x < g then g else x
  }

  /** From version to migration, a later one of the same version winning. */
  function Catalog(ms: seq<Migration>): map<int, Migration> {
    if ms == [] then map[]
    else
      var last := ms[|ms| - 1];
      Catalog(ms[..|ms| - 1])[last.version := last]
  }

  lemma {:induction false} CatalogHolds(ms: seq<Migration>, v: int)
    ensures v in Catalog(ms) <==> L.HasVersion(ms, v)
    ensures v in Catalog(ms) ==> Catalog(ms)[v] in ms && Catalog(ms)[v].version == v
  {
    if ms != [] {
      var n := |ms| - 1;
      var front := ms[..n];
      CatalogHolds(front, v);
      assert forall i | 0 <= i < n :: front[i] == ms[i];
      assert ms[n].version == v ==> L.HasVersion(ms, v);
      assert L.HasVersion(front, v) ==> L.HasVersion(ms, v);
      assert L.HasVersion(ms, v) && ms[n].version != v ==> L.HasVersion(front, v);
    }
  }

  lemma CatalogFinds(ms: seq<Migration>, i: nat)
    requires L.Ascending(ms) && i < |ms|
    ensures ms[i].version in Catalog(ms) && Catalog(ms)[ms[i].version] == ms[i]
  {
  }

  /** `k` times: undo the newest migration there is. */
  ghost function RollBack<S>(exec: Engine<S>, known: map<int, Migration>, k: nat, copy: Copy<S>): Answer<Copy<S>>
    requires copy.records.Keys <= known.Keys
  {
    if k == 0 || copy.records == map[] then Done(copy)
    else
      var v := Greatest(copy.records.Keys);
      match exec(known[v].downSql, copy.schema)
      case None => Failed(SqlFailed(v))
      case Some(schema) => RollBack(exec, known, k - 1, Copy(schema, copy.records - {v}))
  }

  /** The newest `k` down scripts, or all if there are fewer, run one after the other. */
  ghost predicate Runs<S>(exec: Engine<S>, known: map<int, Migration>, k: nat, copy: Copy<S>)
    requires copy.records.Keys <= known.Keys
  {
    k == 0 || copy.records == map[]
    || var v := Greatest(copy.records.Keys);
       match exec(known[v].downSql, copy.schema)
       case None => false
       case Some(schema) => Runs(exec, known, k - 1, Copy(schema, copy.records - {v}))
  }

  lemma {:induction false} RunsDecides<S>(exec: Engine<S>, known: map<int, Migration>, k: nat, copy: Copy<S>)
    requires copy.records.Keys <= known.Keys
    ensures Runs(exec, known, k, copy) <==> RollBack(exec, known, k, copy).Done?
  {
    if k > 0 && copy.records != map[] {
      var v := Greatest(copy.records.Keys);
      match exec(known[v].downSql, copy.schema)
      case None =>
      case Some(schema) => RunsDecides(exec, known, k - 1, Copy(schema, copy.records - {v}));
    }
  }

  /** All or nothing: a transaction commits its copy or leaves the store alone. */
  function Committed<S>(store: Store<S>, answer: Answer<Copy<S>>): Outcome<S> {
    match answer
    case Done(copy) => Outcome(Store(copy.schema, Some(copy.records)), None)
    case Failed(e) => Outcome(store, Some(e))
  }

  ghost function Up<S>(exec: Engine<S>, ms: seq<Migration>, store: Store<S>): Outcome<S> {
    var records := store.Applied();
    match Drift(ms, records)
    case Some(e) => Outcome(store, Some(e))
    case None => Committed(store, Apply(exec, ms, records, Copy(store.schema, records)))
  }

  ghost function Down<S>(exec: Engine<S>, ms: seq<Migration>, steps: int, store: Store<S>): Outcome<S> {
    if steps <= 0 then Outcome(store, Some(StepsNotPositive))
    else
      var records := store.Applied();
      match Drift(ms, records)
      case Some(e) => Outcome(store, Some(e))
      case None =>
        ValidatedIsKnown(ms, records);
        Committed(store, RollBack(exec, Catalog(ms), steps, Copy(store.schema, records)))
  }

  lemma ValidatedIsKnown(ms: seq<Migration>, records: Records)
    requires Validated(ms, records)
    ensures records.Keys <= Catalog(ms).Keys
  {
    forall v | v in records ensures v in Catalog(ms) {
      assert Fits(ms, records, v);
      CatalogHolds(ms, v);
    }
  }

  /** Whether the binary explains every row and its newest `k` down scripts run. */
  ghost predicate CanRollBack<S>(exec: Engine<S>, ms: seq<Migration>, k: nat, store: Store<S>) {
    && Validated(ms, store.Applied())
    && store.Applied().Keys <= Catalog(ms).Keys
    && Runs(exec, Catalog(ms), k, Copy(store.schema, store.Applied()))
  }

  ghost function Newest(records: Records): int {
    if records == map[] then 0 else Greatest(records.Keys)
  }

  /** Asking for the version creates the table if it is missing. */
  function Initialized<S>(store: Store<S>): Store<S> {
    store.(history := Some(store.Applied()))
  }
}
