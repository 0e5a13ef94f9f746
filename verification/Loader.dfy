/**
 The migration loader: from a directory of files to a list of migrations.
 SHA-256 is a parameter.
 */
module Loader {
  import opened Wrappers
  import opened FileNames
  import Sorting
  import T = Text

  const MAX_VERSION: int := 0x7FFF_FFFF_FFFF_FFFF

  /** A directory entry; `body` is None when the file cannot be read. */
  datatype Entry = Entry(name: string, isDir: bool, body: Option<string>)

  datatype Migration = Migration(version: int, name: string, upSql: string, downSql: string, checksum: string)
  {
    function Body(d: Direction): string {
      if d.Up? then upSql else downSql
    }
  }

  datatype LoadError = InvalidFilename | InvalidVersion | Unreadable | InconsistentNames | Duplicate | Incomplete

  datatype LoadResult = Loaded(migrations: seq<Migration>) | Failed(error: LoadError)

  // ---- Files ----

  predicate HasSqlExtension(file: string) {
    |file| >= 4 && file[|file| - 4..] == ".sql"
  }

  /** What the loader makes of one entry. */
  datatype File =
    | Ignored
    | Rejected(error: LoadError)
    | Script(version: int, name: string, direction: Direction, body: string)

  function Classify(e: Entry): (f: File)
    ensures f.Script? ==> 0 < f.version <= MAX_VERSION && Some(f.body) == e.body
  {
    if e.isDir then Ignored
    else
      match ParseName(e.name)
      case None => if HasSqlExtension(e.name) then Rejected(InvalidFilename) else Ignored
      case Some(f) =>
        var version := T.DecimalValue(f.digits);
        if version > MAX_VERSION || version <= 0 then Rejected(InvalidVersion)
        else if e.body.None? then Rejected(Unreadable)
        else Script(version, f.name, f.direction, e.body.value)
  }

  /** What a name of the pattern is made of, character by character. */
  ghost predicate IsNamed(file: string, digits: string, name: string, d: Direction) {
    && digits != "" && (forall c | c in digits :: '0' <= c <= '9')
    && name != "" && (forall c | c in name :: 'a' <= c <= 'z' || '0' <= c <= '9' || c == '_')
    && file == digits + ("_" + (name + if d.Up? then ".up.sql" else ".down.sql"))
  }

  /** A file of the pattern is the script its name says, with a version from 1 to the largest of 64 bits, if it can be read. */
  lemma NamedIsClassified(e: Entry, digits: string, name: string, d: Direction)
    requires !e.isDir && IsNamed(e.name, digits, name, d)
    ensures Classify(e)
         == if T.DecimalValue(digits) == 0 || T.DecimalValue(digits) > 9_223_372_036_854_775_807 then
              Rejected(InvalidVersion)
            else if e.body == None then Rejected(Unreadable)
            else Script(T.DecimalValue(digits), name, d, e.body.value)
  {
    NameParses(digits, name, d);
  }

  /** Any other file is ignored unless its name ends in .sql, and directories always are. */
  lemma OthersAreClassified(e: Entry)
    requires e.isDir || forall digits, name, d :: !IsNamed(e.name, digits, name, d)
    ensures Classify(e)
         == if !e.isDir && |e.name| >= 4 && e.name[|e.name| - 4..] == ".sql" then Rejected(InvalidFilename) else Ignored
  {
    OnlyNamesParse(e.name);
    var f := ParseName(e.name);
    assert f.Some? ==> IsNamed(e.name, f.value.digits, f.value.name, f.value.direction);
  }

  function Classified(entries: seq<Entry>): (files: seq<File>)
    ensures |files| == |entries| && forall i | 0 <= i < |files| :: files[i] == Classify(entries[i])
  {
    seq(|entries|, i requires 0 <= i < |entries| => Classify(entries[i]))
  }

  // ---- What loading should mean ----

  predicate IsScript(files: seq<File>, i: int, v: int) {
    0 <= i < |files| && files[i].Script? && files[i].version == v
  }

  predicate IsPart(files: seq<File>, i: int, v: int, d: Direction) {
    IsScript(files, i, v) && files[i].direction == d
  }

  function BodyOf(files: seq<File>, i: int): string
    requires 0 <= i < |files| && files[i].Script?
  {
    files[i].body
  }

  /**
   File `i` supplies one direction of version `v`: it has a body, and every
   other file of that version and direction is empty and comes before it.
   */
  ghost predicate Supplies(files: seq<File>, i: int, v: int, d: Direction) {
    && IsPart(files, i, v, d) && BodyOf(files, i) != ""
    && forall j | IsPart(files, j, v, d) && j != i :: j < i && BodyOf(files, j) == ""
  }

  ghost predicate Supplied(files: seq<File>, v: int, d: Direction) {
    exists k :: Supplies(files, k, v, d)
  }

  /** The exact condition under which a directory loads. */
  ghost predicate Loadable(files: seq<File>) {
    && (forall i | 0 <= i < |files| :: !files[i].Rejected?)
    && (forall i, j, v | IsScript(files, i, v) && IsScript(files, j, v) ::
          files[i].name == files[j].name)
    && (forall i, v | IsScript(files, i, v) :: Supplied(files, v, Up) && Supplied(files, v, Down))
  }

  /** What each error says about the directory. */
  ghost predicate Explains(files: seq<File>, error: LoadError) {
    match error
    case InconsistentNames =>
      exists i, j, v :: IsScript(files, i, v) && IsScript(files, j, v)
                        && files[i].name != files[j].name
    case Duplicate =>
      exists i, j, v, d :: i < j && IsPart(files, i, v, d) && IsPart(files, j, v, d) && BodyOf(files, i) != ""
    case Incomplete =>
      exists i, v, d :: IsScript(files, i, v) && Bodiless(files, v, d)
    case _ => exists i :: 0 <= i < |files| && files[i] == Rejected(error)
  }

  ghost predicate Bodiless(files: seq<File>, v: int, d: Direction) {
    forall j | IsPart(files, j, v, d) :: BodyOf(files, j) == ""
  }

  function VersionOf(m: Migration): int {
    m.version
  }

  ghost predicate Ascending(ms: seq<Migration>) {
    Sorting.Ascending(VersionOf, ms)
  }

  /** A migration holds what the files of its version hold. */
  ghost predicate FromFiles(files: seq<File>, sha: string -> string, m: Migration) {
    && (exists i :: IsScript(files, i, m.version) && files[i].name == m.name)
    && (forall d: Direction ::
          m.Body(d) != "" && exists i :: IsPart(files, i, m.version, d) && BodyOf(files, i) == m.Body(d))
    && m.checksum == sha(m.upSql + "\0" + m.downSql)
  }

  ghost predicate LoadedFrom(files: seq<File>, sha: string -> string, ms: seq<Migration>) {
    && Ascending(ms)
    && (forall i, v | IsScript(files, i, v) :: exists k :: 0 <= k < |ms| && ms[k].version == v)
    && (forall k | 0 <= k < |ms| :: FromFiles(files, sha, ms[k]))
  }

  // ---- The grouping loop ----

  datatype Parts = Parts(name: string, up: string, down: string)
  {
    function Body(d: Direction): string {
      if d.Up? then up else down
    }

    function With(d: Direction, body: string): Parts {
      if d.Up? then this.(up := body) else this.(down := body)
    }

    function Build(version: int, sha: string -> string): Migration {
      Migration(version, name, up, down, sha(up + "\0" + down))
    }
  }

  /** What is recorded of one direction of version `v` after a prefix of the files. */
  ghost predicate Recorded(files: seq<File>, v: int, d: Direction, body: string) {
    if body == "" then Bodiless(files, v, d)
    else exists i :: Supplies(files, i, v, d) && BodyOf(files, i) == body
  }

  ghost predicate GroupOk(files: seq<File>, v: int, p: Parts) {
    && (exists i :: IsScript(files, i, v))
    && (forall i | IsScript(files, i, v) :: files[i].name == p.name)
    && (forall d: Direction :: Recorded(files, v, d, p.Body(d)))
  }

  ghost predicate Grouped(files: seq<File>, parts: map<int, Parts>) {
    && (forall i | 0 <= i < |files| :: !files[i].Rejected?)
    && (forall i, v | IsScript(files, i, v) :: v in parts)
    && (forall v | v in parts :: GroupOk(files, v, parts[v]))
  }

  /** A file that is no script changes no group. */
  lemma GroupedIgnoring(files: seq<File>, e: File, parts: map<int, Parts>)
    requires Grouped(files, parts) && e.Ignored?
    ensures Grouped(files + [e], parts)
  {
    forall v | v in parts ensures GroupOk(files + [e], v, parts[v]) {
      assert GroupOk(files, v, parts[v]);
      GroupUntouched(files, e, v, parts[v]);
    }
    forall i, v | IsScript(files + [e], i, v) ensures v in parts {
      assert IsScript(files, i, v);
    }
  }

  lemma GroupUntouched(files: seq<File>, e: File, v: int, p: Parts)
    requires GroupOk(files, v, p) && !(e.Script? && e.version == v)
    ensures GroupOk(files + [e], v, p)
  {
    var more := files + [e];
    assert forall i :: IsScript(more, i, v) <==> IsScript(files, i, v);
    assert forall i, d :: IsPart(more, i, v, d) <==> IsPart(files, i, v, d);
    assert forall i | IsScript(files, i, v) :: more[i] == files[i];
    forall d: Direction ensures Recorded(more, v, d, p.Body(d)) {
      DirectionUntouched(files, e, v, d, p.Body(d));
    }
  }

  lemma DirectionUntouched(files: seq<File>, e: File, v: int, d: Direction, body: string)
    requires Recorded(files, v, d, body) && !IsPart([e], 0, v, d)
    ensures Recorded(files + [e], v, d, body)
  {
    var more := files + [e];
    assert forall i :: IsPart(more, i, v, d) <==> IsPart(files, i, v, d);
    assert forall i | IsPart(files, i, v, d) :: more[i] == files[i];
    if body != "" {
      var i :| Supplies(files, i, v, d) && BodyOf(files, i) == body;
      assert Supplies(more, i, v, d);
    }
  }

  /** A script whose direction has no body yet is recorded. */
  lemma DirectionRecorded(files: seq<File>, e: File, v: int, d: Direction)
    requires Recorded(files, v, d, "") && IsPart([e], 0, v, d)
    ensures Recorded(files + [e], v, d, e.body)
  {
    var more := files + [e];
    var n := |files|;
    assert forall i | 0 <= i < n :: more[i] == files[i];
    assert forall i | 0 <= i < n :: IsPart(more, i, v, d) <==> IsPart(files, i, v, d);
    if e.body != "" {
      assert Supplies(more, n, v, d);
    }
  }

  lemma GroupedScript(files: seq<File>, e: File, parts: map<int, Parts>, p: Parts)
    requires Grouped(files, parts) && e.Script?
    requires var s := e;
             && p.name == s.name && p.Body(s.direction) == ""
             && if s.version in parts then p == parts[s.version] else p == Parts(s.name, "", "")
    ensures Grouped(files + [e], parts[e.version := p.With(e.direction, e.body)])
  {
    var s := e;
    var v := s.version;
    var more := files + [e];
    var after := parts[v := p.With(s.direction, s.body)];
    assert IsPart([e], 0, v, s.direction);
    forall u | u in after && u != v ensures GroupOk(more, u, after[u]) {
      assert GroupOk(files, u, parts[u]);
      GroupUntouched(files, e, u, parts[u]);
    }
    assert v !in parts ==> forall i :: !IsScript(files, i, v);
    assert v in parts ==> GroupOk(files, v, parts[v]);
    forall d: Direction ensures Recorded(more, v, d, after[v].Body(d)) {
      assert Recorded(files, v, d, p.Body(d));
      if d == s.direction {
        DirectionRecorded(files, e, v, d);
      } else {
        DirectionUntouched(files, e, v, d, p.Body(d));
      }
    }
    assert IsScript(more, |files|, v);
    forall i | IsScript(more, i, v) ensures more[i].name == p.name {
      assert i < |files| ==> more[i] == files[i] && IsScript(files, i, v);
    }
    assert GroupOk(more, v, after[v]);
    forall i, u | IsScript(more, i, u) ensures u in after {
      assert i < |files| ==> IsScript(files, i, u);
    }
  }

  // ---- Why each error is right ----

  /** Whatever an error says, it says why the directory is not loadable. */
  lemma ExplainedIsUnloadable(files: seq<File>, error: LoadError)
    requires Explains(files, error)
    ensures !Loadable(files)
  {
  }

  lemma OtherName(files: seq<File>, n: nat, p: Parts)
    requires n < |files| && files[n].Script? && GroupOk(files[..n], files[n].version, p)
    requires p.name != files[n].name
    ensures Explains(files, InconsistentNames)
  {
    var v := files[n].version;
    var i :| IsScript(files[..n], i, v);
    assert IsScript(files, i, v) && IsScript(files, n, v);
  }

  lemma BodyTwice(files: seq<File>, n: nat, p: Parts)
    requires n < |files| && files[n].Script? && GroupOk(files[..n], files[n].version, p)
    requires p.Body(files[n].direction) != ""
    ensures Explains(files, Duplicate)
  {
    var v, d := files[n].version, files[n].direction;
    assert Recorded(files[..n], v, d, p.Body(d));
    var i :| Supplies(files[..n], i, v, d);
    assert IsPart(files, i, v, d) && IsPart(files, n, v, d) && BodyOf(files, i) != "";
  }

  lemma MissingBody(files: seq<File>, v: int, p: Parts)
    requires GroupOk(files, v, p) && (p.up == "" || p.down == "")
    ensures Explains(files, Incomplete)
  {
    var i :| IsScript(files, i, v);
    var d := if p.up == "" then Up else Down;
    assert Recorded(files, v, d, p.Body(d));
    assert Bodiless(files, v, d);
  }

  lemma CompleteIsLoadable(files: seq<File>, parts: map<int, Parts>)
    requires Grouped(files, parts)
    requires forall v | v in parts :: parts[v].up != "" && parts[v].down != ""
    ensures Loadable(files)
  {
    forall i, j, v | IsScript(files, i, v) && IsScript(files, j, v)
      ensures files[i].name == files[j].name
    {
      assert GroupOk(files, v, parts[v]);
    }
    forall i, v | IsScript(files, i, v) ensures Supplied(files, v, Up) && Supplied(files, v, Down) {
      assert GroupOk(files, v, parts[v]);
      assert Recorded(files, v, Up, parts[v].Body(Up)) && Recorded(files, v, Down, parts[v].Body(Down));
    }
  }

  lemma BuiltFromFiles(files: seq<File>, sha: string -> string, v: int, p: Parts)
    requires GroupOk(files, v, p) && p.up != "" && p.down != ""
    ensures FromFiles(files, sha, p.Build(v, sha))
  {
    var m := p.Build(v, sha);
    var i :| IsScript(files, i, v);
    forall d: Direction
      ensures m.Body(d) != "" && exists k :: IsPart(files, k, m.version, d) && BodyOf(files, k) == m.Body(d)
    {
      assert Recorded(files, v, d, p.Body(d));
      var k :| Supplies(files, k, v, d) && BodyOf(files, k) == p.Body(d);
      assert IsPart(files, k, m.version, d);
    }
  }

  // ---- The loader ----

  lemma HasMember(s: set<int>)
    requires s != {}
    ensures exists v :: v in s
  {
    assert (forall v :: v !in s) ==> s == {};
  }

  /** The grouping loop over the directory. */
  method Group(entries: seq<Entry>) returns (r: Option<map<int, Parts>>, error: LoadError)
    ensures r.Some? ==> Grouped(Classified(entries), r.value)
    ensures r.None? ==> Explains(Classified(entries), error)
  {
    error := InvalidFilename;
    ghost var files := Classified(entries);
    var partsByVersion: map<int, Parts> := map[];
    for n := 0 to |entries|
      invariant Grouped(files[..n], partsByVersion)
    {
      var e := Classify(entries[n]);
      assert files[..n + 1] == files[..n] + [e];
      match e
      case Ignored => GroupedIgnoring(files[..n], e, partsByVersion);
      case Rejected(reason) =>
        assert files[n] == Rejected(reason);
        RejectedExplains(entries[n], files, n);
        return None, reason;
      case Script(version, name, direction, body) =>
        var parts := if version in partsByVersion then partsByVersion[version] else Parts(name, "", "");
        assert version in partsByVersion ==> GroupOk(files[..n], version, parts);
        if parts.name != name {
          OtherName(files, n, parts);
          return None, InconsistentNames;
        }
        if parts.Body(direction) != "" {
          BodyTwice(files, n, parts);
          return None, Duplicate;
        }
        GroupedScript(files[..n], e, partsByVersion, parts);
        partsByVersion := partsByVersion[version := parts.With(direction, body)];
    }
    assert files[..|files|] == files;
    r := Some(partsByVersion);
  }

  lemma RejectedExplains(e: Entry, files: seq<File>, n: nat)
    requires n < |files| && files[n] == Classify(e) && files[n].Rejected?
    ensures Explains(files, files[n].error)
  {
  }

  /** What the second loop has gathered from the groups it is done with. */
  ghost predicate Collected(parts: map<int, Parts>, sha: string -> string, ms: seq<Migration>, remaining: set<int>) {
    && (forall m | m in ms :: m.version in parts && m.version !in remaining && m == parts[m.version].Build(m.version, sha))
    && (forall v | v in parts && v !in remaining ::
          parts[v].up != "" && parts[v].down != "" && parts[v].Build(v, sha) in ms)
    && Sorting.Distinct(VersionOf, ms)
  }

  lemma CollectedMore(
    parts: map<int, Parts>, sha: string -> string, ms: seq<Migration>, remaining: set<int>, v: int)
    requires Collected(parts, sha, ms, remaining) && v in remaining && v in parts
    requires parts[v].up != "" && parts[v].down != ""
    ensures Collected(parts, sha, ms + [parts[v].Build(v, sha)], remaining - {v})
  {
  }

  /** The loop over the groups, in whatever order the map yields them; it stops at an incomplete one. */
  method Collect(parts: map<int, Parts>, sha: string -> string) returns (ms: seq<Migration>, incomplete: Option<int>)
    ensures incomplete.None? ==> Collected(parts, sha, ms, {})
    ensures incomplete.Some? ==> incomplete.value in parts
                                 && (parts[incomplete.value].up == "" || parts[incomplete.value].down == "")
  {
    ms, incomplete := [], None;
    var remaining := parts.Keys;
    while remaining != {}
      invariant remaining <= parts.Keys && Collected(parts, sha, ms, remaining)
      decreases |remaining|
    {
      HasMember(remaining);
      var v: int :| v in remaining;
      if parts[v].up == "" || parts[v].down == "" {
        incomplete := Some(v);
        return;
      }
      CollectedMore(parts, sha, ms, remaining, v);
      ms := ms + [parts[v].Build(v, sha)];
      remaining := remaining - {v};
    }
  }

  /**
   Loading succeeds exactly for a loadable directory and then returns its
   migrations, whatever order the second loop takes the versions in; an error
   says what is wrong.
   */
  method Load(entries: seq<Entry>, sha: string -> string) returns (r: LoadResult)
    ensures var files := Classified(entries);
            && (r.Loaded? <==> Loadable(files))
            && match r
               case Loaded(migrations) => LoadedFrom(files, sha, migrations)
               case Failed(error) => Explains(files, error)
  {
    ghost var files := Classified(entries);
    var grouped, error := Group(entries);
    if grouped.None? {
      ExplainedIsUnloadable(files, error);
      return Failed(error);
    }
    var migrations, incomplete := Collect(grouped.value, sha);
    if incomplete.Some? {
      MissingBody(files, incomplete.value, grouped.value[incomplete.value]);
      ExplainedIsUnloadable(files, Incomplete);
      return Failed(Incomplete);
    }
    CollectedIsLoaded(files, sha, grouped.value, migrations);
    r := Loaded(Sorting.Sorted(VersionOf, migrations));
  }

  lemma CollectedIsLoaded(files: seq<File>, sha: string -> string, parts: map<int, Parts>, ms: seq<Migration>)
    requires Grouped(files, parts) && Collected(parts, sha, ms, {})
    ensures Loadable(files) && LoadedFrom(files, sha, Sorting.Sorted(VersionOf, ms))
  {
    CompleteIsLoadable(files, parts);
    var sorted := Sorting.Sorted(VersionOf, ms);
    Sorting.SortedSorts(VersionOf, ms);
    Sorting.SameMembers(sorted, ms);
    forall k | 0 <= k < |sorted| ensures FromFiles(files, sha, sorted[k]) {
      var m := sorted[k];
      assert m in sorted && m in ms;
      assert GroupOk(files, m.version, parts[m.version]);
      BuiltFromFiles(files, sha, m.version, parts[m.version]);
    }
    forall i, v | IsScript(files, i, v) ensures exists k :: 0 <= k < |sorted| && sorted[k].version == v {
      assert parts[v].Build(v, sha) in sorted;
    }
  }

  // ---- The list is determined by the directory ----

  lemma SameVersionSameMigration(files: seq<File>, sha: string -> string, a: Migration, b: Migration)
    requires Loadable(files) && FromFiles(files, sha, a) && FromFiles(files, sha, b) && a.version == b.version
    ensures a == b
  {
    forall d: Direction ensures a.Body(d) == b.Body(d) {
      var i :| IsPart(files, i, a.version, d) && BodyOf(files, i) == a.Body(d);
      var j :| IsPart(files, j, b.version, d) && BodyOf(files, j) == b.Body(d);
      assert IsScript(files, i, a.version);
      assert Supplied(files, a.version, d);
      var k :| Supplies(files, k, a.version, d);
    }
    assert a.Body(Up) == b.Body(Up) && a.Body(Down) == b.Body(Down);
  }

  ghost predicate HasVersion(ms: seq<Migration>, v: int) {
    exists i :: 0 <= i < |ms| && ms[i].version == v
  }

  ghost predicate Covers(b: seq<Migration>, a: seq<Migration>) {
    forall i | 0 <= i < |a| :: HasVersion(b, a[i].version)
  }

  /** Where two ascending lists agree up to `k`, the next version of one is no smaller than that of the other. */
  lemma NextVersion(a: seq<Migration>, b: seq<Migration>, k: nat)
    requires Ascending(a) && Ascending(b) && Covers(b, a) && k < |a|
    requires k <= |b| && forall j | 0 <= j < k :: a[j].version == b[j].version
    ensures k < |b| && b[k].version <= a[k].version
  {
  }

  lemma {:induction false} VersionsAgree(a: seq<Migration>, b: seq<Migration>, k: nat)
    requires Ascending(a) && Ascending(b) && Covers(b, a) && Covers(a, b) && k <= |a|
    ensures k <= |b| && forall j | 0 <= j < k :: a[j].version == b[j].version
  {
    if k > 0 {
      VersionsAgree(a, b, k - 1);
      NextVersion(a, b, k - 1);
      NextVersion(b, a, k - 1);
    }
  }

  /** No two lists load from one directory: in particular the map iteration order leaves no trace. */
  lemma LoadIsDetermined(files: seq<File>, sha: string -> string, a: seq<Migration>, b: seq<Migration>)
    requires Loadable(files) && LoadedFrom(files, sha, a) && LoadedFrom(files, sha, b)
    ensures a == b
  {
    SameVersions(files, sha, a, b);
    SameVersions(files, sha, b, a);
    VersionsAgree(a, b, |a|);
    VersionsAgree(b, a, |b|);
    forall k | 0 <= k < |a| ensures a[k] == b[k] {
      SameVersionSameMigration(files, sha, a[k], b[k]);
    }
  }

  lemma SameVersions(files: seq<File>, sha: string -> string, a: seq<Migration>, b: seq<Migration>)
    requires LoadedFrom(files, sha, a) && LoadedFrom(files, sha, b)
    ensures Covers(b, a)
  {
  }

  // ---- Duplicates that escape ----

  /**
   A second file of one version and direction is only noticed after a body: an
   empty one is accepted in front of the others and refused behind them.
   */
  lemma EmptyDuplicateDependsOnOrder(files: seq<File>, e: File, k: nat)
    requires Loadable(files) && e.Script? && e.body == ""
    requires IsScript(files, k, e.version) && files[k].name == e.name
    ensures Loadable([e] + files) && !Loadable(files + [e])
  {
    InFront(files, e, k);
    var n, v, d := |files|, e.version, e.direction;
    var more := files + [e];
    assert IsPart(more, n, v, d) && IsScript(more, n, v) && BodyOf(more, n) == "";
    assert forall i :: !Supplies(more, i, v, d);
    assert !Supplied(more, v, d);
  }

  lemma InFront(files: seq<File>, e: File, k: nat)
    requires Loadable(files) && e.Script? && e.body == ""
    requires IsScript(files, k, e.version) && files[k].name == e.name
    ensures Loadable([e] + files)
  {
    var more := [e] + files;
    var version := e.version;
    assert forall i | 0 < i < |more| :: more[i] == files[i - 1];
    assert forall i, v :: IsScript(more, i, v) ==> if i == 0 then v == version else IsScript(files, i - 1, v);
    forall i, j, v | IsScript(more, i, v) && IsScript(more, j, v)
      ensures more[i].name == more[j].name
    {
      var i', j' := if i == 0 then k else i - 1, if j == 0 then k else j - 1;
      assert IsScript(files, i', v) && IsScript(files, j', v);
    }
    forall i, v | IsScript(more, i, v) ensures Supplied(more, v, Up) && Supplied(more, v, Down) {
      assert IsScript(files, if i == 0 then k else i - 1, v);
      StillSupplied(files, e, v, Up);
      StillSupplied(files, e, v, Down);
    }
  }

  lemma StillSupplied(files: seq<File>, e: File, v: int, d: Direction)
    requires Supplied(files, v, d) && e.Script? && e.body == ""
    ensures Supplied([e] + files, v, d)
  {
    var more := [e] + files;
    var i :| Supplies(files, i, v, d);
    forall j | IsPart(more, j, v, d) && j != i + 1 ensures j < i + 1 && BodyOf(more, j) == "" {
      assert j > 0 ==> more[j] == files[j - 1] && IsPart(files, j - 1, v, d);
    }
    assert Supplies(more, i + 1, v, d);
  }
}
