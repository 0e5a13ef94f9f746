/** Two directories in which two files claim the same script; only one of them is refused. */
module Duplicates {
  import opened Wrappers
  import opened FileNames
  import opened Loader
  import T = Text

  /** Byte order of file names. */
  predicate Before(a: string, b: string) {
    b != "" && (a == "" || a[0] < b[0] || (a[0] == b[0] && Before(a[1..], b[1..])))
  }

  /** A directory is read in the order of its names, which differ. */
  ghost predicate IsListing(entries: seq<Entry>) {
    forall i, j | 0 <= i < j < |entries| :: Before(entries[i].name, entries[j].name)
  }

  function NameOf(digits: string, d: Direction): string {
    digits + ("_" + ("x" + Extension(d)))
  }

  function ScriptFile(digits: string, d: Direction, body: string): Entry {
    Entry(NameOf(digits, d), false, Some(body))
  }

  /** 01_x.up.sql, empty, then 1_x.down.sql and 1_x.up.sql. */
  function Unnoticed(): seq<Entry> {
    [ScriptFile("01", Up, ""), ScriptFile("1", Down, "d"), ScriptFile("1", Up, "u")]
  }

  /** 01_x.down.sql and 01_x.up.sql, then 1_x.up.sql, empty. */
  function Noticed(): seq<Entry> {
    [ScriptFile("01", Down, "d"), ScriptFile("01", Up, "u"), ScriptFile("1", Up, "")]
  }

  lemma Spelled()
    ensures NameOf("01", Up) == "01_x.up.sql" && NameOf("01", Down) == "01_x.down.sql"
    ensures NameOf("1", Up) == "1_x.up.sql" && NameOf("1", Down) == "1_x.down.sql"
  {
  }

  lemma Numbers()
    ensures IsNumber("1") && IsNumber("01") && T.DecimalValue("1") == 1 && T.DecimalValue("01") == 1
  {
    assert "1"[..0] == "" && "01"[..1] == "0" && "0"[..0] == "";
    assert T.DecimalValue("") == 0 && T.DecimalValue("0") == 0;
  }

  lemma IsVersionOne(digits: string, d: Direction, body: string)
    requires digits == "1" || digits == "01"
    ensures Classify(ScriptFile(digits, d, body)) == File.Script(1, "x", d, body)
  {
    Numbers();
    NameParses(digits, "x", d);
  }

  lemma {:induction false} CommonPrefix(p: string, a: string, b: string)
    requires Before(a, b)
    ensures Before(p + a, p + b)
  {
    if p == "" {
      assert p + a == a && p + b == b;
    } else {
      assert (p + a)[1..] == p[1..] + a && (p + b)[1..] == p[1..] + b;
      CommonPrefix(p[1..], a, b);
    }
  }

  lemma DownBeforeUp(digits: string)
    ensures Before(NameOf(digits, Down), NameOf(digits, Up))
  {
    var p := digits + "_x.";
    assert NameOf(digits, Down) == p + "down.sql" && NameOf(digits, Up) == p + "up.sql";
    CommonPrefix(p, "down.sql", "up.sql");
  }

  lemma AreListings()
    ensures IsListing(Unnoticed()) && IsListing(Noticed())
  {
    DownBeforeUp("1");
    DownBeforeUp("01");
    assert forall d :: NameOf("01", d)[0] == '0' && NameOf("1", d)[0] == '1';
  }

  lemma ThreeClassified(a: Entry, b: Entry, c: Entry)
    ensures Classified([a, b, c]) == [Classify(a), Classify(b), Classify(c)]
  {
  }

  lemma UnnoticedLoads()
    ensures var files := Classified(Unnoticed());
            IsPart(files, 0, 1, Up) && IsPart(files, 2, 1, Up) && Loadable(files)
  {
    IsVersionOne("01", Up, "");
    IsVersionOne("1", Down, "d");
    IsVersionOne("1", Up, "u");
    ThreeClassified(ScriptFile("01", Up, ""), ScriptFile("1", Down, "d"), ScriptFile("1", Up, "u"));
    EmptyFirstLoads("d", "u");
  }

  lemma EmptyFirstLoads(down: string, up: string)
    requires down != "" && up != ""
    ensures var files := [File.Script(1, "x", Up, ""), File.Script(1, "x", Down, down), File.Script(1, "x", Up, up)];
            IsPart(files, 0, 1, Up) && IsPart(files, 2, 1, Up) && Loadable(files)
  {
    var files := [File.Script(1, "x", Up, ""), File.Script(1, "x", Down, down), File.Script(1, "x", Up, up)];
    assert Supplies(files, 2, 1, Up) && Supplies(files, 1, 1, Down);
    assert Supplied(files, 1, Up) && Supplied(files, 1, Down);
  }

  lemma NoticedFails()
    ensures var files := Classified(Noticed());
            IsPart(files, 1, 1, Up) && IsPart(files, 2, 1, Up) && !Loadable(files)
  {
    IsVersionOne("01", Down, "d");
    IsVersionOne("01", Up, "u");
    IsVersionOne("1", Up, "");
    ThreeClassified(ScriptFile("01", Down, "d"), ScriptFile("01", Up, "u"), ScriptFile("1", Up, ""));
    EmptyLastFails("d", "u");
  }

  lemma EmptyLastFails(down: string, up: string)
    requires down != "" && up != ""
    ensures var files := [File.Script(1, "x", Down, down), File.Script(1, "x", Up, up), File.Script(1, "x", Up, "")];
            IsPart(files, 1, 1, Up) && IsPart(files, 2, 1, Up) && !Loadable(files)
  {
    var files := [File.Script(1, "x", Down, down), File.Script(1, "x", Up, up), File.Script(1, "x", Up, "")];
    assert IsPart(files, 1, 1, Up) && IsPart(files, 2, 1, Up) && BodyOf(files, 1) != "";
    assert Explains(files, Duplicate);
    ExplainedIsUnloadable(files, Duplicate);
  }

  /**
   Both are listings a file system can return, and in both two files claim the
   up script of version 1, one of them empty: in front of the other it is
   accepted, behind it it is refused.
   */
  lemma DuplicateUpFiles()
    ensures var files := Classified(Unnoticed());
            && IsListing(Unnoticed()) && IsPart(files, 0, 1, Up) && IsPart(files, 2, 1, Up) && Loadable(files)
    ensures var files := Classified(Noticed());
            && IsListing(Noticed()) && IsPart(files, 1, 1, Up) && IsPart(files, 2, 1, Up) && !Loadable(files)
  {
    AreListings();
    UnnoticedLoads();
    NoticedFails();
  }
}
