/**
 Names of migration files: digits, an underscore, a name, the direction and the
 extension.
 */
module FileNames {
  import opened Wrappers
  import T = Text

  datatype Direction = Up | Down

  datatype FileName = FileName(digits: string, name: string, direction: Direction)

  predicate IsNumber(s: string) {
    forall c | c in s :: T.IsDigit(c)
  }

  predicate IsNameCharacter(c: char) {
    'a' <= c <= 'z' || '0' <= c <= '9' || c == '_'
  }

  predicate IsWord(s: string) {
    forall c | c in s :: IsNameCharacter(c)
  }

  /** The length of the longest prefix of name characters. */
  function LeadingName(s: string): (k: nat)
    ensures k <= |s| && IsWord(s[..k])
    ensures k < |s| ==> !IsNameCharacter(s[k])
  {
    if s != "" && IsNameCharacter(s[0]) then
      var k := LeadingName(s[1..]);
      assert s[..k + 1] == [s[0]] + s[1..][..k];
      k + 1
    else 0
  }

  function Extension(d: Direction): string {
    if d.Up? then ".up.sql" else ".down.sql"
  }

  /** The name, direction and extension after the underscore. */
  function ParseTail(digits: string, tail: string): (r: Option<FileName>)
    ensures r.Some? ==> r.value.digits == digits
  {
    var m := LeadingName(tail);
    if m == 0 then None
    else if tail[m..] == Extension(Up) then Some(FileName(digits, tail[..m], Up))
    else if tail[m..] == Extension(Down) then Some(FileName(digits, tail[..m], Down))
    else None
  }

  function ParseName(file: string): (r: Option<FileName>)
    ensures r.Some? ==> IsNumber(r.value.digits)
  {
    var k := T.LeadingDigits(file);
    if k == 0 || k == |file| || file[k] != '_' then None else ParseTail(file[..k], file[k + 1..])
  }

  lemma {:induction false} LeadingNameOf(name: string, rest: string)
    requires IsWord(name) && (rest == "" || !IsNameCharacter(rest[0]))
    ensures LeadingName(name + rest) == |name|
  {
    if name == "" {
      assert name + rest == rest;
    } else {
      assert (name + rest)[1..] == name[1..] + rest;
      LeadingNameOf(name[1..], rest);
    }
  }

  lemma TailParses(digits: string, name: string, d: Direction)
    requires name != "" && IsWord(name)
    ensures ParseTail(digits, name + Extension(d)) == Some(FileName(digits, name, d))
  {
    LeadingNameOf(name, Extension(d));
    var tail := name + Extension(d);
    assert tail[..|name|] == name && tail[|name|..] == Extension(d);
    assert |Extension(Up)| != |Extension(Down)|;
  }

  /** Every name of the pattern is recognised, and read back. */
  lemma NameParses(digits: string, name: string, d: Direction)
    requires digits != "" && IsNumber(digits) && name != "" && IsWord(name)
    ensures ParseName(digits + ("_" + (name + Extension(d)))) == Some(FileName(digits, name, d))
  {
    TailParses(digits, name, d);
    Underscored(digits, name + Extension(d));
  }

  lemma Underscored(digits: string, tail: string)
    requires digits != "" && IsNumber(digits)
    ensures ParseName(digits + ("_" + tail)) == ParseTail(digits, tail)
  {
    var file := digits + ("_" + tail);
    T.LeadingDigitsOf(digits, "_" + tail);
    assert file[..|digits|] == digits && file[|digits|] == '_' && file[|digits| + 1..] == tail;
  }

  /** Nothing else is recognised. */
  lemma OnlyNamesParse(file: string)
    ensures ParseName(file).Some? ==>
              var f := ParseName(file).value;
              && f.digits != "" && IsNumber(f.digits) && f.name != "" && IsWord(f.name)
              && file == f.digits + ("_" + (f.name + Extension(f.direction)))
  {
    var k := T.LeadingDigits(file);
    if 0 < k < |file| && file[k] == '_' {
      var tail := file[k + 1..];
      var m := LeadingName(tail);
      assert tail == tail[..m] + tail[m..];
      assert file == file[..k] + ("_" + tail);
    }
  }
}
