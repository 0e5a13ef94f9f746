/**
 The text formats inside a password hash: decimal fields, unpadded base64 and
 the separators between them, each with the scanner that reads it back.
 */
module Text {
  import opened Wrappers

  type Byte = b: int | 0 <= b < 256
  type Bytes = seq<Byte>

  // ---- Decimal numbers: fmt's %d ----

  predicate IsDigit(c: char) {
    '0' <= c <= '9'
  }

  function Decimal(n: nat): (s: string)
    ensures |s| > 0 && forall c | c in s :: IsDigit(c)
  {
    var last := ('0' as int + n % 10) as char;
    if n < 10 then [last] else Decimal(n / 10) + [last]
  }

  function DecimalValue(s: string): nat
    requires forall c | c in s :: IsDigit(c)
  {
    if s == "" then 0
    else
      assert IsDigit(s[|s| - 1]);
      10 * DecimalValue(s[..|s| - 1]) + (s[|s| - 1] as int - '0' as int)
  }

  /** The length of the longest prefix of digits. */
  function LeadingDigits(s: string): (k: nat)
    ensures k <= |s| && forall c | c in s[..k] :: IsDigit(c)
    ensures k < |s| ==> !IsDigit(s[k])
  {
    if s != "" && IsDigit(s[0]) then 1 + LeadingDigits(s[1..]) else 0
  }

  /** Sscanf skips blanks in front of a number; a newline stops it with an error. */
  function SkipBlanks(s: string): string {
    if s != "" && s[0] in " \t\r" then SkipBlanks(s[1..]) else s
  }

  /** %d into an unsigned variable that holds values below `limit`. */
  function ScanUnsigned(s: string, limit: nat): Option<(nat, string)> {
    var t := SkipBlanks(s);
    var k := LeadingDigits(t);
    if k == 0 || DecimalValue(t[..k]) >= limit then None else Some((DecimalValue(t[..k]), t[k..]))
  }

  /** %d into a 64-bit signed variable. */
  function ScanSigned(s: string): Option<(int, string)> {
    var t := SkipBlanks(s);
    var negative := t != "" && t[0] == '-';
    var u := if t != "" && (t[0] == '-' || t[0] == '+') then t[1..] else t;
    var k := LeadingDigits(u);
    if k == 0 then None
    else
      var v: int := if negative then -(DecimalValue(u[..k]) as int) else DecimalValue(u[..k]);
      if -0x8000_0000_0000_0000 <= v < 0x8000_0000_0000_0000 then Some((v, u[k..])) else None
  }

  /** A literal stretch of a Sscanf format. */
  function ScanLiteral(s: string, literal: string): Option<string> {
    if literal <= s then Some(s[|literal|..]) else None
  }

  lemma {:induction false} DecimalRoundTrip(n: nat)
    ensures DecimalValue(Decimal(n)) == n
  {
    if n < 10 {
      assert Decimal(n)[..0] == "";
    } else {
      var s := Decimal(n);
      assert s[..|s| - 1] == Decimal(n / 10);
      DecimalRoundTrip(n / 10);
    }
  }

  lemma {:induction false} LeadingDigitsOf(digits: string, rest: string)
    requires forall c | c in digits :: IsDigit(c)
    requires rest == "" || !IsDigit(rest[0])
    ensures LeadingDigits(digits + rest) == |digits|
  {
    if digits == "" {
      assert digits + rest == rest;
    } else {
      assert (digits + rest)[1..] == digits[1..] + rest;
      LeadingDigitsOf(digits[1..], rest);
    }
  }

  /** What %d prints, both %d scanners read back, up to the first character that is no digit, unless it is too large. */
  lemma ScanPrinted(n: nat, rest: string, limit: nat)
    requires rest == "" || !IsDigit(rest[0])
    ensures ScanUnsigned(Decimal(n) + rest, limit) == if n < limit then Some((n, rest)) else None
    ensures ScanSigned(Decimal(n) + rest) == if n < 0x8000_0000_0000_0000 then Some((n as int, rest)) else None
  {
    var s := Decimal(n) + rest;
    var k := |Decimal(n)|;
    assert s[0] in Decimal(n);
    assert SkipBlanks(s) == s;
    LeadingDigitsOf(Decimal(n), rest);
    assert s[..k] == Decimal(n) && s[k..] == rest;
    DecimalRoundTrip(n);
  }

  // ---- Base64 without padding: sections 3.2 and 4 of RFC 4648 ----

  type Sextet = v: int | 0 <= v < 64

  function Symbol(v: Sextet): char {
    if v < 26 then ('A' as int + v) as char
    else if v < 52 then ('a' as int + v - 26) as char
    else if v < 62 then ('0' as int + v - 52) as char
    else if v == 62 then '+' else '/'
  }

  function Value(c: char): Option<Sextet> {
    if 'A' <= c <= 'Z' then Some(c as int - 'A' as int)
    else if 'a' <= c <= 'z' then Some(c as int - 'a' as int + 26)
    else if '0' <= c <= '9' then Some(c as int - '0' as int + 52)
    else if c == '+' then Some(62)
    else if c == '/' then Some(63)
    else None
  }

  /** Three bytes regrouped into four sextets; one or two bytes are filled up with zero bits. */
  function Regroup(x: Byte, y: Byte, z: Byte): (Sextet, Sextet, Sextet, Sextet) {
    (x / 4, x % 4 * 16 + y / 16, y % 16 * 4 + z / 64, z % 64)
  }

  /** Four sextets as three bytes. */
  function Ungroup(a: Sextet, b: Sextet, c: Sextet, d: Sextet): (Byte, Byte, Byte) {
    (a * 4 + b / 16, b % 16 * 16 + c / 4, c % 4 * 64 + d)
  }

  function Sextets(b: Bytes): seq<Sextet> {
    if |b| == 0 then []
    else if |b| == 1 then var g := Regroup(b[0], 0, 0); [g.0, g.1]
    else if |b| == 2 then var g := Regroup(b[0], b[1], 0); [g.0, g.1, g.2]
    else var g := Regroup(b[0], b[1], b[2]); [g.0, g.1, g.2, g.3] + Sextets(b[3..])
  }

  /** Unused low bits of a short last group are dropped; a single left-over sextet is an error. */
  function Octets(v: seq<Sextet>): Option<Bytes> {
    if |v| == 0 then Some([])
    else if |v| == 1 then None
    else if |v| == 2 then Some([Ungroup(v[0], v[1], 0, 0).0])
    else if |v| == 3 then var g := Ungroup(v[0], v[1], v[2], 0); Some([g.0, g.1])
    else
      match Octets(v[4..])
      case None => None
      case Some(rest) => var g := Ungroup(v[0], v[1], v[2], v[3]); Some([g.0, g.1, g.2] + rest)
  }

  function Spelled(v: seq<Sextet>): (s: string)
    ensures forall c | c in s :: Value(c).Some?
  {
    if v == [] then "" else [Symbol(v[0])] + Spelled(v[1..])
  }

  function Values(s: string): Option<seq<Sextet>> {
    if s == "" then Some([])
    else
      match (Value(s[0]), Values(s[1..]))
      case (Some(v), Some(rest)) => Some([v] + rest)
      case (_, _) => None
  }

  function Encode(b: Bytes): string {
    Spelled(Sextets(b))
  }

  /** The decoder ignores line breaks. */
  function WithoutBreaks(s: string): string {
    if s == "" then ""
    else if s[0] == '\n' || s[0] == '\r' then WithoutBreaks(s[1..])
    else [s[0]] + WithoutBreaks(s[1..])
  }

  function Decode(s: string): Option<Bytes> {
    match Values(WithoutBreaks(s))
    case None => None
    case Some(v) => Octets(v)
  }

  lemma Regrouped(x: Byte, y: Byte, z: Byte)
    ensures var g := Regroup(x, y, z); Ungroup(g.0, g.1, g.2, g.3) == (x, y, z)
    ensures y == 0 && z == 0 ==> var g := Regroup(x, y, z); Ungroup(g.0, g.1, 0, 0).0 == x
    ensures z == 0 ==> var g := Regroup(x, y, z); Ungroup(g.0, g.1, g.2, 0).0 == x && Ungroup(g.0, g.1, g.2, 0).1 == y
  {
    var g := Regroup(x, y, z);
    assert g.1 / 16 == x % 4 && g.1 % 16 == y / 16;
    assert g.2 / 4 == y % 16 && g.2 % 4 == z / 64;
  }

  lemma {:induction false} OctetsRoundTrip(b: Bytes)
    ensures Octets(Sextets(b)) == Some(b)
    decreases |b|
  {
    if |b| == 1 {
      Regrouped(b[0], 0, 0);
      assert [b[0]] == b;
    } else if |b| == 2 {
      Regrouped(b[0], b[1], 0);
      assert [b[0], b[1]] == b;
    } else if |b| > 2 {
      Regrouped(b[0], b[1], b[2]);
      OctetsRoundTrip(b[3..]);
      assert Sextets(b)[4..] == Sextets(b[3..]);
      assert [b[0], b[1], b[2]] + b[3..] == b;
    }
  }

  /** Three of the test vectors in section 10 of RFC 4648, without their padding, and the last two symbols. */
  lemma TestVectors()
    ensures Encode([102]) == "Zg" && Encode([102, 111]) == "Zm8" && Encode([102, 111, 111]) == "Zm9v"
    ensures Encode([251, 255, 191]) == "+/+/"
  {
    var foo: Bytes := [102, 111, 111];
    var signs: Bytes := [251, 255, 191];
    assert foo[3..] == [] && signs[3..] == [];
    assert Sextets(foo) == [25, 38, 61, 47] && Sextets(signs) == [62, 63, 62, 63];
    SpelledFour(25, 38, 61, 47);
    SpelledFour(25, 38, 60, 0);
    SpelledFour(25, 32, 0, 0);
    SpelledFour(62, 63, 62, 63);
  }

  lemma SpelledFour(a: Sextet, b: Sextet, c: Sextet, d: Sextet)
    ensures Spelled([a, b]) == [Symbol(a), Symbol(b)]
    ensures Spelled([a, b, c]) == [Symbol(a), Symbol(b), Symbol(c)]
    ensures Spelled([a, b, c, d]) == [Symbol(a), Symbol(b), Symbol(c), Symbol(d)]
  {
    SpelledNext(a, [b]);
    SpelledNext(a, [b, c]);
    SpelledNext(a, [b, c, d]);
    SpelledNext(b, []);
    SpelledNext(b, [c]);
    SpelledNext(b, [c, d]);
    SpelledNext(c, []);
    SpelledNext(c, [d]);
    SpelledNext(d, []);
    assert [a, b] == [a] + [b] && [a, b, c] == [a] + [b, c] && [a, b, c, d] == [a] + [b, c, d];
    assert [b] == [b] + [] && [b, c] == [b] + [c] && [b, c, d] == [b] + [c, d];
    assert [c] == [c] + [] && [c, d] == [c] + [d] && [d] == [d] + [];
  }

  lemma SpelledNext(v: Sextet, rest: seq<Sextet>)
    ensures Spelled([v] + rest) == [Symbol(v)] + Spelled(rest)
  {
    assert ([v] + rest)[1..] == rest;
  }

  lemma SymbolValue(v: Sextet)
    ensures Value(Symbol(v)) == Some(v)
  {
  }

  lemma {:induction false} SpellingRoundTrip(v: seq<Sextet>)
    ensures Values(Spelled(v)) == Some(v)
  {
    if v != [] {
      SymbolValue(v[0]);
      SpellingRoundTrip(v[1..]);
      assert Spelled(v)[1..] == Spelled(v[1..]);
      assert [v[0]] + v[1..] == v;
    }
  }

  lemma {:induction false} NoBreaks(s: string)
    requires forall c | c in s :: Value(c).Some?
    ensures WithoutBreaks(s) == s
  {
    if s != "" {
      assert Value(s[0]).Some?;
      NoBreaks(s[1..]);
      assert s == [s[0]] + s[1..];
    }
  }

  lemma Base64RoundTrip(b: Bytes)
    ensures Decode(Encode(b)) == Some(b)
  {
    NoBreaks(Encode(b));
    SpellingRoundTrip(Sextets(b));
    OctetsRoundTrip(b);
  }

  // ---- strings.Split on one character ----

  function Split(s: string, separator: char): (parts: seq<string>)
    ensures |parts| > 0
  {
    if s == "" then [""]
    else
      var rest := Split(s[1..], separator);
      if s[0] == separator then [""] + rest else [[s[0]] + rest[0]] + rest[1..]
  }

  lemma {:induction false} SplitAt(head: string, tail: string, separator: char)
    requires separator !in head
    ensures Split(head + ([separator] + tail), separator) == [head] + Split(tail, separator)
  {
    var s := head + ([separator] + tail);
    if head == "" {
      assert s[1..] == tail;
    } else {
      assert s[1..] == head[1..] + ([separator] + tail);
      SplitAt(head[1..], tail, separator);
      assert [head[0]] + head[1..] == head;
    }
  }

  lemma {:induction false} SplitWhole(s: string, separator: char)
    requires separator !in s
    ensures Split(s, separator) == [s]
  {
    if s != "" {
      SplitWhole(s[1..], separator);
      assert [s[0]] + s[1..] == s;
    }
  }
}
