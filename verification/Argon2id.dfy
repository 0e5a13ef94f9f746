/**
 Password hashes: how they are printed, parsed and checked.  The Argon2id key
 derivation itself is a parameter.
 */
module Argon2id {
  import opened Wrappers
  import T = Text

  type Bytes = T.Bytes

  const VERSION: nat := 19
  const MINIMUM_PASSWORD_CHARACTERS: nat := 15
  const MAXIMUM_PASSWORD_BYTES: nat := 1024

  datatype Params = Params(memory: nat, iterations: nat, parallelism: nat, saltLength: nat, keyLength: nat)
  {
    /** What the parser accepts. */
    predicate InRange() {
      && 1 <= memory <= 1024 * 1024 && 1 <= iterations <= 10 && 1 <= parallelism <= 16
      && 1 <= saltLength <= 64 && 1 <= keyLength <= 64
    }
  }

  const DEFAULT_PARAMS: Params := Params(19 * 1024, 2, 1, 16, 32)

  /** argon2.IDKey: password, salt, iterations, memory, parallelism, key length. */
  type Kdf = (Bytes, Bytes, nat, nat, nat, nat) -> Bytes

  /** The key derivation returns as many bytes as it is asked for. */
  ghost predicate KeysFit(kdf: Kdf) {
    forall password, salt, t, m, p, n {:trigger kdf(password, salt, t, m, p, n)} ::
      |kdf(password, salt, t, m, p, n)| == n
  }

  function Key(kdf: Kdf, password: Bytes, salt: Bytes, p: Params): Bytes {
    kdf(password, salt, p.iterations, p.memory, p.parallelism, p.keyLength)
  }

  function VersionField(): string {
    "v=" + T.Decimal(VERSION)
  }

  function ParamsField(p: Params): string {
    "m=" + (T.Decimal(p.memory) + (",t=" + (T.Decimal(p.iterations) + (",p=" + T.Decimal(p.parallelism)))))
  }

  /** `$argon2id$v=..$m=..,t=..,p=..$salt$key`. */
  function Layout(version: string, params: string, salt: string, key: string): string {
    "$" + ("argon2id" + ("$" + (version + ("$" + (params + ("$" + (salt + ("$" + key))))))))
  }

  function EncodeHash(kdf: Kdf, password: Bytes, salt: Bytes, p: Params): string {
    Layout(VersionField(), ParamsField(p), T.Encode(salt), T.Encode(Key(kdf, password, salt, p)))
  }

  datatype Parsed = Parsed(params: Params, salt: Bytes, key: Bytes)

  function ParseVersion(s: string): Option<int> {
    match T.ScanLiteral(s, "v=")
    case None => None
    case Some(rest) =>
      match T.ScanSigned(rest)
      case None => None
      case Some(v) => Some(v.0)
  }

  /** Sscanf with "m=%d,t=%d,p=%d" into two 32-bit and one 8-bit unsigned variables. */
  function ParseParams(s: string): Option<(nat, nat, nat)> {
    match T.ScanLiteral(s, "m=")
    case None => None
    case Some(afterM) =>
      match T.ScanUnsigned(afterM, 0x1_0000_0000)
      case None => None
      case Some(m) =>
        match T.ScanLiteral(m.1, ",t=")
        case None => None
        case Some(afterT) =>
          match T.ScanUnsigned(afterT, 0x1_0000_0000)
          case None => None
          case Some(t) =>
            match T.ScanLiteral(t.1, ",p=")
            case None => None
            case Some(afterP) =>
              match T.ScanUnsigned(afterP, 0x100)
              case None => None
              case Some(p) => Some((m.0, t.0, p.0))
  }

  /** None is ErrInvalidHash. */
  function ParseHash(encoded: string): (r: Option<Parsed>)
    ensures r.Some? ==>
              && r.value.params.InRange()
              && r.value.params.saltLength == |r.value.salt| && r.value.params.keyLength == |r.value.key|
  {
    var parts := T.Split(encoded, '$');
    if |parts| != 6 || parts[1] != "argon2id" then None
    else if ParseVersion(parts[2]) != Some(VERSION) then None
    else
      match ParseParams(parts[3])
      case None => None
      case Some(mtp) =>
        if mtp.0 == 0 || mtp.1 == 0 || mtp.2 == 0 || mtp.0 > 1024 * 1024 || mtp.1 > 10 || mtp.2 > 16 then None
        else
          var salt, key := T.Decode(parts[4]), T.Decode(parts[5]);
          if salt.None? || key.None? || |salt.value| == 0 || |key.value| == 0 then None
          else if |salt.value| > 64 || |key.value| > 64 then None
          else Some(Parsed(Params(mtp.0, mtp.1, mtp.2, |salt.value|, |key.value|), salt.value, key.value))
  }

  /** None is the parse error; otherwise whether the candidate derives the stored key. */
  function Verify(kdf: Kdf, candidate: Bytes, encoded: string): Option<bool> {
    match ParseHash(encoded)
    case None => None
    case Some(h) => Some(Key(kdf, candidate, h.salt, h.params) == h.key)
  }

  // ---- Parsing undoes printing ----

  lemma SixParts(p2: string, p3: string, p4: string, p5: string)
    requires '$' !in p2 && '$' !in p3 && '$' !in p4 && '$' !in p5
    ensures T.Split(Layout(p2, p3, p4, p5), '$') == ["", "argon2id", p2, p3, p4, p5]
  {
    var t4 := p4 + ("$" + p5);
    var t3 := p3 + ("$" + t4);
    var t2 := p2 + ("$" + t3);
    var t1 := "argon2id" + ("$" + t2);
    assert "" + ("$" + t1) == "$" + t1;
    T.SplitAt("", t1, '$');
    T.SplitAt("argon2id", t2, '$');
    T.SplitAt(p2, t3, '$');
    T.SplitAt(p3, t4, '$');
    T.SplitAt(p4, p5, '$');
    T.SplitWhole(p5, '$');
  }

  lemma LiteralThen(literal: string, rest: string)
    ensures T.ScanLiteral(literal + rest, literal) == Some(rest)
  {
  }

  /** The cost fields are read back unless one does not fit its variable. */
  lemma ParamsRoundTrip(p: Params)
    ensures ParseParams(ParamsField(p))
         == if p.memory < 0x1_0000_0000 && p.iterations < 0x1_0000_0000 && p.parallelism < 0x100
            then Some((p.memory, p.iterations, p.parallelism)) else None
  {
    var atP := ",p=" + T.Decimal(p.parallelism);
    var afterT := T.Decimal(p.iterations) + atP;
    var atT := ",t=" + afterT;
    var afterM := T.Decimal(p.memory) + atT;
    LiteralThen("m=", afterM);
    T.ScanPrinted(p.memory, atT, 0x1_0000_0000);
    LiteralThen(",t=", afterT);
    T.ScanPrinted(p.iterations, atP, 0x1_0000_0000);
    LiteralThen(",p=", T.Decimal(p.parallelism));
    assert T.Decimal(p.parallelism) + "" == T.Decimal(p.parallelism);
    T.ScanPrinted(p.parallelism, "", 0x100);
  }

  lemma VersionRoundTrip(v: nat)
    ensures ParseVersion("v=" + T.Decimal(v)) == if v < 0x8000_0000_0000_0000 then Some(v as int) else None
  {
    LiteralThen("v=", T.Decimal(v));
    assert T.Decimal(v) + "" == T.Decimal(v);
    T.ScanPrinted(v, "", 0);
  }

  lemma NoSeparators(v: nat, p: Params, b: Bytes)
    ensures '$' !in "v=" + T.Decimal(v) && '$' !in ParamsField(p) && '$' !in T.Encode(b)
  {
  }

  /**
   Exactly which printed hashes are accepted, for any version, costs, salt and key
   in the layout: version 19, costs and lengths within their limits; and then
   every part is read back.
   */
  lemma PrintedParses(v: nat, p: Params, salt: Bytes, key: Bytes)
    ensures ParseHash(Layout("v=" + T.Decimal(v), ParamsField(p), T.Encode(salt), T.Encode(key)))
         == if && v == 19 && 1 <= p.memory <= 1_048_576 && 1 <= p.iterations <= 10 && 1 <= p.parallelism <= 16
               && 1 <= |salt| <= 64 && 1 <= |key| <= 64
            then Some(Parsed(Params(p.memory, p.iterations, p.parallelism, |salt|, |key|), salt, key)) else None
  {
    var version := "v=" + T.Decimal(v);
    NoSeparators(v, p, salt);
    NoSeparators(v, p, key);
    SixParts(version, ParamsField(p), T.Encode(salt), T.Encode(key));
    VersionRoundTrip(v);
    ParamsRoundTrip(p);
    T.Base64RoundTrip(salt);
    T.Base64RoundTrip(key);
    PartsParse(Layout(version, ParamsField(p), T.Encode(salt), T.Encode(key)),
               version, ParamsField(p), T.Encode(salt), T.Encode(key), v, p, salt, key);
  }

  lemma PartsParse(
    encoded: string, version: string, params: string, encodedSalt: string, encodedKey: string,
    v: nat, p: Params, salt: Bytes, key: Bytes)
    requires T.Split(encoded, '$') == ["", "argon2id", version, params, encodedSalt, encodedKey]
    requires ParseVersion(version) == if v < 0x8000_0000_0000_0000 then Some(v as int) else None
    requires ParseParams(params)
          == if p.memory < 0x1_0000_0000 && p.iterations < 0x1_0000_0000 && p.parallelism < 0x100
             then Some((p.memory, p.iterations, p.parallelism)) else None
    requires T.Decode(encodedSalt) == Some(salt) && T.Decode(encodedKey) == Some(key)
    ensures ParseHash(encoded)
         == if && v == 19 && 1 <= p.memory <= 1_048_576 && 1 <= p.iterations <= 10 && 1 <= p.parallelism <= 16
               && 1 <= |salt| <= 64 && 1 <= |key| <= 64
            then Some(Parsed(Params(p.memory, p.iterations, p.parallelism, |salt|, |key|), salt, key)) else None
  {
  }

  /** For every cost setting the parser accepts: a printed hash parses to exactly what it was made from. */
  lemma ParseEncoded(kdf: Kdf, password: Bytes, salt: Bytes, p: Params)
    requires KeysFit(kdf) && p.InRange() && |salt| == p.saltLength
    ensures ParseHash(EncodeHash(kdf, password, salt, p))
         == Some(Parsed(p, salt, kdf(password, salt, p.iterations, p.memory, p.parallelism, p.keyLength)))
  {
    PrintedParses(19, p, salt, Key(kdf, password, salt, p));
  }

  /** The text the service stores for a password and a salt. */
  lemma StoredText(kdf: Kdf, password: Bytes, salt: Bytes)
    ensures EncodeHash(kdf, password, salt, DEFAULT_PARAMS)
         == "$argon2id$" + "v=19" + "$" + "m=19456,t=2,p=1" + "$" + T.Encode(salt) + "$"
            + T.Encode(kdf(password, salt, 2, 19456, 1, 32))
  {
    DefaultFields();
    Flat("v=19", "m=19456,t=2,p=1", T.Encode(salt), T.Encode(kdf(password, salt, 2, 19456, 1, 32)));
  }

  lemma Flat(version: string, params: string, salt: string, key: string)
    ensures Layout(version, params, salt, key) == "$argon2id$" + version + "$" + params + "$" + salt + "$" + key
  {
    assert "$" + "argon2id" + "$" == "$argon2id$";
  }

  lemma DefaultFields()
    ensures VersionField() == "v=19" && ParamsField(DEFAULT_PARAMS) == "m=19456,t=2,p=1"
  {
    Digits();
    assert ",p=" + "1" == ",p=1";
    assert "2" + ",p=1" == "2,p=1";
    assert ",t=" + "2,p=1" == ",t=2,p=1";
    assert "19456" + ",t=2,p=1" == "19456,t=2,p=1";
    assert "m=" + "19456,t=2,p=1" == "m=19456,t=2,p=1";
  }

  lemma Digits()
    ensures T.Decimal(19) == "19" && T.Decimal(19456) == "19456" && T.Decimal(2) == "2" && T.Decimal(1) == "1"
  {
    assert T.Decimal(1) == "1" && T.Decimal(2) == "2" && T.Decimal(19) == "19";
    assert T.Decimal(194) == "194";
    assert T.Decimal(1945) == "1945";
    assert T.Decimal(19456) == "19456";
  }

  /**
   Checking a candidate against a printed hash never fails; it passes exactly if
   the key derived from the candidate is the key derived from the password.
   */
  lemma VerifyEncoded(kdf: Kdf, candidate: Bytes, password: Bytes, salt: Bytes, p: Params)
    requires KeysFit(kdf) && p.InRange() && |salt| == p.saltLength
    ensures Verify(kdf, candidate, EncodeHash(kdf, password, salt, p))
         == Some(kdf(candidate, salt, p.iterations, p.memory, p.parallelism, p.keyLength)
                 == kdf(password, salt, p.iterations, p.memory, p.parallelism, p.keyLength))
  {
    ParseEncoded(kdf, password, salt, p);
  }

  /** Equal hashes come from the same salt and settings and from passwords with the same key. */
  lemma EncodeInjective(kdf: Kdf, a: Bytes, saltA: Bytes, b: Bytes, saltB: Bytes, p: Params)
    requires KeysFit(kdf) && p.InRange() && |saltA| == p.saltLength && |saltB| == p.saltLength
    requires EncodeHash(kdf, a, saltA, p) == EncodeHash(kdf, b, saltB, p)
    ensures saltA == saltB
    ensures kdf(a, saltA, p.iterations, p.memory, p.parallelism, p.keyLength)
         == kdf(b, saltB, p.iterations, p.memory, p.parallelism, p.keyLength)
  {
    ParseEncoded(kdf, a, saltA, p);
    ParseEncoded(kdf, b, saltB, p);
  }

  // ---- The hasher ----

  /** A password as its bytes and the number of characters the UTF-8 library counts in them. */
  datatype Candidate = Candidate(bytes: Bytes, characters: nat)
  {
    predicate MeetsPolicy() {
      characters >= MINIMUM_PASSWORD_CHARACTERS && |bytes| <= MAXIMUM_PASSWORD_BYTES
    }
  }

  datatype HashOutcome = Printed(hash: string) | AgainstPolicy | NoRandomness

  /** The bytes of "identity dummy password value". */
  const DUMMY_PASSWORD: Bytes := [
    105, 100, 101, 110, 116, 105, 116, 121, 32, 100, 117, 109, 109, 121, 32,
    112, 97, 115, 115, 119, 111, 114, 100, 32, 118, 97, 108, 117, 101]

  class Hasher {
    const kdf: Kdf
    const params: Params
    const dummyHash: string

    ghost predicate Valid() {
      && KeysFit(kdf) && params == DEFAULT_PARAMS
      && exists salt: Bytes :: |salt| == params.saltLength && dummyHash == EncodeHash(kdf, DUMMY_PASSWORD, salt, params)
    }

    constructor (kdf: Kdf)
      requires KeysFit(kdf)
      ensures Valid() && this.kdf == kdf
    {
      var salt: Bytes := seq(DEFAULT_PARAMS.saltLength, i => 0);
      this.kdf := kdf;
      params := DEFAULT_PARAMS;
      dummyHash := EncodeHash(kdf, DUMMY_PASSWORD, salt, DEFAULT_PARAMS);
    }

    /** Draws a salt from the random source, which may fail, and prints the hash. */
    method Hash(candidate: Candidate, random: Option<Bytes>) returns (r: HashOutcome)
      requires Valid() && (random.Some? ==> |random.value| == params.saltLength)
      ensures r == if candidate.characters < 15 || |candidate.bytes| > 1024 then AgainstPolicy
                   else if random.None? then NoRandomness
                   else Printed(EncodeHash(kdf, candidate.bytes, random.value, DEFAULT_PARAMS))
    {
      if !candidate.MeetsPolicy() {
        return AgainstPolicy;
      }
      if random.None? {
        return NoRandomness;
      }
      r := Printed(EncodeHash(kdf, candidate.bytes, random.value, params));
    }

    /** Checking anything against the dummy hash is decided without an error. */
    lemma DummyParses(candidate: Bytes)
      requires Valid()
      ensures Verify(kdf, candidate, dummyHash).Some?
    {
      var salt: Bytes :| |salt| == params.saltLength && dummyHash == EncodeHash(kdf, DUMMY_PASSWORD, salt, params);
      VerifyEncoded(kdf, candidate, DUMMY_PASSWORD, salt, params);
    }
  }
}
