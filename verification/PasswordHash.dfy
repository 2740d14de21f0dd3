/**
 internal/auth/password.go: the printed form of a password hash and the check that parses it.
 Argon2id is a function parameter; the random salt is a parameter too.
 */
module PasswordHash {
  import opened Wrappers
  import opened Decimal
  import opened Base64
  import opened Scanning

  const VERSION: nat := 0x13
  const ARGON2_TIME: nat := 2
  const ARGON2_MEMORY: nat := 19 * 1024
  const ARGON2_PARALLELISM: nat := 1
  const KEY_LENGTH: nat := 32

  const TWO_32: nat := 0x1_0000_0000

  /** Cost parameters as the Go types hold them: uint32, uint32 and uint8. */
  datatype Params = Params(memory: nat, time: nat, parallelism: nat) {
    predicate Fits() {
      memory < TWO_32 && time < TWO_32 && parallelism < 256
    }

    /** What argon2.IDKey answers to; it panics on a zero time or parallelism. */
    predicate Usable() {
      Fits() && time >= 1 && parallelism >= 1
    }
  }

  const DEFAULTS := Params(ARGON2_MEMORY, ARGON2_TIME, ARGON2_PARALLELISM)

  /** argon2.IDKey: password, salt, parameters, key length. */
  type Kdf = (string, seq<byte>, Params, nat) -> seq<byte>

  /** A key has the length that was asked for. */
  ghost predicate KeepsLength(kdf: Kdf) {
    forall pw: string, salt: seq<byte>, p: Params, n: nat :: |kdf(pw, salt, p, n)| == n
  }

  datatype Problem =
    | NoRandomness | InvalidHashFormat | BadVersion | VersionMismatch
    | BadParameters | BadSalt | BadDigest | Panic

  // ---------------------------------------------------------------- printing

  function VersionPart(version: nat): string { "v=" + Print(version) }

  function ParamsPart(p: Params): string {
    "m=" + Print(p.memory) + ",t=" + Print(p.time) + ",p=" + Print(p.parallelism)
  }

  /** The fmt.Sprintf of the modular crypt string. */
  function Encoded(version: nat, p: Params, salt: seq<byte>, digest: seq<byte>): string {
    "$argon2id$" + VersionPart(version) + "$" + ParamsPart(p) + "$" + Encode(salt) + "$" + Encode(digest)
  }

  /** The stored string for any parameters and key length. */
  function HashWith(kdf: Kdf, password: string, salt: seq<byte>, p: Params, keyLength: nat): string {
    Encoded(VERSION, p, salt, kdf(password, salt, p, keyLength))
  }

  /** HashPassword; randomness is absent when reading it failed. */
  function HashPassword(kdf: Kdf, password: string, randomness: Option<seq<byte>>): Result<string, Problem> {
    match randomness
    case None => Err(NoRandomness)
    case Some(salt) => Ok(HashWith(kdf, password, salt, DEFAULTS, KEY_LENGTH))
  }

  lemma PrintedNumbers()
    ensures Print(19) == "19" && Print(19456) == "19456" && Print(2) == "2" && Print(1) == "1"
  {
    assert Print(1) == "1" && Print(2) == "2";
    assert Print(19) == Print(1) + "9";
    assert Print(194) == Print(19) + "4";
    assert Print(1945) == Print(194) + "5";
    assert Print(19456) == Print(1945) + "6";
  }

  lemma PrintedParts()
    ensures VersionPart(19) == "v=19" && ParamsPart(Params(19456, 2, 1)) == "m=19456,t=2,p=1"
  {
    PrintedNumbers();
  }

  lemma PrintedHead()
    ensures "$argon2id$" + "v=19" + "$" + "m=19456,t=2,p=1" + "$" == "$argon2id$v=19$m=19456,t=2,p=1$"
  {
    assert "$argon2id$" + "v=19" + "$" == "$argon2id$v=19$";
    assert "m=19456,t=2,p=1" + "$" == "m=19456,t=2,p=1$";
  }

  /** The stored string, letter by letter: version 19, 19 MiB, two passes, one lane, a key of 32 bytes. */
  lemma StoredString(kdf: Kdf, password: string, salt: seq<byte>)
    ensures HashPassword(kdf, password, Some(salt)) ==
            Ok("$argon2id$v=19$m=19456,t=2,p=1$" + Encode(salt) + "$" +
               Encode(kdf(password, salt, Params(19456, 2, 1), 32)))
  {
    PrintedParts();
    PrintedHead();
  }

  // ---------------------------------------------------------------- parsing

  datatype Parsed = Parsed(params: Params, salt: seq<byte>, digest: seq<byte>)

  /** Sscanf with "v=%d". What follows the number is not looked at. */
  function ScanVersion(s: string): Option<int> {
    match Expect("v=", s)
    case None => None
    case Some(t) =>
      match ScanInt(t)
      case None => None
      case Some(v) => Some(v.value)
  }

  /** One plain text and one unsigned number after it. */
  function ScanField(text: string, s: string, max: nat): (r: Option<Scanned>)
    ensures r.Some? ==> 0 <= r.value.value <= max
  {
    match Expect(text, s)
    case None => None
    case Some(t) => ScanUint(t, max)
  }

  /** Sscanf with "m=%d,t=%d,p=%d". */
  function ScanParams(s: string): Option<Params> {
    match ScanField("m=", s, TWO_32 - 1)
    case None => None
    case Some(m) =>
      match ScanField(",t=", m.rest, TWO_32 - 1)
      case None => None
      case Some(t) =>
        match ScanField(",p=", t.rest, 255)
        case None => None
        case Some(p) => Some(Params(m.value, t.value, p.value))
  }

  function ParseRest(costs: string, salt: string, digest: string): Result<Parsed, Problem> {
    match ScanParams(costs)
    case None => Err(BadParameters)
    case Some(params) =>
      match Decode(salt)
      case None => Err(BadSalt)
      case Some(saltBytes) =>
        match Decode(digest)
        case None => Err(BadDigest)
        case Some(digestBytes) => Ok(Parsed(params, saltBytes, digestBytes))
  }

  function ParseParts(parts: seq<string>): Result<Parsed, Problem> {
    if |parts| != 6 || parts[1] != "argon2id" then Err(InvalidHashFormat)
    else
      match ScanVersion(parts[2])
      case None => Err(BadVersion)
      case Some(version) => if version != VERSION then Err(VersionMismatch) else ParseRest(parts[3], parts[4], parts[5])
  }

  /** Everything VerifyPassword does before it hashes. */
  function Parse(encoded: string): Result<Parsed, Problem> {
    ParseParts(Split(encoded, '$'))
  }

  /** Hash the attempt again and compare. The key length is the digest's, cut to 32 bits; a zero one panics. */
  function Check(kdf: Kdf, password: string, h: Parsed): Result<bool, Problem> {
    var n := |h.digest| % TWO_32;
    if !h.params.Usable() || n == 0 then Err(Panic)
    else Ok(kdf(password, h.salt, h.params, n) == h.digest)
  }

  function VerifyPassword(kdf: Kdf, password: string, encoded: string): Result<bool, Problem> {
    match Parse(encoded)
    case Err(problem) => Err(problem)
    case Ok(h) => Check(kdf, password, h)
  }

  // ---------------------------------------------------------------- round trip

  lemma VersionBack(version: nat)
    ensures ScanVersion(VersionPart(version)) == if version <= MAX_INT then Some(version) else None
  {
    ExpectHere("v=", Print(version));
    assert Print(version) + "" == Print(version);
    ScanPrinted(version, "", 0);
  }

  lemma NoDollarInDigits(n: nat)
    ensures '$' !in Print(n)
  {
    assert !IsDigit('$');
  }

  lemma FieldBack(text: string, n: nat, rest: string, max: nat)
    requires rest == "" || !IsDigit(rest[0])
    ensures ScanField(text, text + Print(n) + rest, max) == if n <= max then Some(Scanned(n, rest)) else None
  {
    assert text + Print(n) + rest == text + (Print(n) + rest);
    ExpectHere(text, Print(n) + rest);
    ScanPrinted(n, rest, max);
  }

  lemma ScanThree(p: Params, s0: string, s1: string, s2: string)
    requires s2 == ",p=" + Print(p.parallelism)
    requires s1 == ",t=" + Print(p.time) + s2 && s0 == "m=" + Print(p.memory) + s1
    ensures ScanParams(s0) == if p.Fits() then Some(p) else None
  {
    FieldBack("m=", p.memory, s1, TWO_32 - 1);
    FieldBack(",t=", p.time, s2, TWO_32 - 1);
    assert s2 == ",p=" + Print(p.parallelism) + "";
    FieldBack(",p=", p.parallelism, "", 255);
  }

  lemma Regroup(a: string, b: string, c: string, d: string, e: string)
    ensures a + b + c + d + e == a + ((b + c) + (d + e))
  {}

  lemma ParamsBack(p: Params)
    ensures ScanParams(ParamsPart(p)) == if p.Fits() then Some(p) else None
  {
    var m, t, q := "m=" + Print(p.memory), ",t=" + Print(p.time), ",p=" + Print(p.parallelism);
    assert ParamsPart(p) == m + ",t=" + Print(p.time) + ",p=" + Print(p.parallelism);
    Regroup(m, ",t=", Print(p.time), ",p=", Print(p.parallelism));
    ScanThree(p, m + (t + q), t + q, q);
  }

  lemma NoDollarInParams(p: Params)
    ensures '$' !in ParamsPart(p)
  {
    NoDollarInDigits(p.memory);
    NoDollarInDigits(p.time);
    NoDollarInDigits(p.parallelism);
  }

  lemma NoDollarInBase64(b: seq<byte>)
    ensures '$' !in Encode(b)
  {}

  function Parts(version: nat, p: Params, salt: seq<byte>, digest: seq<byte>): seq<string> {
    ["", "argon2id", VersionPart(version), ParamsPart(p), Encode(salt), Encode(digest)]
  }

  lemma JoinSix(a: string, b: string, c: string, d: string, e: string, f: string)
    ensures Join([a, b, c, d, e, f], '$') == a + "$" + b + "$" + c + "$" + d + "$" + e + "$" + f
  {
    assert Join([f], '$') == f;
    assert [e, f][1..] == [f];
    assert Join([e, f], '$') == e + "$" + f;
    assert [d, e, f][1..] == [e, f];
    assert Join([d, e, f], '$') == d + "$" + (e + "$" + f);
    assert [c, d, e, f][1..] == [d, e, f];
    assert Join([c, d, e, f], '$') == c + "$" + Join([d, e, f], '$');
    assert [b, c, d, e, f][1..] == [c, d, e, f];
    assert Join([b, c, d, e, f], '$') == b + "$" + Join([c, d, e, f], '$');
    assert [a, b, c, d, e, f][1..] == [b, c, d, e, f];
  }

  lemma EncodedIsJoin(version: nat, p: Params, salt: seq<byte>, digest: seq<byte>)
    ensures Encoded(version, p, salt, digest) == Join(Parts(version, p, salt, digest), '$')
  {
    var v, q, s, d := VersionPart(version), ParamsPart(p), Encode(salt), Encode(digest);
    JoinSix("", "argon2id", v, q, s, d);
    assert "" + "$" + "argon2id" + "$" == "$argon2id$";
  }

  lemma NoDollarInParts(version: nat, p: Params, salt: seq<byte>, digest: seq<byte>, i: nat)
    requires i < 6
    ensures '$' !in Parts(version, p, salt, digest)[i]
  {
    NoDollarInDigits(version);
    NoDollarInParams(p);
    NoDollarInBase64(salt);
    NoDollarInBase64(digest);
  }

  /** The encoded string splits into exactly the six parts it was put together from. */
  lemma SixParts(version: nat, p: Params, salt: seq<byte>, digest: seq<byte>)
    ensures Split(Encoded(version, p, salt, digest), '$') == Parts(version, p, salt, digest)
  {
    EncodedIsJoin(version, p, salt, digest);
    var parts := Parts(version, p, salt, digest);
    forall i | 0 <= i < |parts| ensures '$' !in parts[i] { NoDollarInParts(version, p, salt, digest, i); }
    JoinThenSplit(parts, '$');
  }

  /** What parsing makes of the printed form of any version, parameters, salt and digest. */
  function Recovered(version: nat, h: Parsed): Result<Parsed, Problem> {
    if version > MAX_INT then Err(BadVersion)
    else if version != VERSION then Err(VersionMismatch)
    else if !h.params.Fits() then Err(BadParameters)
    else Ok(h)
  }

  lemma RestBack(costs: string, salt: string, digest: string, h: Parsed)
    requires ScanParams(costs) == if h.params.Fits() then Some(h.params) else None
    requires Decode(salt) == Some(h.salt) && Decode(digest) == Some(h.digest)
    ensures ParseRest(costs, salt, digest) == if h.params.Fits() then Ok(h) else Err(BadParameters)
  {}

  lemma FieldsBack(parts: seq<string>, version: nat, h: Parsed)
    requires |parts| == 6 && parts[1] == "argon2id"
    requires ScanVersion(parts[2]) == if version <= MAX_INT then Some(version) else None
    requires ParseRest(parts[3], parts[4], parts[5]) == if h.params.Fits() then Ok(h) else Err(BadParameters)
    ensures ParseParts(parts) == Recovered(version, h)
  {}

  lemma PrintedRestBack(h: Parsed)
    ensures ParseRest(ParamsPart(h.params), Encode(h.salt), Encode(h.digest)) ==
            if h.params.Fits() then Ok(h) else Err(BadParameters)
  {
    ParamsBack(h.params);
    EncodeThenDecode(h.salt);
    EncodeThenDecode(h.digest);
    RestBack(ParamsPart(h.params), Encode(h.salt), Encode(h.digest), h);
  }

  lemma PartsBack(version: nat, h: Parsed)
    ensures ParseParts(Parts(version, h.params, h.salt, h.digest)) == Recovered(version, h)
  {
    VersionBack(version);
    PrintedRestBack(h);
    FieldsBack(Parts(version, h.params, h.salt, h.digest), version, h);
  }

  /**
   Parsing a printed hash recovers parameters, salt and digest whatever they are, provided the
   version is the supported one and the parameters fit their types; otherwise it says which not.
   */
  lemma ParseEncoded(version: nat, p: Params, salt: seq<byte>, digest: seq<byte>)
    ensures Parse(Encoded(version, p, salt, digest)) == Recovered(version, Parsed(p, salt, digest))
  {
    SixParts(version, p, salt, digest);
    PartsBack(version, Parsed(p, salt, digest));
  }

  lemma SameFields(s: seq<string>, t: seq<string>)
    requires |s| == |t| && forall i :: 1 <= i < |s| ==> s[i] == t[i]
    ensures ParseParts(s) == ParseParts(t)
  {}

  /** Whatever stands before the first dollar sign is not looked at. */
  lemma PrefixIgnored(prefix: string, rest: string)
    requires '$' !in prefix
    ensures Parse(prefix + "$" + rest) == Parse("$" + rest)
  {
    SplitHead(prefix, rest, '$');
    SplitHead("", rest, '$');
    assert "" + "$" + rest == "$" + rest;
    SameFields(Split(prefix + "$" + rest, '$'), Split("$" + rest, '$'));
  }

  // ---------------------------------------------------------------- which accepted strings are printed ones

  /** An encoded part that the encoder could have written. */
  predicate Canonical(s: string) {
    Digits(s).Some? && Weight(s) == |s| && SpareBitsZero(AsSextets(Digits(s).value))
  }

  /** A number as it is printed: digits, without a leading zero. */
  predicate Plain(s: string) {
    s != "" && AllDigits(s) && (|s| > 1 ==> s[0] != '0')
  }

  /** A key with a plain number behind it. */
  predicate PlainField(s: string, key: string) {
    key <= s && Plain(s[|key|..])
  }

  /** Memory, time and parallelism, comma between them and nothing after. */
  predicate PlainParams(s: string) {
    var fields := Split(s, ',');
    |fields| == 3 && PlainField(fields[0], "m=") && PlainField(fields[1], "t=") && PlainField(fields[2], "p=")
  }

  /** The six parts as the printer writes them. */
  predicate PartsPrinted(parts: seq<string>) {
    && |parts| == 6 && parts[0] == "" && parts[2] == VersionPart(VERSION) && PlainParams(parts[3])
    && Canonical(parts[4]) && Canonical(parts[5])
  }

  lemma {:induction false} PrintIsPlain(n: nat)
    ensures Plain(Print(n)) && (n > 0 ==> Print(n)[0] != '0')
  {
    if n >= 10 { PrintIsPlain(n / 10); }
  }

  lemma PlainInit(s: string)
    requires Plain(s) && |s| > 1
    ensures Plain(s[..|s| - 1]) && s[..|s| - 1][0] == s[0] != '0'
  {}

  lemma {:induction false} PlainIsPrinted(s: string)
    requires Plain(s)
    ensures Print(Value(s)) == s && (s[0] != '0' ==> Value(s) > 0)
  {
    var t, last := s[..|s| - 1], s[|s| - 1];
    DigitBack(last);
    if |s| == 1 {
      assert s == [last] && Value(t) == 0;
    } else {
      PlainInit(s);
      PlainIsPrinted(t);
      PrintSnoc(Value(t), DigitValue(last));
      assert s == t + [last];
    }
  }

  function Field(key: string, n: nat): string {
    key + Print(n)
  }

  lemma FieldIsPlain(key: string, n: nat)
    requires ',' !in key
    ensures PlainField(Field(key, n), key) && ',' !in Field(key, n)
  {
    PrintIsPlain(n);
    assert Field(key, n)[|key|..] == Print(n);
    assert !IsDigit(',');
  }

  lemma PlainIsField(s: string, key: string) returns (n: nat)
    requires PlainField(s, key)
    ensures s == Field(key, n)
  {
    PlainIsPrinted(s[|key|..]);
    n := Value(s[|key|..]);
    assert s == key + s[|key|..];
  }

  lemma JoinThree(a: string, b: string, c: string)
    ensures Join([a, b, c], ',') == a + "," + b + "," + c
  {
    assert [a, b, c][1..] == [b, c] && [b, c][1..] == [c];
    assert Join([b, c], ',') == b + "," + c;
  }

  lemma ParamsAreFields(p: Params)
    ensures ParamsPart(p) == Join([Field("m=", p.memory), Field("t=", p.time), Field("p=", p.parallelism)], ',')
  {
    var m, t, q := Print(p.memory), Print(p.time), Print(p.parallelism);
    JoinThree("m=" + m, "t=" + t, "p=" + q);
    assert "," + "t=" == ",t=" && "," + "p=" == ",p=";
    assert "m=" + m + "," + ("t=" + t) + "," + ("p=" + q) == "m=" + m + ("," + "t=") + t + ("," + "p=") + q;
  }

  lemma PrintedParamsArePlain(p: Params)
    ensures PlainParams(ParamsPart(p))
  {
    var fields := [Field("m=", p.memory), Field("t=", p.time), Field("p=", p.parallelism)];
    ParamsAreFields(p);
    FieldIsPlain("m=", p.memory);
    FieldIsPlain("t=", p.time);
    FieldIsPlain("p=", p.parallelism);
    JoinThenSplit(fields, ',');
  }

  lemma PlainParamsArePrinted(s: string) returns (p: Params)
    requires PlainParams(s)
    ensures s == ParamsPart(p)
  {
    var fields := Split(s, ',');
    SplitThenJoin(s, ',');
    var m := PlainIsField(fields[0], "m=");
    var t := PlainIsField(fields[1], "t=");
    var q := PlainIsField(fields[2], "p=");
    p := Params(m, t, q);
    ParamsAreFields(p);
    assert fields == [fields[0], fields[1], fields[2]];
  }

  /** Parameters that were read are written as the printer writes them exactly when their text is plain. */
  lemma PlainParamsIff(s: string, p: Params)
    requires ScanParams(s) == Some(p)
    ensures s == ParamsPart(p) <==> PlainParams(s)
  {
    if PlainParams(s) {
      var q := PlainParamsArePrinted(s);
      ParamsBack(q);
    } else {
      PrintedParamsArePlain(p);
    }
  }

  lemma CanonicalIff(s: string, b: seq<byte>)
    requires Decode(s) == Some(b)
    ensures Digits(s).Some? && (Encode(b) == s <==> Canonical(s))
  {
    DecodesIff(s);
    DigitsIff(s);
    DecodeThenEncode(s);
  }

  lemma RestFields(costs: string, salt: string, digest: string, h: Parsed)
    requires ParseRest(costs, salt, digest) == Ok(h)
    ensures ScanParams(costs) == Some(h.params) && Decode(salt) == Some(h.salt) && Decode(digest) == Some(h.digest)
  {}

  lemma ParsedFields(parts: seq<string>, h: Parsed)
    requires ParseParts(parts) == Ok(h)
    ensures |parts| == 6 && parts[1] == "argon2id"
    ensures ScanParams(parts[3]) == Some(h.params)
    ensures Decode(parts[4]) == Some(h.salt) && Decode(parts[5]) == Some(h.digest)
  {
    RestFields(parts[3], parts[4], parts[5], h);
  }

  lemma SixEqual(s: seq<string>, t: seq<string>)
    requires |s| == |t| == 6
    ensures s == t <==> s[0] == t[0] && s[1] == t[1] && s[2] == t[2] && s[3] == t[3] && s[4] == t[4] && s[5] == t[5]
  {}

  lemma Fieldwise(parts: seq<string>, h: Parsed)
    requires |parts| == 6 && parts[1] == "argon2id"
    requires parts[3] == ParamsPart(h.params) <==> PlainParams(parts[3])
    requires Encode(h.salt) == parts[4] <==> Canonical(parts[4])
    requires Encode(h.digest) == parts[5] <==> Canonical(parts[5])
    ensures parts == Parts(VERSION, h.params, h.salt, h.digest) <==> PartsPrinted(parts)
  {
    SixEqual(parts, Parts(VERSION, h.params, h.salt, h.digest));
  }

  lemma PartsEqualIff(parts: seq<string>, h: Parsed)
    requires |parts| == 6 && parts[1] == "argon2id" && ScanParams(parts[3]) == Some(h.params)
    requires Decode(parts[4]) == Some(h.salt) && Decode(parts[5]) == Some(h.digest)
    ensures parts == Parts(VERSION, h.params, h.salt, h.digest) <==> PartsPrinted(parts)
  {
    PlainParamsIff(parts[3], h.params);
    CanonicalIff(parts[4], h.salt);
    CanonicalIff(parts[5], h.digest);
    Fieldwise(parts, h);
  }

  /**
   An accepted string is the printed form of what was parsed from it exactly when nothing stands
   before the first dollar sign, the version is written as the printer writes it, the parameters
   are plain numbers with nothing after them, and both base64 parts are free of line breaks and
   have zero spare bits.
   */
  lemma PrintedIff(s: string, h: Parsed)
    ensures Parse(s) == Ok(h) ==>
      (Encoded(VERSION, h.params, h.salt, h.digest) == s <==> PartsPrinted(Split(s, '$')))
  {
    if Parse(s) == Ok(h) {
      ParsedFields(Split(s, '$'), h);
      PartsEqualIff(Split(s, '$'), h);
      SixParts(VERSION, h.params, h.salt, h.digest);
      EncodedIsJoin(VERSION, h.params, h.salt, h.digest);
      SplitThenJoin(s, '$');
    }
  }

  /** What follows the version number is not looked at. */
  lemma VersionJunkIgnored(version: nat, junk: string)
    requires version <= MAX_INT && junk != "" && !IsDigit(junk[0])
    ensures ScanVersion(VersionPart(version) + junk) == Some(version)
  {
    assert VersionPart(version) + junk == "v=" + (Print(version) + junk);
    ExpectHere("v=", Print(version) + junk);
    ScanPrinted(version, junk, 0);
  }

  /** What follows the parameters is not looked at. */
  lemma ParamsJunkIgnored(p: Params, junk: string)
    requires p.Fits() && junk != "" && !IsDigit(junk[0])
    ensures ScanParams(ParamsPart(p) + junk) == Some(p)
  {
    var m, t, q := Print(p.memory), Print(p.time), Print(p.parallelism);
    var s2 := ",p=" + q + junk;
    var s1 := ",t=" + t + s2;
    assert ParamsPart(p) + junk == "m=" + m + s1;
    FieldBack("m=", p.memory, s1, TWO_32 - 1);
    FieldBack(",t=", p.time, s2, TWO_32 - 1);
    FieldBack(",p=", p.parallelism, junk, 255);
  }

  /** A leading zero is read like none: another way to write the version and each parameter. */
  lemma LeadingZeroIgnored(text: string, n: nat, rest: string, max: nat)
    requires n <= max && (rest == "" || !IsDigit(rest[0]))
    ensures ScanField(text, text + "0" + Print(n) + rest, max) == Some(Scanned(n, rest))
    ensures !Plain("0" + Print(n))
  {
    assert text + "0" + Print(n) + rest == text + ("0" + Print(n) + rest);
    ExpectHere(text, "0" + Print(n) + rest);
    ScanZero(n, rest, max);
  }

  /** Two hashes print alike only when they are alike. */
  lemma EncodedInjective(p: Params, salt: seq<byte>, digest: seq<byte>, q: Params, salt': seq<byte>, digest': seq<byte>)
    requires p.Fits() && q.Fits() && Encoded(VERSION, p, salt, digest) == Encoded(VERSION, q, salt', digest')
    ensures p == q && salt == salt' && digest == digest'
  {
    ParseEncoded(VERSION, p, salt, digest);
    ParseEncoded(VERSION, q, salt', digest');
  }

  /** Verifying against a printed hash is checking against what was printed. */
  lemma VerifyEncoded(kdf: Kdf, attempt: string, p: Params, salt: seq<byte>, digest: seq<byte>)
    requires p.Fits()
    ensures VerifyPassword(kdf, attempt, Encoded(VERSION, p, salt, digest)) ==
            Check(kdf, attempt, Parsed(p, salt, digest))
  {
    ParseEncoded(VERSION, p, salt, digest);
  }

  /**
   Against any printed hash whose costs fit, VerifyPassword panics exactly for a zero time, a zero
   parallelism or a digest of no bytes modulo 2^32, and otherwise compares keys.
   */
  lemma PrintedPanicsIff(kdf: Kdf, attempt: string, p: Params, salt: seq<byte>, digest: seq<byte>)
    requires p.Fits()
    ensures var r := VerifyPassword(kdf, attempt, Encoded(VERSION, p, salt, digest));
      && (r == Err(Panic) <==> p.time == 0 || p.parallelism == 0 || |digest| % TWO_32 == 0)
      && (r != Err(Panic) ==> r == Ok(kdf(attempt, salt, p, |digest| % TWO_32) == digest))
  {
    VerifyEncoded(kdf, attempt, p, salt, digest);
  }

  lemma CheckKey(kdf: Kdf, attempt: string, h: Parsed)
    requires h.params.Usable() && 1 <= |h.digest| < TWO_32
    ensures Check(kdf, attempt, h) == Ok(kdf(attempt, h.salt, h.params, |h.digest|) == h.digest)
  {}

  /** A hash accepts exactly the passwords with the same key: the one it was made from, and its collisions. */
  lemma VerifyIff(kdf: Kdf, password: string, attempt: string, salt: seq<byte>, p: Params, keyLength: nat)
    requires KeepsLength(kdf) && p.Usable() && 1 <= keyLength < TWO_32
    ensures VerifyPassword(kdf, attempt, HashWith(kdf, password, salt, p, keyLength)) ==
            Ok(kdf(attempt, salt, p, keyLength) == kdf(password, salt, p, keyLength))
  {
    var digest := kdf(password, salt, p, keyLength);
    assert |digest| == keyLength;
    CheckKey(kdf, attempt, Parsed(p, salt, digest));
    VerifyEncoded(kdf, attempt, p, salt, digest);
  }

  /** What HashPassword stores, VerifyPassword accepts, for every password and every salt. */
  lemma HashThenVerify(kdf: Kdf, password: string, salt: seq<byte>)
    requires KeepsLength(kdf)
    ensures HashPassword(kdf, password, Some(salt)).Ok?
    ensures VerifyPassword(kdf, password, HashPassword(kdf, password, Some(salt)).value) == Ok(true)
  {
    VerifyIff(kdf, password, password, salt, DEFAULTS, KEY_LENGTH);
  }
}
