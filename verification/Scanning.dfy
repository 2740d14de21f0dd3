/** The parts of strings.Split and fmt.Sscanf that internal/auth/password.go relies on. */
module Scanning {
  import opened Decimal
  import opened Wrappers

  // ---------------------------------------------------------------- strings.Split on one character

  function Split(s: string, sep: char): (parts: seq<string>)
    ensures parts != []
  {
    if s == "" then [""]
    else
      var rest := Split(s[1..], sep);
      if s[0] == sep then [""] + rest else [[s[0]] + rest[0]] + rest[1..]
  }

  function Join(parts: seq<string>, sep: char): string
    requires parts != []
  {
    if |parts| == 1 then parts[0] else parts[0] + [sep] + Join(parts[1..], sep)
  }

  lemma {:induction false} SplitHead(s: string, t: string, sep: char)
    requires sep !in s
    ensures Split(s + [sep] + t, sep) == [s] + Split(t, sep)
    ensures Split(s, sep) == [s]
  {
    if s == "" {
      assert s + [sep] + t == [sep] + t;
      assert ([sep] + t)[1..] == t;
    } else {
      SplitHead(s[1..], t, sep);
      assert (s + [sep] + t)[1..] == s[1..] + [sep] + t;
      assert s == [s[0]] + s[1..];
    }
  }

  /** Splitting undoes joining exactly when no part holds the separator: here, the direction that parses. */
  lemma {:induction false} JoinThenSplit(parts: seq<string>, sep: char)
    requires parts != [] && forall i :: 0 <= i < |parts| ==> sep !in parts[i]
    ensures Split(Join(parts, sep), sep) == parts
  {
    if |parts| == 1 {
      SplitHead(parts[0], "", sep);
      assert parts == [parts[0]];
    } else {
      JoinThenSplit(parts[1..], sep);
      SplitHead(parts[0], Join(parts[1..], sep), sep);
      assert parts == [parts[0]] + parts[1..];
    }
  }

  /** The other direction: joining the parts always gives the string back, and no part holds the separator. */
  lemma {:induction false} SplitThenJoin(s: string, sep: char)
    ensures Join(Split(s, sep), sep) == s
    ensures forall i :: 0 <= i < |Split(s, sep)| ==> sep !in Split(s, sep)[i]
  {
    if s != "" {
      SplitThenJoin(s[1..], sep);
      var rest := Split(s[1..], sep);
      assert s == [s[0]] + s[1..];
      if s[0] == sep {
        assert ([""] + rest)[1..] == rest;
        assert "" + [sep] + Join(rest, sep) == [sep] + Join(rest, sep);
      } else if |rest| > 1 {
        assert [s[0]] + rest[0] + [sep] + Join(rest[1..], sep) == [s[0]] + (rest[0] + [sep] + Join(rest[1..], sep));
      }
    }
  }

  // ---------------------------------------------------------------- fmt.Sscanf

  /** The characters a verb skips, apart from the newline. */
  predicate IsSpace(c: char) {
    || '\t' <= c <= '\r' || c == ' ' || c == '\U{0085}' || c == '\U{00A0}' || c == '\U{1680}'
    || '\U{2000}' <= c <= '\U{200A}' || '\U{2028}' <= c <= '\U{2029}' || c == '\U{202F}' || c == '\U{205F}'
    || c == '\U{3000}'
  }

  /** A newline where a number should be is an error; other space is skipped. */
  function SkipSpace(s: string): Option<string> {
    if s == "" then Some(s)
    else if s[0] == '\n' then None
    else if IsSpace(s[0]) then SkipSpace(s[1..])
    else Some(s)
  }

  /** How many digits s starts with. */
  function Run(s: string): (n: nat)
    ensures n <= |s| && AllDigits(s[..n]) && (n < |s| ==> !IsDigit(s[n]))
  {
    if s == "" || !IsDigit(s[0]) then 0
    else
      var n := Run(s[1..]);
      assert s[..n + 1] == [s[0]] + s[1..][..n];
      n + 1
  }

  const MAX_INT: nat := 0x7FFF_FFFF_FFFF_FFFF

  datatype Scanned = Scanned(value: int, rest: string)

  /** Digits, at least one of them, whose value is at most max. */
  function ScanDigits(s: string, max: nat): Option<Scanned> {
    var n := Run(s);
    if n == 0 || Value(s[..n]) > max then None else Some(Scanned(Value(s[..n]), s[n..]))
  }

  /** %d into an unsigned variable: no sign. */
  function ScanUint(s: string, max: nat): (r: Option<Scanned>)
    ensures r.Some? ==> 0 <= r.value.value <= max
  {
    match SkipSpace(s)
    case None => None
    case Some(t) => ScanDigits(t, max)
  }

  /** %d into a signed variable: an optional sign. */
  function ScanInt(s: string): Option<Scanned> {
    match SkipSpace(s)
    case None => None
    case Some(t) =>
      if t != "" && t[0] == '-' then
        (match ScanDigits(t[1..], MAX_INT + 1)
         case None => None
         case Some(n) => Some(Scanned(-n.value, n.rest)))
      else ScanDigits(if t != "" && t[0] == '+' then t[1..] else t, MAX_INT)
  }

  /** The plain characters of a format must be there as they are. */
  function Expect(text: string, s: string): Option<string> {
    if text <= s then Some(s[|text|..]) else None
  }

  // ---------------------------------------------------------------- reading what was printed

  lemma {:induction false} RunOf(s: string, rest: string)
    requires AllDigits(s) && (rest == "" || !IsDigit(rest[0]))
    ensures Run(s + rest) == |s|
  {
    if s == "" {
      assert s + rest == rest;
    } else {
      RunOf(s[1..], rest);
      assert (s + rest)[1..] == s[1..] + rest;
    }
  }

  /** A printed number is read back when it fits, and refused when it does not. */
  lemma ScanPrinted(n: nat, rest: string, max: nat)
    requires rest == "" || !IsDigit(rest[0])
    ensures ScanUint(Print(n) + rest, max) == if n <= max then Some(Scanned(n, rest)) else None
    ensures ScanInt(Print(n) + rest) == if n <= MAX_INT then Some(Scanned(n, rest)) else None
  {
    var s := Print(n) + rest;
    assert IsDigit(s[0]);
    assert SkipSpace(s) == Some(s);
    RunOf(Print(n), rest);
    assert s[..|Print(n)|] == Print(n) && s[|Print(n)|..] == rest;
    PrintThenValue(n);
  }

  lemma {:induction false} ValueOfZero(s: string)
    requires AllDigits(s)
    ensures Value("0" + s) == Value(s)
  {
    if s != "" {
      ValueOfZero(s[..|s| - 1]);
      assert ("0" + s)[..|s|] == "0" + s[..|s| - 1];
    } else {
      assert "0" + s == "0" && "0"[..0] == "";
    }
  }

  /** A zero in front of the digits changes nothing. */
  lemma ScanZero(n: nat, rest: string, max: nat)
    requires n <= max && (rest == "" || !IsDigit(rest[0]))
    ensures ScanUint("0" + Print(n) + rest, max) == Some(Scanned(n, rest))
  {
    var digits := "0" + Print(n);
    var s := digits + rest;
    assert SkipSpace(s) == Some(s);
    RunOf(digits, rest);
    assert s[..|digits|] == digits && s[|digits|..] == rest;
    ValueOfZero(Print(n));
    PrintThenValue(n);
  }

  lemma ExpectHere(text: string, rest: string)
    ensures Expect(text, text + rest) == Some(rest)
  {}
}
