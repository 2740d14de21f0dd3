/**
 Base64 without padding, as base64.RawStdEncoding: sections 3.2 and 4 of RFC 4648. The decoder
 is the lenient one: carriage returns and newlines are skipped wherever they stand, and the
 unused low bits of the last character are not looked at.
 */
module Base64 {
  import opened Wrappers

  type byte = bv8
  type sextet = x: bv8 | x < 64
  type index = i: int | 0 <= i < 64

  // ---------------------------------------------------------------- the alphabet

  function Position(c: char): Option<index> {
    if 'A' <= c <= 'Z' then Some((c - 'A') as int)
    else if 'a' <= c <= 'z' then Some((c - 'a') as int + 26)
    else if '0' <= c <= '9' then Some((c - '0') as int + 52)
    else if c == '+' then Some(62)
    else if c == '/' then Some(63)
    else None
  }

  predicate LineBreak(c: char) {
    c == '\r' || c == '\n'
  }

  /** Table 1 of the standard. */
  function Letter(i: index): (c: char)
    ensures Position(c) == Some(i) && c != '$' && !LineBreak(c)
  {
    if i < 26 then 'A' + i as char
    else if i < 52 then 'a' + (i - 26) as char
    else if i < 62 then '0' + (i - 52) as char
    else if i == 62 then '+' else '/'
  }

  /** Table 1 of RFC 4648, row by row. */
  const UPPER: string := "ABCDEFGHIJKLMNOPQRSTUVWXYZ"
  const LOWER: string := "abcdefghijklmnopqrstuvwxyz"
  const DIGITS: string := "0123456789"

  lemma LetterIsTable(i: index)
    ensures i < 26 ==> |UPPER| == 26 && Letter(i) == UPPER[i]
    ensures 26 <= i < 52 ==> |LOWER| == 26 && Letter(i) == LOWER[i - 26]
    ensures 52 <= i < 62 ==> |DIGITS| == 10 && Letter(i) == DIGITS[i - 52]
    ensures i == 62 ==> Letter(i) == '+'
    ensures i == 63 ==> Letter(i) == '/'
  {}

  lemma PositionThenLetter(c: char)
    requires Position(c).Some?
    ensures Letter(Position(c).value) == c
  {}

  // ---------------------------------------------------------------- groups

  /** The four sextets of a group of three bytes. */
  function Sextet0(x: byte): sextet { x >> 2 }
  function Sextet1(x: byte, y: byte): sextet { ((x & 3) << 4) | (y >> 4) }
  function Sextet2(y: byte, z: byte): sextet { ((y & 15) << 2) | (z >> 6) }
  function Sextet3(z: byte): sextet { z & 63 }

  /** The three bytes of a group of four sextets. */
  function Byte0(w: sextet, x: sextet): byte { (w << 2) | (x >> 4) }
  function Byte1(x: sextet, y: sextet): byte { ((x & 15) << 4) | (y >> 2) }
  function Byte2(y: sextet, z: sextet): byte { ((y & 3) << 6) | z }

  /** Three bytes become four sextets; one or two left over become two or three. */
  function ToSextets(b: seq<byte>): seq<sextet> {
    if |b| == 0 then []
    else if |b| == 1 then [Sextet0(b[0]), Sextet1(b[0], 0)]
    else if |b| == 2 then [Sextet0(b[0]), Sextet1(b[0], b[1]), Sextet2(b[1], 0)]
    else [Sextet0(b[0]), Sextet1(b[0], b[1]), Sextet2(b[1], b[2]), Sextet3(b[2])] + ToSextets(b[3..])
  }

  function FromSextets(d: seq<sextet>): Option<seq<byte>> {
    if |d| == 0 then Some([])
    else if |d| == 1 then None
    else if |d| == 2 then Some([Byte0(d[0], d[1])])
    else if |d| == 3 then Some([Byte0(d[0], d[1]), Byte1(d[1], d[2])])
    else
      match FromSextets(d[4..])
      case None => None
      case Some(rest) => Some([Byte0(d[0], d[1]), Byte1(d[1], d[2]), Byte2(d[2], d[3])] + rest)
  }

  function Chars(d: seq<index>): (s: string)
    ensures |s| == |d| && forall i :: 0 <= i < |d| ==> s[i] == Letter(d[i])
  {
    if d == [] then "" else [Letter(d[0])] + Chars(d[1..])
  }

  /** The characters' positions, line breaks skipped; nothing when some other character is in the way. */
  function Digits(s: string): Option<seq<index>> {
    if s == "" then Some([])
    else if LineBreak(s[0]) then Digits(s[1..])
    else
      match (Position(s[0]), Digits(s[1..]))
      case (Some(d), Some(rest)) => Some([d] + rest)
      case _ => None
  }

  function AsIndex(d: sextet): index { d as int }

  function AsSextet(i: index): sextet { i as bv8 }

  function AsIndexes(d: seq<sextet>): (r: seq<index>)
    ensures |r| == |d| && forall i :: 0 <= i < |d| ==> r[i] == AsIndex(d[i])
  {
    seq(|d|, i requires 0 <= i < |d| => AsIndex(d[i]))
  }

  function AsSextets(d: seq<index>): (r: seq<sextet>)
    ensures |r| == |d| && forall i :: 0 <= i < |d| ==> r[i] == AsSextet(d[i])
  {
    seq(|d|, i requires 0 <= i < |d| => AsSextet(d[i]))
  }

  lemma SameIndex(i: index)
    ensures AsIndex(AsSextet(i)) == i
  {}

  lemma SameSextet(d: sextet)
    ensures AsSextet(AsIndex(d)) == d
  {}

  lemma SameNumbers(r: seq<index>, d: seq<sextet>)
    ensures AsIndexes(AsSextets(r)) == r && AsSextets(AsIndexes(d)) == d
  {
    forall i | 0 <= i < |r| ensures AsIndex(AsSextet(r[i])) == r[i] { SameIndex(r[i]); }
    forall i | 0 <= i < |d| ensures AsSextet(AsIndex(d[i])) == d[i] { SameSextet(d[i]); }
  }

  function Encode(b: seq<byte>): string {
    Chars(AsIndexes(ToSextets(b)))
  }

  function Decode(s: string): Option<seq<byte>> {
    match Digits(s)
    case None => None
    case Some(d) => FromSextets(AsSextets(d))
  }

  // ---------------------------------------------------------------- round trip

  lemma DigitsCons(c: char, i: index, s: string)
    requires !LineBreak(c) && Position(c) == Some(i) && Digits(s).Some?
    ensures Digits([c] + s) == Some([i] + Digits(s).value)
  {
    assert ([c] + s)[1..] == s;
  }

  lemma {:induction false} CharsThenDigits(d: seq<index>)
    ensures Digits(Chars(d)) == Some(d)
  {
    if d != [] {
      CharsThenDigits(d[1..]);
      DigitsCons(Letter(d[0]), d[0], Chars(d[1..]));
      assert d == [d[0]] + d[1..];
    }
  }

  lemma GroupThere(x: byte, y: byte, z: byte)
    ensures Byte0(Sextet0(x), Sextet1(x, y)) == x
    ensures Byte1(Sextet1(x, y), Sextet2(y, z)) == y
    ensures Byte2(Sextet2(y, z), Sextet3(z)) == z
  {}

  lemma ToStep(x: byte, y: byte, z: byte, rest: seq<byte>)
    ensures ToSextets([x, y, z] + rest) == [Sextet0(x), Sextet1(x, y), Sextet2(y, z), Sextet3(z)] + ToSextets(rest)
  {
    assert ([x, y, z] + rest)[3..] == rest;
  }

  lemma FromStep(w: sextet, x: sextet, y: sextet, z: sextet, rest: seq<sextet>)
    ensures FromSextets(rest).None? ==> FromSextets([w, x, y, z] + rest) == None
    ensures FromSextets(rest).Some? ==>
      FromSextets([w, x, y, z] + rest) == Some([Byte0(w, x), Byte1(x, y), Byte2(y, z)] + FromSextets(rest).value)
  {
    assert ([w, x, y, z] + rest)[4..] == rest;
  }

  lemma ThereStep(x: byte, y: byte, z: byte, rest: seq<byte>)
    requires FromSextets(ToSextets(rest)) == Some(rest)
    ensures FromSextets(ToSextets([x, y, z] + rest)) == Some([x, y, z] + rest)
  {
    ToStep(x, y, z, rest);
    FromStep(Sextet0(x), Sextet1(x, y), Sextet2(y, z), Sextet3(z), ToSextets(rest));
    GroupThere(x, y, z);
  }

  lemma ThereOne(x: byte)
    ensures FromSextets(ToSextets([x])) == Some([x])
  {
    GroupThere(x, 0, 0);
    assert ToSextets([x]) == [Sextet0(x), Sextet1(x, 0)];
  }

  lemma ThereTwo(x: byte, y: byte)
    ensures FromSextets(ToSextets([x, y])) == Some([x, y])
  {
    GroupThere(x, y, 0);
    assert ToSextets([x, y]) == [Sextet0(x), Sextet1(x, y), Sextet2(y, 0)];
  }

  lemma {:induction false} SextetsRoundTrip(b: seq<byte>)
    ensures FromSextets(ToSextets(b)) == Some(b)
  {
    if |b| == 1 {
      ThereOne(b[0]);
      assert b == [b[0]];
    } else if |b| == 2 {
      ThereTwo(b[0], b[1]);
      assert b == [b[0], b[1]];
    } else if |b| >= 3 {
      SextetsRoundTrip(b[3..]);
      ThereStep(b[0], b[1], b[2], b[3..]);
      assert b == [b[0], b[1], b[2]] + b[3..];
    }
  }

  /** Every byte string survives encoding and decoding. */
  lemma EncodeThenDecode(b: seq<byte>)
    ensures Decode(Encode(b)) == Some(b)
  {
    CharsThenDigits(AsIndexes(ToSextets(b)));
    SameNumbers([], ToSextets(b));
    SextetsRoundTrip(b);
  }

  // ---------------------------------------------------------------- which strings decode, and to what

  predicate Clean(s: string) {
    forall i :: 0 <= i < |s| ==> Position(s[i]).Some? || LineBreak(s[i])
  }

  /** How many characters are not line breaks. */
  function Weight(s: string): nat {
    if s == "" then 0 else (if LineBreak(s[0]) then 0 else 1) + Weight(s[1..])
  }

  lemma {:induction false} DigitsIff(s: string)
    ensures Digits(s).Some? <==> Clean(s)
    ensures Digits(s).Some? ==> |Digits(s).value| == Weight(s)
  {
    if s != "" {
      DigitsIff(s[1..]);
      assert forall i :: 0 < i < |s| ==> s[i] == s[1..][i - 1];
      assert Clean(s) <==> (Position(s[0]).Some? || LineBreak(s[0])) && Clean(s[1..]);
    }
  }

  lemma {:induction false} FromSextetsIff(d: seq<sextet>)
    ensures FromSextets(d).Some? <==> |d| % 4 != 1
  {
    if |d| >= 4 {
      FromSextetsIff(d[4..]);
      assert d == [d[0], d[1], d[2], d[3]] + d[4..];
      FromStep(d[0], d[1], d[2], d[3], d[4..]);
    }
  }

  /** A string decodes exactly when it holds nothing foreign and its length is not one over a multiple of four. */
  lemma DecodesIff(s: string)
    ensures Decode(s).Some? <==> Clean(s) && Weight(s) % 4 != 1
  {
    DigitsIff(s);
    if Digits(s).Some? { FromSextetsIff(AsSextets(Digits(s).value)); }
  }

  /** The bits of the last character that no byte uses are zero. */
  predicate SpareBitsZero(d: seq<sextet>) {
    && (|d| % 4 == 2 ==> d[|d| - 1] & 15 == 0)
    && (|d| % 4 == 3 ==> d[|d| - 1] & 3 == 0)
  }

  lemma GroupBack(w: sextet, x: sextet, y: sextet, z: sextet)
    ensures Sextet0(Byte0(w, x)) == w
    ensures Sextet1(Byte0(w, x), Byte1(x, y)) == x
    ensures Sextet2(Byte1(x, y), Byte2(y, z)) == y
    ensures Sextet3(Byte2(y, z)) == z
  {}

  lemma TailBack(w: sextet, x: sextet, y: sextet)
    ensures Sextet0(Byte0(w, x)) == w
    ensures Sextet1(Byte0(w, x), 0) == x <==> x & 15 == 0
    ensures Sextet1(Byte0(w, x), Byte1(x, y)) == x
    ensures Sextet2(Byte1(x, y), 0) == y <==> y & 3 == 0
  {}

  lemma BackStep(w: sextet, x: sextet, y: sextet, z: sextet, t: seq<sextet>)
    requires FromSextets(t).Some?
    ensures FromSextets([w, x, y, z] + t).Some?
    ensures ToSextets(FromSextets([w, x, y, z] + t).value) == [w, x, y, z] + ToSextets(FromSextets(t).value)
  {
    FromStep(w, x, y, z, t);
    ToStep(Byte0(w, x), Byte1(x, y), Byte2(y, z), FromSextets(t).value);
    GroupBack(w, x, y, z);
  }

  /** e is what comes out of taking d to bytes and back. */
  predicate Back(d: seq<sextet>, e: seq<sextet>) {
    FromSextets(d).Some? && e == ToSextets(FromSextets(d).value)
  }

  lemma BackGroup(w: sextet, x: sextet, y: sextet, z: sextet, t: seq<sextet>, e: seq<sextet>)
    requires Back(t, e)
    ensures Back([w, x, y, z] + t, [w, x, y, z] + e)
  {
    BackStep(w, x, y, z, t);
  }

  lemma BackLast(d: seq<sextet>) returns (e: seq<sextet>)
    requires |d| < 4 && |d| != 1
    ensures Back(d, e) && (e == d <==> SpareBitsZero(d))
  {
    e := ToSextets(FromSextets(d).value);
    if |d| >= 2 { TailBack(d[0], d[1], if |d| == 3 then d[2] else 0); }
  }

  lemma SpareBitsOfTail(d: seq<sextet>)
    requires |d| >= 4
    ensures SpareBitsZero(d) <==> SpareBitsZero(d[4..])
  {}

  lemma SameTail<T>(s: seq<T>, t: seq<T>, u: seq<T>)
    ensures s + t == s + u <==> t == u
  {
    assert (s + t)[|s|..] == t && (s + u)[|s|..] == u;
  }

  /** Sextets survive decoding and encoding exactly when their spare bits are zero. */
  lemma {:induction false} FromThenToSextets(d: seq<sextet>) returns (e: seq<sextet>)
    requires |d| % 4 != 1
    ensures Back(d, e) && (e == d <==> SpareBitsZero(d))
  {
    if |d| < 4 {
      e := BackLast(d);
    } else {
      var head, t := [d[0], d[1], d[2], d[3]], d[4..];
      var rest := FromThenToSextets(t);
      assert d == head + t;
      BackGroup(d[0], d[1], d[2], d[3], t, rest);
      SameTail(head, rest, t);
      SpareBitsOfTail(d);
      e := head + rest;
    }
  }

  lemma {:induction false} DigitsThenChars(s: string)
    requires Digits(s).Some?
    ensures Chars(Digits(s).value) == s <==> Weight(s) == |s|
    ensures Weight(s) <= |s|
  {
    if s != "" {
      DigitsThenChars(s[1..]);
      DigitsIff(s);
      if !LineBreak(s[0]) {
        PositionThenLetter(s[0]);
        assert Digits(s).value[1..] == Digits(s[1..]).value;
        assert s == [s[0]] + s[1..];
        assert Chars(Digits(s).value)[1..] == Chars(Digits(s[1..]).value);
      }
    }
  }

  lemma BackEncodes(s: string, e: seq<sextet>)
    requires Digits(s).Some? && Back(AsSextets(Digits(s).value), e)
    ensures Decode(s).Some? && Encode(Decode(s).value) == Chars(AsIndexes(e))
  {}

  /** The characters of e are s exactly when e holds the digits of s and s has no line break. */
  lemma CharsBack(s: string, e: seq<sextet>)
    requires Digits(s).Some?
    ensures Chars(AsIndexes(e)) == s <==> Weight(s) == |s| && e == AsSextets(Digits(s).value)
  {
    var d := Digits(s).value;
    DigitsThenChars(s);
    DigitsIff(s);
    SameNumbers(d, e);
    CharsThenDigits(AsIndexes(e));
  }

  /**
   Decoding is not one-to-one: re-encoding gives the string back exactly when it has no line
   break and its spare bits are zero.
   */
  lemma DecodeThenEncode(s: string)
    requires Decode(s).Some?
    ensures Encode(Decode(s).value) == s <==> Weight(s) == |s| && SpareBitsZero(AsSextets(Digits(s).value))
  {
    DecodesIff(s);
    DigitsIff(s);
    var e := FromThenToSextets(AsSextets(Digits(s).value));
    BackEncodes(s, e);
    CharsBack(s, e);
  }
}

/** What section 4 of RFC 4648 says of the encoder, bit by bit. */
module Base64Bits {
  import opened Base64

  function Mask(i: nat): bv8
    requires i < 8
  {
    if i == 0 then 128 else if i == 1 then 64 else if i == 2 then 32 else if i == 3 then 16
    else if i == 4 then 8 else if i == 5 then 4 else if i == 6 then 2 else 1
  }

  /** The k-th bit, most significant first, of bytes laid end to end and followed by zeros. */
  function ByteBit(b: seq<byte>, k: nat): bool {
    k < 8 * |b| && b[k / 8] & Mask(k % 8) != 0
  }

  /** The same for sextets, whose top two bits are not there. */
  function SextetBit(d: seq<sextet>, k: nat): bool {
    k < 6 * |d| && d[k / 6] & Mask(k % 6 + 2) != 0
  }

  lemma Straddle0(x: byte, i: nat)
    requires i < 6
    ensures Sextet0(x) & Mask(i + 2) != 0 <==> x & Mask(i) != 0
  {}

  lemma Straddle1(x: byte, y: byte, i: nat)
    requires i < 6
    ensures Sextet1(x, y) & Mask(i + 2) != 0 <==> (if i < 2 then x & Mask(i + 6) != 0 else y & Mask(i - 2) != 0)
  {}

  lemma Straddle2(y: byte, z: byte, i: nat)
    requires i < 6
    ensures Sextet2(y, z) & Mask(i + 2) != 0 <==> (if i < 4 then y & Mask(i + 4) != 0 else z & Mask(i - 4) != 0)
  {}

  lemma Straddle3(z: byte, i: nat)
    requires i < 6
    ensures Sextet3(z) & Mask(i + 2) != 0 <==> z & Mask(i + 2) != 0
  {}

  /** The bits of one sextet of a group, each found in the right place of the right byte. */
  lemma Sextet0Bits(d: seq<sextet>, b: seq<byte>, k: nat)
    requires k < 6 && d != [] && b != [] && d[0] == Sextet0(b[0])
    ensures SextetBit(d, k) <==> ByteBit(b, k)
  {
    assert k / 6 == 0 && k % 6 == k && k / 8 == 0 && k % 8 == k;
    Straddle0(b[0], k);
  }

  /** A bit that is there, by its position in its byte or sextet. */
  lemma ByteBitAt(b: seq<byte>, n: nat, i: nat)
    requires n < |b| && i < 8
    ensures ByteBit(b, 8 * n + i) <==> b[n] & Mask(i) != 0
  {
    assert (8 * n + i) / 8 == n && (8 * n + i) % 8 == i;
  }

  lemma SextetBitAt(d: seq<sextet>, n: nat, i: nat)
    requires n < |d| && i < 6
    ensures SextetBit(d, 6 * n + i) <==> d[n] & Mask(i + 2) != 0
  {
    assert (6 * n + i) / 6 == n && (6 * n + i) % 6 == i;
  }

  lemma ByteBitBeyond(b: seq<byte>, k: nat)
    requires k >= 8 * |b|
    ensures !ByteBit(b, k)
  {}

  lemma SextetBitBeyond(d: seq<sextet>, k: nat)
    requires k >= 6 * |d|
    ensures !SextetBit(d, k)
  {}

  lemma ZeroMasked(i: nat)
    requires i < 8
    ensures 0 & Mask(i) == 0
  {}

  lemma Sextet1Start(d: seq<sextet>, b: seq<byte>, y: byte, i: nat)
    requires i < 2 && |d| >= 2 && |b| >= 1 && d[1] == Sextet1(b[0], y)
    ensures SextetBit(d, 6 + i) <==> ByteBit(b, 6 + i)
  {
    SextetBitAt(d, 1, i);
    Straddle1(b[0], y, i);
    ByteBitAt(b, 0, 6 + i);
  }

  lemma Sextet1End(d: seq<sextet>, b: seq<byte>, i: nat)
    requires 2 <= i < 6 && |d| >= 2 && |b| >= 2 && d[1] == Sextet1(b[0], b[1])
    ensures SextetBit(d, 6 + i) <==> ByteBit(b, 6 + i)
  {
    SextetBitAt(d, 1, i);
    Straddle1(b[0], b[1], i);
    ByteBitAt(b, 1, i - 2);
  }

  lemma Sextet1Fill(d: seq<sextet>, b: seq<byte>, i: nat)
    requires 2 <= i < 6 && |d| >= 2 && |b| == 1 && d[1] == Sextet1(b[0], 0)
    ensures SextetBit(d, 6 + i) <==> ByteBit(b, 6 + i)
  {
    SextetBitAt(d, 1, i);
    Straddle1(b[0], 0, i);
    ByteBitBeyond(b, 6 + i);
    ZeroMasked(i - 2);
  }

  lemma Sextet1Bits(d: seq<sextet>, b: seq<byte>, i: nat)
    requires i < 6 && |d| >= 2 && |b| >= 1 && d[1] == Sextet1(b[0], if |b| > 1 then b[1] else 0)
    ensures SextetBit(d, 6 + i) <==> ByteBit(b, 6 + i)
  {
    if i < 2 { Sextet1Start(d, b, if |b| > 1 then b[1] else 0, i); }
    else if |b| > 1 { Sextet1End(d, b, i); }
    else { Sextet1Fill(d, b, i); }
  }

  lemma Sextet2Bits(d: seq<sextet>, b: seq<byte>, i: nat)
    requires i < 6 && |d| >= 3 && |b| >= 2 && d[2] == Sextet2(b[1], if |b| > 2 then b[2] else 0)
    ensures SextetBit(d, 12 + i) <==> ByteBit(b, 12 + i)
  {
    var z := if |b| > 2 then b[2] else 0;
    SextetBitAt(d, 2, i);
    Straddle2(b[1], z, i);
    if i < 4 { ByteBitAt(b, 1, 4 + i); }
    else if |b| > 2 { ByteBitAt(b, 2, i - 4); }
    else { ByteBitBeyond(b, 12 + i); ZeroMasked(i - 4); }
  }

  lemma Sextet3Bits(d: seq<sextet>, b: seq<byte>, i: nat)
    requires i < 6 && |d| >= 4 && |b| >= 3 && d[3] == Sextet3(b[2])
    ensures SextetBit(d, 18 + i) <==> ByteBit(b, 18 + i)
  {
    SextetBitAt(d, 3, i);
    ByteBitAt(b, 2, i + 2);
    Straddle3(b[2], i);
  }

  /** d is what a group of at most three bytes turns into. */
  predicate Grouped(d: seq<sextet>, b: seq<byte>) {
    && 1 <= |b| <= 3 && |d| == |b| + 1
    && d[0] == Sextet0(b[0]) && d[1] == Sextet1(b[0], if |b| > 1 then b[1] else 0)
    && (|b| > 1 ==> d[2] == Sextet2(b[1], if |b| > 2 then b[2] else 0))
    && (|b| > 2 ==> d[3] == Sextet3(b[2]))
  }

  /** One group: the same bits out as in, followed by zeros. */
  lemma GroupBits(d: seq<sextet>, b: seq<byte>, k: nat)
    requires Grouped(d, b)
    ensures SextetBit(d, k) <==> ByteBit(b, k)
  {
    if k >= 6 * |d| {
      SextetBitBeyond(d, k);
      ByteBitBeyond(b, k);
    }
    else if k < 6 { Sextet0Bits(d, b, k); }
    else if k < 12 { Sextet1Bits(d, b, k - 6); }
    else if k < 18 { Sextet2Bits(d, b, k - 12); }
    else { Sextet3Bits(d, b, k - 18); }
  }

  lemma Shift(k: nat)
    requires k >= 24
    ensures (k - 24) / 8 == k / 8 - 3 && (k - 24) % 8 == k % 8
    ensures (k - 24) / 6 == k / 6 - 4 && (k - 24) % 6 == k % 6
  {}

  lemma PastBytes(x: byte, y: byte, z: byte, b: seq<byte>, k: nat)
    requires k >= 24
    ensures ByteBit([x, y, z] + b, k) <==> ByteBit(b, k - 24)
  {
    Shift(k);
  }

  lemma PastSextets(w: sextet, x: sextet, y: sextet, z: sextet, d: seq<sextet>, k: nat)
    requires k >= 24
    ensures SextetBit([w, x, y, z] + d, k) <==> SextetBit(d, k - 24)
  {
    Shift(k);
  }

  lemma Front(d: seq<sextet>, e: seq<sextet>, b: seq<byte>, c: seq<byte>, k: nat)
    requires |d| == 4 && |b| == 3 && k < 24
    ensures SextetBit(d + e, k) <==> SextetBit(d, k)
    ensures ByteBit(b + c, k) <==> ByteBit(b, k)
  {}

  /** A full group in front: its own 24 bits agree, and it moves the rest by 24. */
  lemma GroupStep(x: byte, y: byte, z: byte, b: seq<byte>, k: nat)
    requires k >= 24 ==> (SextetBit(ToSextets(b), k - 24) <==> ByteBit(b, k - 24))
    ensures SextetBit(ToSextets([x, y, z] + b), k) <==> ByteBit([x, y, z] + b, k)
  {
    ToStep(x, y, z, b);
    if k >= 24 {
      PastBytes(x, y, z, b, k);
      PastSextets(Sextet0(x), Sextet1(x, y), Sextet2(y, z), Sextet3(z), ToSextets(b), k);
    } else {
      var d: seq<sextet> := [Sextet0(x), Sextet1(x, y), Sextet2(y, z), Sextet3(z)];
      GroupBits(d, [x, y, z], k);
      Front(d, ToSextets(b), [x, y, z], b, k);
    }
  }

  lemma {:induction false} EncodedLength(b: seq<byte>)
    ensures |Encode(b)| == |ToSextets(b)| == (4 * |b| + 2) / 3
  {
    if |b| >= 3 {
      EncodedLength(b[3..]);
      ToStep(b[0], b[1], b[2], b[3..]);
      assert b == [b[0], b[1], b[2]] + b[3..];
    }
  }

  /**
   Section 4 of RFC 4648: the characters carry the bytes' bits in order, six at a time, with
   zero bits added on the right to fill the last character.
   */
  lemma {:induction false} EncodingKeepsBits(b: seq<byte>, k: nat)
    ensures SextetBit(ToSextets(b), k) <==> ByteBit(b, k)
    decreases |b|
  {
    if 1 <= |b| <= 2 {
      GroupBits(ToSextets(b), b, k);
    } else if |b| >= 3 {
      if k >= 24 { EncodingKeepsBits(b[3..], k - 24); }
      GroupStep(b[0], b[1], b[2], b[3..], k);
      assert b == [b[0], b[1], b[2]] + b[3..];
    }
  }
}
