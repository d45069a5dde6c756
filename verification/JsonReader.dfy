/** Reading printed strings back: section 7 of RFC 8259 undoes Query::outputString. */
module JsonReader {
  import opened Basics
  import opened JsonStrings

  // ---------- The reader ----------

  function HexValue(b: Byte): Option<nat> {
    if 48 <= b <= 57 then Some(b - 48)
    else if 97 <= b <= 102 then Some(b - 87)
    else if 65 <= b <= 70 then Some(b - 55)
    else None
  }

  function ParseHex(digits: seq<Byte>): Option<nat> {
    if digits == [] then Some(0)
    else match (ParseHex(digits[..|digits| - 1]), HexValue(digits[|digits| - 1]))
      case (Some(high), Some(low)) => Some(16 * high + low)
      case _ => None
  }

  /** The two-character escapes. */
  function ShortEscape(b: Byte): Option<nat> {
    if b == QUOTE || b == BACKSLASH || b == 47 then Some(b)
    else if b == 98 then Some(8)
    else if b == 102 then Some(12)
    else if b == 110 then Some(10)
    else if b == 114 then Some(13)
    else if b == 116 then Some(9)
    else None
  }

  function Prepend(unit: nat, rest: Option<seq<nat>>): Option<seq<nat>> {
    match rest
    case None => None
    case Some(units) => Some([unit] + units)
  }

  /**
   The UTF-16 code units of a JSON string in ASCII, from behind its opening
   quote to its closing quote, which ends it.
   */
  function Unescape(t: seq<Byte>): Option<seq<nat>> {
    if t == [] || t[0] < 32 || t[0] >= 128 then None
    else if t[0] == QUOTE then if |t| == 1 then Some([]) else None
    else if t[0] != BACKSLASH then Prepend(t[0], Unescape(t[1..]))
    else if |t| >= 6 && t[1] == LETTER_U then
      match ParseHex(t[2..6])
      case None => None
      case Some(unit) => Prepend(unit, Unescape(t[6..]))
    else if |t| >= 2 then
      match ShortEscape(t[1])
      case None => None
      case Some(unit) => Prepend(unit, Unescape(t[2..]))
    else None
  }

  predicate IsHigh(u: nat) {
    0xD800 <= u < 0xDC00
  }

  predicate IsLow(u: nat) {
    0xDC00 <= u < 0xE000
  }

  /** Surrogate pairs make one code point. */
  function Combine(units: seq<nat>): seq<nat> {
    if units == [] then []
    else if |units| >= 2 && IsHigh(units[0]) && IsLow(units[1]) then
      [0x1_0000 + (units[0] - 0xD800) * 0x400 + (units[1] - 0xDC00)] + Combine(units[2..])
    else [units[0]] + Combine(units[1..])
  }

  function Decode(t: seq<Byte>): Option<seq<nat>> {
    if t == [] || t[0] != QUOTE then None
    else match Unescape(t[1..])
      case None => None
      case Some(units) => Some(Combine(units))
  }

  // ---------- UTF-8 ----------

  /** One character of a byte string: where it ends and its code point. */
  datatype Char = Invalid | Char(end: nat, codePoint: nat)

  predicate IsTail(s: seq<Byte>, i: nat) {
    i < |s| && 0x80 <= s[i] < 0xC0
  }

  /** The low bits of a byte. */
  function Bits(s: seq<Byte>, i: nat, modulus: nat): nat
    requires i < |s| && modulus > 0
  {
    s[i] as nat % modulus
  }

  /** Section 3 of RFC 3629: shortest form only, no surrogates, nothing above 10FFFF. */
  function CharAt(s: seq<Byte>, r: nat): (c: Char)
    requires r < |s|
    ensures c.Char? ==> r < c.end <= |s|
  {
    var b := s[r];
    if b < 0x80 then Char(r + 1, b)
    else if 0xC2 <= b < 0xE0 && IsTail(s, r + 1) then
      var c := Bits(s, r, 32) * 64 + Bits(s, r + 1, 64);
      Char(r + 2, c)
    else if 0xE0 <= b < 0xF0 && IsTail(s, r + 1) && IsTail(s, r + 2) then
      var c := Bits(s, r, 16) * 4096 + Bits(s, r + 1, 64) * 64 + Bits(s, r + 2, 64);
      if 0x800 <= c < 0xD800 || 0xE000 <= c then Char(r + 3, c) else Invalid
    else if 0xF0 <= b < 0xF8 && IsTail(s, r + 1) && IsTail(s, r + 2) && IsTail(s, r + 3) then
      var c := Bits(s, r, 8) * 0x4_0000 + Bits(s, r + 1, 64) * 4096 + Bits(s, r + 2, 64) * 64 + Bits(s, r + 3, 64);
      if 0x1_0000 <= c < 0x11_0000 then Char(r + 4, c) else Invalid
    else Invalid
  }

  function CodePoints(s: seq<Byte>, r: nat): Option<seq<nat>>
    requires r <= |s|
    decreases |s| - r
  {
    if r == |s| then Some([])
    else
      var c := CharAt(s, r);
      if c == Invalid then None else Prepend(c.codePoint, CodePoints(s, c.end))
  }

  // ---------- The round trip ----------

  /** The code unit that a token is read back as. */
  function TokenUnits(token: Token): seq<nat> {
    match token
    case Plain(b) => [b]
    case Quoted(b) => [b]
    case Unicode(value) => [PrintedValue(value)]
    case Ignored => []
    case Stop => []
  }

  function Units(s: seq<Byte>, r: nat, e: Encoding): seq<nat>
    requires r <= |s|
    decreases |s| - r
  {
    if r == |s| then [] else TokenUnits(NextToken(s, r, e)) + Units(s, TokenEnd(s, r, e), e)
  }

  lemma {:induction false} ParseHexUndoesHex(v: nat, digits: nat, bound: nat)
    requires v < bound && bound == Power16(digits)
    ensures ParseHex(Hex(v, digits)) == Some(v) && |Hex(v, digits)| == digits
  {
    if digits > 0 {
      ParseHexUndoesHex(v / 16, digits - 1, bound / 16);
      assert Hex(v, digits)[..digits - 1] == Hex(v / 16, digits - 1);
    }
  }

  function Power16(n: nat): nat {
    if n == 0 then 1 else 16 * Power16(n - 1)
  }

  predicate WellFormed(token: Token) {
    match token
    case Plain(b) => !IsSignificant(b)
    case Quoted(b) => b == QUOTE || b == BACKSLASH
    case Unicode(value) => value < 0x100_0000
    case _ => true
  }

  lemma UnescapeToken(token: Token, rest: seq<Byte>)
    requires WellFormed(token) && Unescape(rest).Some?
    ensures Unescape(TokenText(token) + rest) == Some(TokenUnits(token) + Unescape(rest).value)
  {
    var t := TokenText(token) + rest;
    match token
    case Plain(b) =>
      assert t[1..] == rest;
    case Quoted(b) =>
      assert t[2..] == rest;
    case Unicode(value) =>
      var digits := Hex(PrintedValue(value), 4);
      assert Power16(4) == 0x1_0000;
      ParseHexUndoesHex(PrintedValue(value), 4, 0x1_0000);
      assert t[2..6] == digits && t[6..] == rest;
    case _ =>
      assert t == rest && [] + Unescape(rest).value == Unescape(rest).value;
  }

  /** Whatever the input, the printed text is a JSON string that is read back as one code unit per printed character. */
  lemma {:induction false} UnescapeEscaped(s: seq<Byte>, r: nat, e: Encoding)
    requires r <= |s|
    ensures Unescape(Escaped(s, r, e) + [QUOTE]) == Some(Units(s, r, e))
    decreases |s| - r
  {
    if r < |s| {
      var token, end := NextToken(s, r, e), TokenEnd(s, r, e);
      UnescapeEscaped(s, end, e);
      if token.Unicode? {
        TokenValueBound(s, r, e);
      }
      Associative(TokenText(token), Escaped(s, end, e), [QUOTE]);
      UnescapeToken(token, Escaped(s, end, e) + [QUOTE]);
    }
  }

  lemma DecodePrinted(s: seq<Byte>, e: Encoding)
    ensures Decode(Printed(s, Json, e)) == Some(Combine(Units(s, 0, e)))
  {
    UnescapeEscaped(s, 0, e);
    assert Printed(s, Json, e)[1..] == Escaped(s, 0, e) + [QUOTE];
  }

  lemma {:induction false} CombineKeepsLength(units: seq<nat>)
    ensures |Combine(units)| <= |units|
    ensures |Combine(units)| == |units| ==> Combine(units) == units
  {
    if |units| >= 2 && IsHigh(units[0]) && IsLow(units[1]) {
      CombineKeepsLength(units[2..]);
    } else if units != [] {
      CombineKeepsLength(units[1..]);
    }
  }

  lemma {:induction false} CombineWithoutSurrogates(units: seq<nat>)
    requires forall u | u in units :: !IsHigh(u)
    ensures Combine(units) == units
  {
    if units != [] {
      assert units[0] in units;
      CombineWithoutSurrogates(units[1..]);
    }
  }

  /** Each character of a valid string is printed as one code unit: its code point, unless that has four bytes. */
  lemma UnitOfChar(s: seq<Byte>, r: nat)
    requires r < |s| && CharAt(s, r).Char? && s[r] != 0
    ensures var units := TokenUnits(NextToken(s, r, Utf8));
            && TokenEnd(s, r, Utf8) == CharAt(s, r).end
            && |units| == 1 && units[0] < 0x1_0000
            && (s[r] < 0xF0 ==> units[0] == CharAt(s, r).codePoint && !IsHigh(units[0]))
            && (s[r] >= 0xF0 ==> CharAt(s, r).codePoint >= 0x1_0000)
  {
    if NextToken(s, r, Utf8).Unicode? {
      TokenValueBound(s, r, Utf8);
    }
  }

  /** A valid string has a four-byte sequence from position r on. */
  predicate HasFourBytes(s: seq<Byte>, r: nat)
    requires r <= |s|
  {
    exists i :: r <= i < |s| && s[i] >= 0xF0
  }

  lemma {:induction false} UnitsOfUtf8(s: seq<Byte>, r: nat)
    requires r <= |s| && 0 !in s && CodePoints(s, r).Some?
    ensures var units, points := Units(s, r, Utf8), CodePoints(s, r).value;
            && |units| == |points|
            && (forall u | u in units :: u < 0x1_0000)
            && (HasFourBytes(s, r) <==> exists i :: 0 <= i < |points| && points[i] >= 0x1_0000)
            && (!HasFourBytes(s, r) ==> units == points && forall u | u in units :: !IsHigh(u))
    decreases |s| - r
  {
    if r < |s| {
      var end := CharAt(s, r).end;
      UnitOfChar(s, r);
      UnitsOfUtf8(s, end);
      OnlyLeadsAreLarge(s, r);
      var points, rest := CodePoints(s, r).value, CodePoints(s, end).value;
      assert points == [CharAt(s, r).codePoint] + rest;
      if HasFourBytes(s, end) {
        var i :| 0 <= i < |rest| && rest[i] >= 0x1_0000;
        assert points[i + 1] >= 0x1_0000;
      }
      if s[r] >= 0xF0 {
        assert points[0] >= 0x1_0000;
      }
      if i :| 0 <= i < |points| && points[i] >= 0x1_0000 && i > 0 {
        assert rest[i - 1] >= 0x1_0000;
      }
    }
  }

  lemma OnlyLeadsAreLarge(s: seq<Byte>, r: nat)
    requires r < |s| && CharAt(s, r).Char?
    ensures HasFourBytes(s, r) <==> s[r] >= 0xF0 || HasFourBytes(s, CharAt(s, r).end)
    ensures s[r] < 0xF0 ==> CharAt(s, r).codePoint < 0x1_0000
  {
    forall i | r < i < CharAt(s, r).end
      ensures s[i] < 0xF0
    {
      assert i == r + 1 || i == r + 2 || i == r + 3;
    }
    if HasFourBytes(s, r) && s[r] < 0xF0 {
      var i :| r <= i < |s| && s[i] >= 0xF0;
      assert CharAt(s, r).end <= i;
    }
  }

  /** Valid UTF-8 never runs behind its end. */
  lemma {:induction false} ValidUtf8Stays(s: seq<Byte>, r: nat)
    requires r <= |s| && 0 !in s && CodePoints(s, r).Some?
    ensures !RunsBehind(s, r, Utf8)
    decreases |s| - r
  {
    if r < |s| {
      UnitOfChar(s, r);
      ValidUtf8Stays(s, CharAt(s, r).end);
    }
  }

  /** For valid UTF-8 the printed string is read back as its code points exactly when no character takes four bytes. */
  lemma Utf8RoundTrip(s: seq<Byte>)
    requires 0 !in s && CodePoints(s, 0).Some?
    ensures Decode(Printed(s, Json, Utf8)) == CodePoints(s, 0) <==> forall i | 0 <= i < |s| :: s[i] < 0xF0
  {
    var units, points := Units(s, 0, Utf8), CodePoints(s, 0).value;
    DecodePrinted(s, Utf8);
    UnitsOfUtf8(s, 0);
    if HasFourBytes(s, 0) {
      CombineKeepsLength(units);
      var i :| 0 <= i < |points| && points[i] >= 0x1_0000;
      assert units[i] in units;
    } else {
      CombineWithoutSurrogates(units);
    }
  }

  /** A character of four bytes, U+1F600, is valid UTF-8 and does not come back. */
  lemma FourBytesAreLost(s: seq<Byte>)
    requires s == [0xF0, 0x9F, 0x98, 0x80]
    ensures CodePoints(s, 0) == Some([0x1F600]) && Decode(Printed(s, Json, Utf8)) != Some([0x1F600])
  {
    FourByteChar(s);
    Utf8RoundTrip(s);
    assert s[0] >= 0xF0;
  }

  lemma FourByteChar(s: seq<Byte>)
    requires |s| == 4 && s[0] == 0xF0 && s[1] == 0x9F && s[2] == 0x98 && s[3] == 0x80
    ensures CodePoints(s, 0) == Some([0x1F600])
  {
    assert CharAt(s, 0) == Char(4, 0x1F600);
    var rest := CodePoints(s, 4);
    assert rest == Some([]);
    assert CodePoints(s, 0) == Prepend(0x1F600, rest);
    assert [0x1F600] + rest.value == [0x1F600];
  }

  lemma {:induction false} UnitsOfLatin1(s: seq<Byte>, r: nat)
    requires r <= |s|
    ensures |Units(s, r, Latin1)| == |s| - r
    ensures forall i | 0 <= i < |s| - r :: Units(s, r, Latin1)[i] == s[r + i]
    decreases |s| - r
  {
    if r < |s| {
      UnitsOfLatin1(s, r + 1);
    }
  }

  /** In latin1 mode every byte is read back as itself. */
  lemma Latin1RoundTrip(s: seq<Byte>)
    ensures var read := Decode(Printed(s, Json, Latin1));
            read.Some? && |read.value| == |s| && forall i | 0 <= i < |s| :: read.value[i] == s[i]
  {
    DecodePrinted(s, Latin1);
    UnitsOfLatin1(s, 0);
    CombineWithoutSurrogates(Units(s, 0, Latin1));
  }

  // ---------- Every input, piece by piece ----------

  function Join<T>(parts: seq<seq<T>>): seq<T> {
    if parts == [] then [] else parts[0] + Join(parts[1..])
  }

  /** A bit of a number. */
  predicate HasBit(v: nat, k: nat) {
    if k == 0 then v % 2 == 1 else HasBit(v / 2, k - 1)
  }

  lemma HalfOfBitOr(a: nat, b: nat)
    ensures BitOr(a, b) / 2 == BitOr(a / 2, b / 2)
    ensures BitOr(a, b) % 2 == 1 <==> a % 2 == 1 || b % 2 == 1
  {
  }

  lemma {:induction false} BitOrBits(a: nat, b: nat, k: nat)
    ensures HasBit(BitOr(a, b), k) <==> HasBit(a, k) || HasBit(b, k)
  {
    HalfOfBitOr(a, b);
    if k > 0 {
      BitOrBits(a / 2, b / 2, k - 1);
    }
  }

  ghost predicate IsBitOr(v: nat, a: nat, b: nat) {
    forall k: nat :: HasBit(v, k) <==> HasBit(a, k) || HasBit(b, k)
  }

  /** Of a value with more than four hex digits the first four are kept. */
  predicate FirstFourDigits(u: nat, v: nat) {
    || (v < 0x1_0000 && u == v)
    || (0x1000 <= u < 0x1_0000 && (u == v / 16 || u == v / 256))
  }

  /** The six bits of the second and the third byte land in the same place. */
  ghost predicate IsFourByteUnit(b0: Byte, b1: Byte, b2: Byte, b3: Byte, u: nat)
    requires b0 >= 0xF0
  {
    exists or: nat | IsBitOr(or, b1 % 64, b2 % 64) :: FirstFourDigits(u, (b0 - 0xF0) * 0x4_0000 + or * 64 + b3 % 64)
  }

  /**
   The code units u that a piece p of the input is read back as: in utf8 mode, a sequence that its first byte announces,
   whatever its other bytes are; stray bytes vanish, and four bytes are put together wrongly.
   */
  ghost predicate ReadAs(p: seq<Byte>, e: Encoding, u: seq<nat>) {
    p != [] &&
    var b := p[0];
    if e == Latin1 || b < 0x80 then |p| == 1 && u == [b]
    else if 0xC0 <= b < 0xE0 then |p| == 2 && |u| == 1 && u[0] == (b as nat - 0xC0) * 64 + p[1] as nat % 64
    else if e == Mixed then |p| == 1 && u == [b]
    else if 0xE0 <= b < 0xF0 then
      |p| == 3 && |u| == 1 && u[0] == (b as nat - 0xE0) * 4096 + p[1] as nat % 64 * 64 + p[2] as nat % 64
    else if 0xF0 <= b < 0xF8 then
      |p| == 4 && |u| == 1 && IsFourByteUnit(b, p[1], p[2], p[3], u[0])
    else |p| == 1 && u == []
  }

  ghost predicate AreReadAs(pieces: seq<seq<Byte>>, e: Encoding, units: seq<seq<nat>>) {
    |units| == |pieces| && forall i | 0 <= i < |pieces| :: ReadAs(pieces[i], e, units[i])
  }

  /** What ends the string early: in utf8 mode, a sequence of three or four bytes that is not complete. */
  predicate IsCutOff(p: seq<Byte>, e: Encoding) {
    e == Utf8 && p != [] && ((|p| < 3 && 0xE0 <= p[0] < 0xF0) || (|p| < 4 && 0xF0 <= p[0] < 0xF8))
  }

  lemma BitOrIsBitOr(a: nat, b: nat)
    ensures IsBitOr(BitOr(a, b), a, b)
  {
    forall k: nat
      ensures HasBit(BitOr(a, b), k) <==> HasBit(a, k) || HasBit(b, k)
    {
      BitOrBits(a, b, k);
    }
  }

  lemma FourByteUnit(b0: Byte, b1: Byte, b2: Byte, b3: Byte)
    requires 0xF0 <= b0 < 0xF8
    ensures IsFourByteUnit(b0, b1, b2, b3, PrintedValue(FourByteValue(b0, b1, b2, b3)))
  {
    BitOrIsBitOr(b1 % 64, b2 % 64);
    BitOrBound(b1 % 64, b2 % 64);
    assert b0 % 8 == b0 - 0xF0;
    PrintedDigits(FourByteValue(b0, b1, b2, b3));
  }

  lemma PrintedDigits(v: nat)
    requires v < 0x100_0000
    ensures FirstFourDigits(PrintedValue(v), v)
  {
  }

  lemma TwoByteToken(s: seq<Byte>, r: nat, e: Encoding)
    requires r + 1 < |s| && e != Latin1 && 0xC0 <= s[r] < 0xE0
    ensures TokenEnd(s, r, e) == r + 2
    ensures var u := TokenUnits(NextToken(s, r, e));
            |u| == 1 && u[0] == (s[r] as nat - 0xC0) * 64 + s[r + 1] as nat % 64
  {
  }

  lemma ThreeByteToken(s: seq<Byte>, r: nat)
    requires r + 2 < |s| && 0xE0 <= s[r] < 0xF0
    ensures TokenEnd(s, r, Utf8) == r + 3
    ensures var u := TokenUnits(NextToken(s, r, Utf8));
            |u| == 1 && u[0] == (s[r] as nat - 0xE0) * 4096 + s[r + 1] as nat % 64 * 64 + s[r + 2] as nat % 64
  {
  }

  lemma FourByteToken(s: seq<Byte>, r: nat)
    requires r + 3 < |s| && 0xF0 <= s[r] < 0xF8
    ensures TokenEnd(s, r, Utf8) == r + 4
    ensures TokenUnits(NextToken(s, r, Utf8)) == [PrintedValue(FourByteValue(s[r], s[r + 1], s[r + 2], s[r + 3]))]
  {
  }

  /** The bytes that are in no longer sequence. */
  lemma OneByteToken(s: seq<Byte>, r: nat, e: Encoding)
    requires r < |s| && (e == Latin1 || s[r] < 0xC0 || s[r] >= 0xF8 || (e == Mixed && s[r] >= 0xE0))
    ensures TokenEnd(s, r, e) == r + 1
    ensures TokenUnits(NextToken(s, r, e)) == if e == Utf8 && s[r] >= 0x80 then [] else [s[r]]
  {
  }

  /** A token that is not cut off is a piece that is read back as its code units. */
  lemma TokenIsPiece(s: seq<Byte>, r: nat, e: Encoding)
    requires r < |s| && !NextToken(s, r, e).Stop? && !(IsTwoByteLead(s[r], e) && r + 1 == |s|)
    ensures ReadAs(s[r..TokenEnd(s, r, e)], e, TokenUnits(NextToken(s, r, e)))
  {
    var b := s[r];
    if e != Latin1 && 0xC0 <= b < 0xE0 {
      TwoByteToken(s, r, e);
    } else if e == Utf8 && 0xE0 <= b < 0xF0 {
      assert r + 2 < |s|;
      ThreeByteToken(s, r);
    } else if e == Utf8 && 0xF0 <= b < 0xF8 {
      assert r + 3 < |s|;
      FourByteToken(s, r);
      FourByteUnit(b, s[r + 1], s[r + 2], s[r + 3]);
    } else {
      OneByteToken(s, r, e);
    }
  }

  /** For every input in every mode that does not run behind its end: a reader gets the units of its pieces in order. */
  lemma {:induction false} UnitsOfPieces(s: seq<Byte>, r: nat, e: Encoding)
    returns (pieces: seq<seq<Byte>>, units: seq<seq<nat>>, rest: seq<Byte>)
    requires r <= |s| && !RunsBehind(s, r, e)
    ensures s[r..] == Join(pieces) + rest && (rest == [] || IsCutOff(rest, e))
    ensures AreReadAs(pieces, e, units)
    ensures Units(s, r, e) == Join(units)
    decreases |s| - r
  {
    if r == |s| || NextToken(s, r, e).Stop? {
      pieces, units, rest := [], [], s[r..];
      NothingRead(s, r, e);
    } else {
      var end := TokenEnd(s, r, e);
      var p, unit := s[r..end], TokenUnits(NextToken(s, r, e));
      TokenIsPiece(s, r, e);
      pieces, units, rest := UnitsOfPieces(s, end, e);
      assert s[r..] == p + s[end..];
      pieces, units := PieceInFront(p, pieces, rest, unit, units, e);
    }
  }

  lemma NothingRead(s: seq<Byte>, r: nat, e: Encoding)
    requires r <= |s| && (r < |s| ==> NextToken(s, r, e).Stop?)
    ensures Units(s, r, e) == [] && (s[r..] == [] || IsCutOff(s[r..], e))
  {
  }

  lemma PieceInFront(p: seq<Byte>, more: seq<seq<Byte>>, rest: seq<Byte>, unit: seq<nat>, moreUnits: seq<seq<nat>>,
                     e: Encoding) returns (pieces: seq<seq<Byte>>, units: seq<seq<nat>>)
    requires AreReadAs(more, e, moreUnits)
    requires ReadAs(p, e, unit)
    ensures p + (Join(more) + rest) == Join(pieces) + rest
    ensures Join(units) == unit + Join(moreUnits)
    ensures AreReadAs(pieces, e, units)
  {
    pieces, units := [p] + more, [unit] + moreUnits;
    assert pieces[1..] == more && units[1..] == moreUnits;
    Associative(p, Join(more), rest);
  }

  /**
   For every input that the loop does not leave, in every mode: it is made of pieces, up to a sequence that is cut off,
   and what a reader gets are the code units of these pieces in their order.
   */
  lemma PiecesAreReadBack(s: seq<Byte>, e: Encoding)
    returns (pieces: seq<seq<Byte>>, units: seq<seq<nat>>, rest: seq<Byte>)
    requires !RunsBehind(s, 0, e)
    ensures s == Join(pieces) + rest && (rest == [] || IsCutOff(rest, e))
    ensures AreReadAs(pieces, e, units)
    ensures Decode(Printed(s, Json, e)) == Some(Combine(Join(units)))
  {
    DecodePrinted(s, e);
    pieces, units, rest := UnitsOfPieces(s, 0, e);
    assert s[0..] == s;
  }

  /** A string that is left is printed as if a NUL stood behind its end. */
  lemma {:induction false} PrintedWithNul(s: seq<Byte>, r: nat, e: Encoding)
    requires RunsBehind(s, r, e)
    ensures Escaped(s, r, e) == Escaped(s + [0], r, e) && !RunsBehind(s + [0], r, e)
    decreases |s| - r
  {
    assert s[r] == (s + [0])[r];
    assert r + 1 < |s| ==> s[r + 1] == (s + [0])[r + 1];
    if !(IsTwoByteLead(s[r], e) && r + 1 == |s|) {
      PrintedWithNul(s, TokenEnd(s, r, e), e);
    }
  }
}
