/**
 Query::outputString (src/Query.cc): strings in a JSON answer. The reader is the grammar of section 7 of RFC 8259, the
 input of the utf8 mode that of section 3 of RFC 3629.
 */
module JsonStrings {
  import opened Basics
  import opened OutputBuffers

  datatype Encoding = Utf8 | Latin1 | Mixed
  datatype Format = Csv | Json | Python

  const QUOTE: Byte := 34
  const BACKSLASH: Byte := 92
  const LETTER_U: Byte := 117

  /** The table json_significant. */
  predicate IsSignificant(b: Byte) {
    b < 32 || b == QUOTE || b == BACKSLASH || b >= 128
  }

  // ---------- The writer ----------

  /** What becomes of the next byte or sequence of the input. */
  datatype Token = Plain(b: Byte) | Quoted(b: Byte) | Unicode(value: nat) | Ignored | Stop

  function BitOr(a: nat, b: nat): nat {
    if a == 0 && b == 0 then 0
    else 2 * BitOr(a / 2, b / 2) + if a % 2 == 1 || b % 2 == 1 then 1 else 0
  }

  function TwoByteValue(b0: Byte, b1: Byte): nat {
    b0 % 32 * 64 + b1 % 64
  }

  function ThreeByteValue(b0: Byte, b1: Byte, b2: Byte): nat {
    b0 % 16 * 4096 + b1 % 64 * 64 + b2 % 64
  }

  /** The code shifts the second and the third byte by the same six bits. */
  function FourByteValue(b0: Byte, b1: Byte, b2: Byte, b3: Byte): nat {
    b0 % 8 * 0x4_0000 + BitOr(b1 % 64, b2 % 64) * 64 + b3 % 64
  }

  function NextToken(s: seq<Byte>, r: nat, e: Encoding): Token
    requires r < |s|
  {
    var b := s[r];
    if !IsSignificant(b) then Plain(b)
    else if b < 32 then Unicode(b)
    else if b < 128 then Quoted(b)
    else if e != Latin1 && 0xC0 <= b < 0xE0 then Unicode(TwoByteValue(b, if r + 1 < |s| then s[r + 1] else 0))
    else if e == Utf8 then
      if 0xE0 <= b < 0xF0 then if |s| - r < 3 then Stop else Unicode(ThreeByteValue(b, s[r + 1], s[r + 2]))
      else if 0xF0 <= b < 0xF8 then
        if |s| - r < 4 then Stop else Unicode(FourByteValue(b, s[r + 1], s[r + 2], s[r + 3]))
      else Ignored
    else Unicode(b)
  }

  /** The position behind the token. */
  function TokenEnd(s: seq<Byte>, r: nat, e: Encoding): (end: nat)
    requires r < |s|
    ensures r < end <= |s|
  {
    var b := s[r];
    if NextToken(s, r, e).Stop? then |s|
    else if e != Latin1 && 0xC0 <= b < 0xE0 && r + 1 < |s| then r + 2
    else if e == Utf8 && 0xE0 <= b < 0xF0 then r + 3
    else if e == Utf8 && 0xF0 <= b < 0xF8 then r + 4
    else r + 1
  }

  function HexDigit(d: nat): Byte
    requires d < 16
  {
    if d < 10 then 48 + d else 87 + d
  }

  /** The number that the four printed digits stand for: "\u%04x" is cut off after four digits. */
  function PrintedValue(value: nat): (v: nat)
    ensures value < 0x100_0000 ==> v < 0x1_0000
  {
    if value < 0x1_0000 then value else if value < 0x10_0000 then value / 16 else value / 256
  }

  function Hex(v: nat, digits: nat): seq<Byte> {
    if digits == 0 then [] else Hex(v / 16, digits - 1) + [HexDigit(v % 16)]
  }

  function UnicodeEscape(value: nat): seq<Byte> {
    [BACKSLASH, LETTER_U] + Hex(PrintedValue(value), 4)
  }

  lemma {:induction false} BitOrBound(a: nat, b: nat)
    ensures BitOr(a, b) <= a + b
  {
    if a > 0 || b > 0 {
      BitOrBound(a / 2, b / 2);
    }
  }

  lemma TokenValueBound(s: seq<Byte>, r: nat, e: Encoding)
    requires r < |s| && NextToken(s, r, e).Unicode?
    ensures NextToken(s, r, e).value < 0x100_0000
  {
    if r + 3 < |s| {
      BitOrBound(s[r + 1] % 64, s[r + 2] % 64);
    }
  }

  function TokenText(token: Token): seq<Byte> {
    match token
    case Plain(b) => [b]
    case Quoted(b) => [BACKSLASH, b]
    case Unicode(value) => UnicodeEscape(value)
    case Ignored => []
    case Stop => []
  }

  /** The output for the bytes from position r on. */
  function Escaped(s: seq<Byte>, r: nat, e: Encoding): seq<Byte>
    requires r <= |s|
    decreases |s| - r
  {
    if r == |s| then [] else TokenText(NextToken(s, r, e)) + Escaped(s, TokenEnd(s, r, e), e)
  }

  function Printed(value: seq<Byte>, f: Format, e: Encoding): seq<Byte> {
    match f
    case Csv => value
    case Json => [QUOTE] + Escaped(value, 0, e) + [QUOTE]
    case Python => [LETTER_U, QUOTE] + Escaped(value, 0, e) + [QUOTE]
  }

  /** The bulk copy of a plain run is what the byte-by-byte loop would print. */
  lemma {:induction false} PlainRun(s: seq<Byte>, r: nat, end: nat, e: Encoding)
    requires r <= end <= |s|
    requires forall i | r <= i < end :: !IsSignificant(s[i])
    ensures Escaped(s, r, e) == s[r..end] + Escaped(s, end, e)
    decreases end - r
  {
    if r < end {
      PlainRun(s, r + 1, end, e);
      assert s[r..end] == [s[r]] + s[r + 1..end];
      Associative([s[r]], s[r + 1..end], Escaped(s, end, e));
    }
  }

  /** The first byte of a two-byte sequence, in the modes that know of them. */
  predicate IsTwoByteLead(b: Byte, e: Encoding) {
    e != Latin1 && 0xC0 <= b < 0xE0
  }

  /**
   The read position after a turn: a two-byte sequence is taken for granted,
   even if the string ends in its first byte.
   */
  function NextPosition(s: seq<Byte>, r: nat, e: Encoding): nat
    requires r < |s|
  {
    if IsTwoByteLead(s[r], e) then r + 2 else TokenEnd(s, r, e)
  }

  /** From position r on, the loop takes the last byte of the string for the first one of a two-byte sequence. */
  predicate RunsBehind(s: seq<Byte>, r: nat, e: Encoding)
    decreases |s| - r
  {
    r < |s| && !NextToken(s, r, e).Stop? &&
    ((IsTwoByteLead(s[r], e) && r + 1 == |s|) || RunsBehind(s, TokenEnd(s, r, e), e))
  }

  /** The read positions of the loop, from r on, do not leave the string; its end is the terminating NUL. */
  predicate StaysInside(s: seq<Byte>, r: nat, e: Encoding)
    decreases |s| - r
  {
    r <= |s| && (r == |s| || NextToken(s, r, e).Stop? || StaysInside(s, NextPosition(s, r, e), e))
  }

  lemma {:induction false} StaysInsideExactly(s: seq<Byte>, r: nat, e: Encoding)
    requires r <= |s|
    ensures StaysInside(s, r, e) <==> !RunsBehind(s, r, e)
    decreases |s| - r
  {
    if r < |s| && !NextToken(s, r, e).Stop? && NextPosition(s, r, e) <= |s| {
      StaysInsideExactly(s, NextPosition(s, r, e), e);
    }
  }

  /** Text in latin1 that ends in a sharp s runs behind its end in the other modes; not every last lead does. */
  lemma LatinTextRunsBehind(e: Encoding)
    requires e != Latin1
    ensures RunsBehind([83, 0xDF], 0, e) && !RunsBehind([0xC3, 0xC3], 0, e)
  {
    assert RunsBehind([83, 0xDF], 1, e);
    assert TokenEnd([0xC3, 0xC3], 0, e) == 2;
  }

  ghost predicate SameFate(s: seq<Byte>, a: nat, b: nat, e: Encoding) {
    RunsBehind(s, a, e) == RunsBehind(s, b, e)
  }

  lemma {:induction false} PlainRunStays(s: seq<Byte>, r: nat, end: nat, e: Encoding)
    requires r <= end <= |s|
    requires forall i | r <= i < end :: !IsSignificant(s[i])
    ensures SameFate(s, r, end, e)
    decreases end - r
  {
    if r < end {
      PlainRunStays(s, r + 1, end, e);
    }
  }

  method OutputUnicodeEscape(output: OutputBuffer, value: nat)
    requires output.Valid() && value < 0x100_0000
    modifies output, output.buffer
    ensures output.Valid() && (output.buffer == old(output.buffer) || fresh(output.buffer))
    ensures output.Contents() == old(output.Contents()) + UnicodeEscape(value)
  {
    output.AddBuffer(UnicodeEscape(value));
  }

  /**
   The escapes in the output: a backslash before quotes and backslashes, and four digits for everything else that is
   printed at all.
   */
  ghost predicate EscapedAs(before: seq<Byte>, b: Byte, after: seq<Byte>) {
    before <= after &&
    var text := after[|before|..];
    if b == 34 || b == 92 then text == [92, b]
    else if b < 32 then text == [92, 117, 48, 48, 48 + b / 16, "0123456789abcdef"[b % 16] as int]
    else text == [] || (|text| == 6 && text[..2] == [92, 117])
  }

  lemma EscapeOf(before: seq<Byte>, token: Token, s: seq<Byte>, r: nat, e: Encoding)
    requires r < |s| && IsSignificant(s[r]) && token == NextToken(s, r, e)
    ensures EscapedAs(before, s[r], before + TokenText(token))
  {
    var text := TokenText(token);
    assert (before + text)[|before|..] == text;
    if token.Unicode? {
      HexLength(PrintedValue(token.value), 4);
      if s[r] < 32 {
        ControlDigits(s[r]);
      }
    }
  }

  lemma {:induction false} HexLength(v: nat, digits: nat)
    ensures |Hex(v, digits)| == digits
  {
    if digits > 0 {
      HexLength(v / 16, digits - 1);
    }
  }

  lemma {:induction false} ZeroDigits(digits: nat)
    ensures Hex(0, digits) == seq(digits, _ => 48)
  {
    if digits > 0 {
      ZeroDigits(digits - 1);
      assert Hex(0, digits) == Hex(0, digits - 1) + [48];
    }
  }

  lemma ControlDigits(v: nat)
    requires v < 32
    ensures Hex(v, 4) == [48, 48, 48 + v / 16, "0123456789abcdef"[v % 16] as int]
  {
    ZeroDigits(2);
    var high := v / 16;
    assert high / 16 == 0 && high % 16 == high;
    assert Hex(high, 3) == Hex(0, 2) + [HexDigit(high)];
    assert Hex(v, 4) == Hex(high, 3) + [HexDigit(v % 16)];
  }

  /** Text without quotes, backslashes, control characters and bytes from 128 on is printed as it is. */
  lemma PlainText(s: seq<Byte>, e: Encoding)
    requires forall b | b in s :: 32 <= b < 128 && b != 34 && b != 92
    ensures Printed(s, Json, e) == [34] + s + [34]
  {
    assert forall i | 0 <= i < |s| :: s[i] in s;
    PlainRun(s, 0, |s|, e);
    assert s[0..|s|] == s && s + [] == s;
  }

  /** One turn of the loop at a significant byte; returns by how much the read position advances and whether to stop. */
  method OutputSignificant(output: OutputBuffer, value: seq<Byte>, r: nat, charsLeft: int, e: Encoding)
    returns (advance: nat, stop: bool)
    requires output.Valid() && r < |value| && charsLeft == |value| - r && IsSignificant(value[r])
    modifies output, output.buffer
    ensures output.Valid() && (output.buffer == old(output.buffer) || fresh(output.buffer))
    ensures output.Contents() == old(output.Contents()) + TokenText(NextToken(value, r, e))
    ensures stop == NextToken(value, r, e).Stop? && (!stop ==> r + advance == NextPosition(value, r, e))
    ensures EscapedAs(old(output.Contents()), value[r], output.Contents())
  {
    EscapeOf(output.Contents(), NextToken(value, r, e), value, r, e);
    advance, stop := 1, false;
    var b := value[r];
    if b < 32 {
      OutputUnicodeEscape(output, b);
    } else if b == QUOTE || b == BACKSLASH {
      output.AddChar(BACKSLASH);
      output.AddChar(b);
    } else if (e == Utf8 || e == Mixed) && 0xC0 <= b < 0xE0 {
      var second := if r + 1 < |value| then value[r + 1] else 0; // behind the last byte stands the terminating NUL
      OutputUnicodeEscape(output, TwoByteValue(b, second));
      advance := 2;
    } else if e == Utf8 {
      if 0xE0 <= b < 0xF0 {
        if charsLeft < 3 {
          stop := true;
        } else {
          OutputUnicodeEscape(output, ThreeByteValue(b, value[r + 1], value[r + 2]));
          advance := 3;
        }
      } else if 0xF0 <= b < 0xF8 {
        if charsLeft < 4 {
          stop := true;
        } else {
          TokenValueBound(value, r, e);
          OutputUnicodeEscape(output, FourByteValue(b, value[r + 1], value[r + 2], value[r + 3]));
          advance := 4;
        }
      }
    } else {
      OutputUnicodeEscape(output, b);
    }
  }

  /** `todo` is what the bytes from position r on still have to print. */
  ghost predicate LeftToPrint(todo: seq<Byte>, value: seq<Byte>, r: nat, e: Encoding) {
    r <= |value| && todo == Escaped(value, r, e)
  }

  /** What is printed and what is left make up the whole output. */
  ghost predicate Completes(printed: seq<Byte>, left: seq<Byte>, all: seq<Byte>) {
    printed + left == all
  }

  lemma CompletesNext(printed: seq<Byte>, todo: seq<Byte>, all: seq<Byte>, text: seq<Byte>, left: seq<Byte>)
    requires Completes(printed, todo, all) && todo == text + left
    ensures Completes(printed + text, left, all)
  {
    Associative(printed, text, left);
  }

  method OutputPlainRun(output: OutputBuffer, value: seq<Byte>, from: nat, ghost e: Encoding, ghost todo: seq<Byte>,
                        ghost all: seq<Byte>) returns (r: nat, ghost left: seq<Byte>)
    requires output.Valid() && LeftToPrint(todo, value, from, e) && Completes(output.Contents(), todo, all)
    modifies output, output.buffer
    ensures output.Valid() && (output.buffer == old(output.buffer) || fresh(output.buffer))
    ensures from <= r <= |value| && (r < |value| ==> IsSignificant(value[r])) && SameFate(value, from, r, e)
    ensures LeftToPrint(left, value, r, e) && Completes(output.Contents(), left, all)
  {
    ghost var before := output.Contents();
    r := output.AddUntilNextSignificantChar(value, from, IsSignificant);
    left := Escaped(value, r, e);
    PlainRun(value, from, r, e);
    PlainRunStays(value, from, r, e);
    CompletesNext(before, todo, all, value[from..r], left);
  }

  lemma NextTodo(value: seq<Byte>, r: nat, e: Encoding, todo: seq<Byte>) returns (text: seq<Byte>, left: seq<Byte>)
    requires r < |value| && LeftToPrint(todo, value, r, e)
    ensures text == TokenText(NextToken(value, r, e)) && todo == text + left
    ensures NextToken(value, r, e).Stop? ==> left == []
    ensures !NextToken(value, r, e).Stop? ==>
              r < TokenEnd(value, r, e) && LeftToPrint(left, value, TokenEnd(value, r, e), e)
  {
    text, left := TokenText(NextToken(value, r, e)), Escaped(value, TokenEnd(value, r, e), e);
  }

  /** The read position r is in the string, with `todo` left to print, or behind it, with nothing left. */
  ghost predicate Arrived(value: seq<Byte>, from: nat, r: nat, e: Encoding, todo: seq<Byte>) {
    if r <= |value| then LeftToPrint(todo, value, r, e) && SameFate(value, from, r, e)
    else r == |value| + 1 && todo == [] && RunsBehind(value, from, e)
  }

  lemma TokenArrives(value: seq<Byte>, r: nat, e: Encoding, left: seq<Byte>)
    requires r < |value| && !NextToken(value, r, e).Stop? && LeftToPrint(left, value, TokenEnd(value, r, e), e)
    ensures r < NextPosition(value, r, e) && Arrived(value, r, NextPosition(value, r, e), e, left)
  {
  }

  /** A turn either stops the loop with everything printed, or arrives further on. */
  ghost predicate TurnEnds(value: seq<Byte>, from: nat, r: nat, e: Encoding, todo: seq<Byte>, stop: bool) {
    if stop then todo == [] && !RunsBehind(value, from, e) else from < r && Arrived(value, from, r, e, todo)
  }

  lemma EndsFrom(value: seq<Byte>, from: nat, via: nat, r: nat, e: Encoding, todo: seq<Byte>, stop: bool)
    requires from <= via && SameFate(value, from, via, e) && TurnEnds(value, via, r, e, todo, stop)
    ensures TurnEnds(value, from, r, e, todo, stop)
  {
  }

  lemma AtTheEnd(value: seq<Byte>, from: nat, e: Encoding, todo: seq<Byte>)
    requires SameFate(value, from, |value|, e) && LeftToPrint(todo, value, |value|, e)
    ensures TurnEnds(value, from, |value|, e, todo, true)
  {
  }

  /** Prints one token; what is left to print is then the output for the bytes behind it. */
  method OutputToken(output: OutputBuffer, value: seq<Byte>, r: nat, charsLeft: int, e: Encoding, ghost todo: seq<Byte>,
                     ghost all: seq<Byte>) returns (advance: nat, stop: bool, ghost left: seq<Byte>)
    requires output.Valid() && r < |value| && charsLeft == |value| - r
    requires IsSignificant(value[r]) && LeftToPrint(todo, value, r, e) && Completes(output.Contents(), todo, all)
    modifies output, output.buffer
    ensures output.Valid() && (output.buffer == old(output.buffer) || fresh(output.buffer))
    ensures Completes(output.Contents(), left, all)
    ensures TurnEnds(value, r, r + advance, e, left, stop)
  {
    ghost var before, text := output.Contents(), [];
    text, left := NextTodo(value, r, e, todo);
    CompletesNext(before, todo, all, text, left);
    if !NextToken(value, r, e).Stop? {
      TokenArrives(value, r, e, left);
    }
    advance, stop := OutputSignificant(output, value, r, charsLeft, e);
    assert output.Contents() == before + text;
  }

  /** One turn of the loop of `outputString`: a plain run in bulk, and the byte or sequence behind it. */
  method OutputTurn(output: OutputBuffer, value: seq<Byte>, from: nat, charsLeft: int, e: Encoding,
                    ghost todo: seq<Byte>, ghost all: seq<Byte>)
    returns (r: nat, charsLeft': int, stop: bool, ghost left: seq<Byte>)
    requires output.Valid() && from < |value| && charsLeft == |value| - from
    requires LeftToPrint(todo, value, from, e) && Completes(output.Contents(), todo, all)
    modifies output, output.buffer
    ensures output.Valid() && (output.buffer == old(output.buffer) || fresh(output.buffer))
    ensures Completes(output.Contents(), left, all)
    ensures TurnEnds(value, from, r, e, left, stop) && (!stop ==> charsLeft' == |value| - r)
  {
    r, left := OutputPlainRun(output, value, from, e, todo, all);
    charsLeft' := charsLeft - (r - from);
    if r == |value| {
      AtTheEnd(value, from, e, left);
      stop := true;
      return;
    }
    var advance;
    advance, stop, left := OutputToken(output, value, r, charsLeft', e, left, all);
    EndsFrom(value, from, r, r + advance, e, left, stop);
    r, charsLeft' := r + advance, charsLeft' - advance;
  }

  /**
   The loop of `outputString`. `inside`: the read position has not left the string; otherwise the loop goes on with
   whatever stands behind the terminating NUL, after it has printed the bytes of the string.
   */
  method OutputEscaped(output: OutputBuffer, value: seq<Byte>, e: Encoding) returns (inside: bool)
    requires output.Valid()
    modifies output, output.buffer
    ensures output.Valid() && (output.buffer == old(output.buffer) || fresh(output.buffer))
    ensures output.Contents() == old(output.Contents()) + Escaped(value, 0, e)
    ensures inside <==> !RunsBehind(value, 0, e)
  {
    ghost var todo := Escaped(value, 0, e);
    ghost var all := output.Contents() + todo;
    var r, charsLeft, stop := 0, |value|, false;
    while r < |value|
      invariant Arrived(value, 0, r, e, todo) && charsLeft == |value| - r
      invariant output.Valid() && (output.buffer == old(output.buffer) || fresh(output.buffer))
      invariant Completes(output.Contents(), todo, all)
      decreases |value| + 1 - r
    {
      r, charsLeft, stop, todo := OutputTurn(output, value, r, charsLeft, e, todo, all);
      if stop {
        return true;
      }
    }
    return r <= |value|;
  }

  datatype CString = Null | Text(value: seq<Byte>)

  /**
   What is printed for a null pointer and in the formats. If the loop leaves the
   string, what follows is not known.
   */
  method OutputString(output: OutputBuffer, s: CString, f: Format, e: Encoding) returns (inside: bool)
    requires output.Valid() && (s.Text? ==> 0 !in s.value)
    modifies output, output.buffer
    ensures output.Valid()
    ensures inside <==> s == Null || f == Csv || !RunsBehind(s.value, 0, e)
    ensures f == Csv ==> output.Contents() == old(output.Contents()) + if s == Null then [] else s.value
    ensures f != Csv && s == Null ==> output.Contents() == old(output.Contents()) + [34, 34]
    ensures f == Python && s.Text? && inside ==>
              output.Contents() == old(output.Contents()) + ([117] + Printed(s.value, Json, e))
    ensures var text := if s.Text? then Printed(s.value, f, e) else if f == Csv then [] else [QUOTE, QUOTE];
            old(output.Contents()) + text == if inside then output.Contents() else output.Contents() + [QUOTE]
  {
    inside := true;
    if s == Null {
      if f != Csv {
        output.AddBuffer([QUOTE, QUOTE]);
      }
    } else if f == Csv {
      output.AddBuffer(s.value);
    } else {
      inside := OutputQuoted(output, s.value, f, e);
    }
  }

  /** The branch of `outputString` for JSON and Python. */
  method OutputQuoted(output: OutputBuffer, value: seq<Byte>, f: Format, e: Encoding) returns (inside: bool)
    requires output.Valid() && f != Csv
    modifies output, output.buffer
    ensures output.Valid() && (inside <==> !RunsBehind(value, 0, e))
    ensures old(output.Contents()) + Printed(value, f, e) == if inside then output.Contents()
            else output.Contents() + [QUOTE]
  {
    ghost var before, opening := output.Contents(), if f == Python then [LETTER_U, QUOTE] else [QUOTE];
    if f == Python {
      output.AddChar(LETTER_U);
    }
    output.AddChar(QUOTE);
    assert output.Contents() == before + opening;
    inside := OutputEscaped(output, value, e);
    Associative(before, opening, Escaped(value, 0, e));
    Associative(before, opening + Escaped(value, 0, e), [QUOTE]);
    if inside {
      output.AddChar(QUOTE);
    }
  }
}
