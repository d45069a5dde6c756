/**
 The timeperiods cache, the transitions that it logs, and their replay from the log file
 (src/TimeperiodsCache.cc, src/LogEntry.cc, src/TableStateHistory.cc).
 */
module Timeperiods {
  import opened Basics

  // ---------- Transitions ----------

  /** `from` is -1 for the first transition of a period. */
  datatype Transition = Transition(name: string, from: int, to: int)

  predicate IsStep(t: Transition) {
    -1 <= t.from <= 1 && 0 <= t.to <= 1
  }

  /** The status that the transitions so far leave a period in; -1 if there are none. */
  ghost function Status(ts: seq<Transition>, name: string): int {
    if ts == [] then -1
    else
      var last := ts[|ts| - 1];
      if last.name == name then last.to else Status(ts[..|ts| - 1], name)
  }

  /** Each transition of a period starts where the one before has ended, and changes the status. */
  ghost predicate Chained(ts: seq<Transition>) {
    forall i | 0 <= i < |ts| ::
      ts[i].from == Status(ts[..i], ts[i].name) && ts[i].to != ts[i].from && 0 <= ts[i].to <= 1
  }

  lemma ChainedGrows(ts: seq<Transition>, t: Transition)
    requires Chained(ts) && t.from == Status(ts, t.name) && t.to != t.from && 0 <= t.to <= 1
    ensures Chained(ts + [t])
    ensures forall name :: Status(ts + [t], name) == if name == t.name then t.to else Status(ts, name)
  {
    assert (ts + [t])[..|ts|] == ts;
    forall i | 0 <= i < |ts|
      ensures (ts + [t])[..i] == ts[..i]
    {
    }
  }

  function Flag(b: bool): int {
    if b then 1 else 0
  }

  /** The cache knows exactly what the transitions say. */
  ghost predicate Reflects(cache: map<string, bool>, ts: seq<Transition>) {
    forall name :: Status(ts, name) == if name in cache then Flag(cache[name]) else -1
  }

  // ---------- Lines of the log file ----------

  const LINE_BUFFER := 256

  function Decimal(n: int): (s: string)
    requires -1 <= n <= 1
    ensures 1 <= |s| <= 2 && ';' !in s
  {
    if n == -1 then "-1" else if n == 0 then "0" else "1"
  }

  /** What snprintf writes, if there is room for it. */
  function Message(t: Transition): string
    requires IsStep(t)
  {
    "TIMEPERIOD TRANSITION: " + t.name + ";" + Decimal(t.from) + ";" + Decimal(t.to)
  }

  function Written(message: string): string {
    if |message| < LINE_BUFFER then message else message[..LINE_BUFFER - 1]
  }

  function SkipAll(s: string, c: char): string {
    if s != [] && s[0] == c then SkipAll(s[1..], c) else s
  }

  function TakeUntil(s: string, c: char): string {
    if s == [] || s[0] == c then [] else [s[0]] + TakeUntil(s[1..], c)
  }

  function DropThrough(s: string, c: char): string {
    if s == [] then [] else if s[0] == c then s[1..] else DropThrough(s[1..], c)
  }

  /** The part of a line behind its first colon and the spaces there. */
  function Options(line: string): string {
    SkipAll(DropThrough(line, ':'), ' ')
  }

  datatype Tokens = NoToken | Token(text: string, rest: string)

  /** strtok_r with the delimiter ';'. */
  function NextToken(s: string): Tokens {
    var t := SkipAll(s, ';');
    if t == [] then NoToken else Token(TakeUntil(t, ';'), DropThrough(t, ';'))
  }

  predicate IsDigit(c: char) {
    '0' <= c <= '9'
  }

  function DigitsValue(s: string, value: int): int {
    if s == [] || !IsDigit(s[0]) then value else DigitsValue(s[1..], 10 * value + (s[0] - '0') as int)
  }

  /** isspace: a blank, or one of the control characters from tab to carriage return. */
  predicate IsSpace(c: char) {
    c == ' ' || '\t' <= c <= '\r'
  }

  function SkipSpace(s: string): string {
    if s != [] && IsSpace(s[0]) then SkipSpace(s[1..]) else s
  }

  function Signed(s: string): int {
    if s != [] && s[0] == '-' then -DigitsValue(s[1..], 0)
    else if s != [] && s[0] == '+' then DigitsValue(s[1..], 0)
    else DigitsValue(s, 0)
  }

  function Atoi(s: string): int {
    Signed(SkipSpace(s))
  }

  datatype Reading = BrokenLine | Reading(name: string, status: int)

  /** How the state history reads the options of a transition line. */
  function Read(line: string): Reading {
    var name := NextToken(Options(line));
    if name.NoToken? then BrokenLine
    else
      var from := NextToken(name.rest);
      if from.NoToken? then BrokenLine
      else
        var to := NextToken(from.rest);
        if to.NoToken? then BrokenLine else Reading(name.text, Atoi(to.text))
  }

  lemma {:induction false} TakeDrop(a: string, b: string, c: char)
    requires c !in a && (b == [] || b[0] == c)
    ensures TakeUntil(a + b, c) == a && DropThrough(a + b, c) == if b == [] then [] else b[1..]
  {
    if a == [] {
      assert a + b == b;
    } else {
      assert (a + b)[1..] == a[1..] + b;
      TakeDrop(a[1..], b, c);
    }
  }

  lemma {:induction false} TakenIsClean(s: string, c: char)
    ensures c !in TakeUntil(s, c) && |TakeUntil(s, c)| <= |s|
  {
    if s != [] && s[0] != c {
      TakenIsClean(s[1..], c);
    }
  }

  function Fields(t: Transition): string
    requires IsStep(t)
  {
    ";" + (Decimal(t.from) + (";" + Decimal(t.to)))
  }

  const HEAD := "TIMEPERIOD TRANSITION"

  /** The transitions that survive the way through the log file. */
  predicate Loggable(t: Transition)
    requires IsStep(t)
  {
    && t.name != "" && ';' !in t.name && t.name[0] != ' '
    && |Message(t)| < LINE_BUFFER
  }

  /** The part of the message behind its head, as far as it fits. */
  function Cut(t: Transition): string
    requires IsStep(t)
  {
    var body := t.name + Fields(t);
    if |body| < LINE_BUFFER - 23 then body else body[..LINE_BUFFER - 24]
  }

  lemma WrittenParts(t: Transition)
    requires IsStep(t)
    ensures Written(Message(t)) == HEAD + (": " + Cut(t)) && |Message(t)| == 23 + |t.name| + |Fields(t)|
  {
    assert Message(t) == (HEAD + ": ") + (t.name + Fields(t));
    assert |HEAD + ": "| == 23;
    assert Written(Message(t)) == (HEAD + ": ") + Cut(t);
  }

  lemma OptionsBehind(a: string, b: string)
    requires ':' !in a
    ensures Options(a + (": " + b)) == SkipAll(b, ' ')
  {
    TakeDrop(a, ": " + b, ':');
    assert (": " + b)[1..] == " " + b;
    assert (" " + b)[1..] == b;
  }

  lemma OptionsOfWritten(stamp: string, t: Transition)
    requires ':' !in stamp && IsStep(t)
    ensures Options(stamp + Written(Message(t))) == SkipAll(Cut(t), ' ')
  {
    WrittenParts(t);
    OptionsBehind(stamp + HEAD, Cut(t));
    Associative(stamp, HEAD, ": " + Cut(t));
  }

  lemma {:induction false} SkipAllIsSuffix(s: string, c: char)
    ensures |SkipAll(s, c)| <= |s| && SkipAll(s, c) == s[|s| - |SkipAll(s, c)|..]
    ensures SkipAll(s, c) != [] ==> SkipAll(s, c)[0] != c
  {
    if s != [] && s[0] == c {
      SkipAllIsSuffix(s[1..], c);
    }
  }

  /** The first token of text that is not interrupted before a delimiter or the end. */
  lemma FirstToken(a: string, b: string)
    requires a != "" && ';' !in a && (b == [] || b[0] == ';')
    ensures NextToken(a + b) == Token(a, if b == [] then [] else b[1..])
  {
    assert (a + b)[0] == a[0] && a[0] in a;
    assert SkipAll(a + b, ';') == a + b;
    TakeDrop(a, b, ';');
  }

  lemma TokenIsClean(s: string)
    ensures var t := NextToken(s); t.Token? ==> t.text != "" && ';' !in t.text && t.text[0] == SkipAll(s, ';')[0]
  {
    SkipAllIsSuffix(s, ';');
    TakenIsClean(SkipAll(s, ';'), ';');
  }

  lemma AtoiOfFlag(to: int)
    requires 0 <= to <= 1
    ensures Atoi(Decimal(to)) == to
  {
    var d := Decimal(to);
    assert d[1..] == [] && IsDigit(d[0]);
    assert DigitsValue(d[1..], to) == to;
  }

  /** A number in decimal notation. */
  function Numeral(n: nat): (s: string)
    ensures s != [] && forall c | c in s :: IsDigit(c)
  {
    var digit := "0123456789"[n % 10];
    if n < 10 then [digit] else Numeral(n / 10) + [digit]
  }

  lemma {:induction false} DigitsOfNumeral(n: nat, rest: string)
    ensures DigitsValue(Numeral(n) + rest, 0) == DigitsValue(rest, n)
  {
    var digit := "0123456789"[n % 10];
    assert ([digit] + rest)[1..] == rest && IsDigit(digit) && (digit - '0') as int == n % 10;
    if n >= 10 {
      DigitsOfNumeral(n / 10, [digit] + rest);
      Associative(Numeral(n / 10), [digit], rest);
    }
  }

  lemma {:induction false} SpaceSkipped(space: string, s: string)
    requires (forall c | c in space :: IsSpace(c)) && s != [] && !IsSpace(s[0])
    ensures SkipSpace(space + s) == s
  {
    if space == [] {
      assert space + s == s;
    } else {
      assert (space + s)[1..] == space[1..] + s;
      SpaceSkipped(space[1..], s);
    }
  }

  /** `atoi` reads a number in decimal notation, behind white space and a sign, up to the first other character. */
  lemma AtoiReads(space: string, sign: string, n: nat, rest: string)
    requires (forall c | c in space :: IsSpace(c)) && sign in {"", "+", "-"} && (rest == [] || !IsDigit(rest[0]))
    ensures Atoi(space + (sign + (Numeral(n) + rest))) == if sign == "-" then -(n as int) else n
  {
    var s := sign + (Numeral(n) + rest);
    assert Numeral(n)[0] in Numeral(n);
    SpaceSkipped(space, s);
    DigitsOfNumeral(n, rest);
    assert sign == "" ==> s == Numeral(n) + rest;
    assert sign != "" ==> s[1..] == Numeral(n) + rest;
  }

  /** What is read of any line with three fields: the first one, and the number that the third one starts with. */
  lemma ReadsFields(stamp: string, name: string, from: string, status: string, number: int, tail: string)
    requires ':' !in stamp && name != "" && ';' !in name && name[0] != ' ' && from != "" && ';' !in from
    requires ';' !in status && StartsWithNumber(status, number) && (tail == [] || tail[0] == ';')
    ensures Read(stamp + (": " + (name + (";" + (from + (";" + (status + tail))))))) == Reading(name, number)
  {
    var third := ";" + (status + tail);
    var second := ";" + (from + third);
    var first := name + second;
    OptionsBehind(stamp, first);
    FirstToken(name, second);
    assert second[1..] == from + third;
    FirstToken(from, third);
    assert third[1..] == status + tail;
    FirstToken(status, tail);
    var space, sign, n: nat, rest :| NumberParts(status, number, space, sign, n, rest);
    AtoiReads(space, sign, n, rest);
  }

  ghost predicate NumberParts(status: string, number: int, space: string, sign: string, n: nat, rest: string) {
    && status == space + (sign + (Numeral(n) + rest)) && (forall c | c in space :: IsSpace(c))
    && sign in {"", "+", "-"} && (rest == [] || !IsDigit(rest[0])) && number == if sign == "-" then -(n as int) else n
  }

  /** White space, a sign or none, and the number in decimal notation. */
  ghost predicate StartsWithNumber(status: string, number: int) {
    exists space, sign, n: nat, rest :: NumberParts(status, number, space, sign, n, rest)
  }

  /** What is read of a line that fits. */
  lemma ReadWhole(line: string, t: Transition)
    requires IsStep(t) && t.name != "" && ';' !in t.name
    requires Options(line) == t.name + Fields(t)
    ensures Read(line) == Reading(t.name, t.to)
  {
    FirstToken(t.name, Fields(t));
    FirstToken(Decimal(t.from), ";" + Decimal(t.to));
    assert (";" + Decimal(t.to))[1..] == Decimal(t.to) == Decimal(t.to) + [];
    FirstToken(Decimal(t.to), []);
    AtoiOfFlag(t.to);
  }

  /** A line that is cut off behind the name has no third field. */
  lemma ReadCutFields(line: string, t: Transition, n: nat)
    requires IsStep(t) && t.name != "" && ';' !in t.name
    requires n < |Fields(t)| && Options(line) == t.name + Fields(t)[..n]
    ensures Read(line) == BrokenLine
  {
    var p, from := Fields(t)[..n], Decimal(t.from);
    FirstToken(t.name, p);
    if n >= 1 {
      var rest := p[1..];
      assert |rest| <= |from| + 1;
      assert rest == (from + (";" + Decimal(t.to)))[..n - 1];
      if n >= 2 {
        var shown := if n - 1 <= |from| then from[..n - 1] else from;
        var more := if n - 1 <= |from| then "" else ";";
        assert rest == shown + more;
        FirstToken(shown, more);
        assert more == "" || more[1..] == "";
      }
    }
  }

  lemma ReadCutName(line: string, name: string)
    requires name != "" && ';' !in name && Options(line) == name
    ensures Read(line) == BrokenLine
  {
    assert name + "" == name;
    FirstToken(name, "");
  }

  lemma CutAt(t: Transition, i: nat)
    requires IsStep(t) && i < |Cut(t)|
    ensures if i < |t.name| then Cut(t)[i] == t.name[i]
            else i - |t.name| < |Fields(t)| && Cut(t)[i] == Fields(t)[i - |t.name|]
  {
  }

  lemma FieldsHaveNoSpace(t: Transition)
    requires IsStep(t)
    ensures ' ' !in Fields(t)
  {
    assert ' ' !in Decimal(t.from) && ' ' !in Decimal(t.to);
  }

  /** A tail of the cut text that starts with the delimiter begins behind the name, and has no spaces. */
  lemma TailHasNoSpace(t: Transition, k: nat)
    requires IsStep(t) && ';' !in t.name && k < |Cut(t)| && Cut(t)[k] == ';'
    ensures ' ' !in Cut(t)[k..]
  {
    CutAt(t, k);
    FieldsHaveNoSpace(t);
    forall i | k <= i < |Cut(t)|
      ensures Cut(t)[i] != ' '
    {
      CutAt(t, i);
      assert Fields(t)[i - |t.name|] in Fields(t);
    }
  }

  /** Leading spaces are lost. */
  lemma LeadingSpaceIsLost(t: Transition)
    requires IsStep(t) && t.name != "" && ';' !in t.name && t.name[0] == ' '
    ensures var token := NextToken(SkipAll(Cut(t), ' ')); token.Token? ==> token.text != t.name
  {
    var o := SkipAll(Cut(t), ' ');
    SkipAllIsSuffix(Cut(t), ' ');
    TokenIsClean(o);
    SkipAllIsSuffix(o, ';');
    if o != [] && o[0] == ';' {
      TailHasNoSpace(t, |Cut(t)| - |o|);
      assert ' ' !in o;
      assert SkipAll(o, ';') != [] ==> SkipAll(o, ';')[0] in o;
    }
  }

  /** The round trip: a transition is read back from the log file if and only if it is loggable. */
  lemma ReadBack(stamp: string, t: Transition)
    requires ':' !in stamp && IsStep(t)
    ensures Read(stamp + Written(Message(t))) == Reading(t.name, t.to) <==> Loggable(t)
  {
    var line := stamp + Written(Message(t));
    OptionsOfWritten(stamp, t);
    WrittenParts(t);
    TokenIsClean(Options(line));
    if t.name != "" && ';' !in t.name {
      if t.name[0] == ' ' {
        LeadingSpaceIsLost(t);
      } else if Loggable(t) {
        ReadWhole(line, t);
      } else if |t.name| >= LINE_BUFFER - 24 {
        assert Cut(t) == t.name[..LINE_BUFFER - 24];
        ReadCutName(line, Cut(t));
      } else {
        assert Cut(t) == t.name + Fields(t)[..LINE_BUFFER - 24 - |t.name|];
        ReadCutFields(line, t, LINE_BUFFER - 24 - |t.name|);
      }
    }
  }

  /** Two transitions that are lost on the way: the message is cut off, or the name starts with a space. */
  lemma TransitionsAreLost(stamp: string)
    requires ':' !in stamp
    ensures var long := Transition(seq(230, i => 'a'), 0, 1);
            Read(stamp + Written(Message(long))) != Reading(long.name, 1)
    ensures Read(stamp + Written(Message(Transition(" night", 0, 1)))) != Reading(" night", 1)
  {
    ReadBack(stamp, Transition(seq(230, i => 'a'), 0, 1));
    ReadBack(stamp, Transition(" night", 0, 1));
  }

  // ---------- Replay ----------

  /** The state history's map after it has read some lines. */
  function Replayed(readings: seq<Reading>): map<string, int> {
    if readings == [] then map[]
    else
      var before := Replayed(readings[..|readings| - 1]);
      match readings[|readings| - 1]
      case BrokenLine => before
      case Reading(name, status) => before[name := status]
  }

  function Readings(lines: seq<string>): seq<Reading> {
    seq(|lines|, i requires 0 <= i < |lines| => Read(lines[i]))
  }

  /** The log file holds the messages of the transitions, each behind a time stamp. */
  ghost predicate Logged(lines: seq<string>, stampOf: nat -> string, ts: seq<Transition>) {
    && |lines| == |ts|
    && forall i: nat | i < |ts| ::
         IsStep(ts[i]) && ':' !in stampOf(i) && lines[i] == stampOf(i) + Written(Message(ts[i]))
  }

  /** The map says of each period what the transitions say. */
  ghost predicate Tells(m: map<string, int>, ts: seq<Transition>) {
    forall name :: (name in m <==> Status(ts, name) != -1) && (name in m ==> m[name] == Status(ts, name))
  }

  lemma TellsNext(m: map<string, int>, ts: seq<Transition>)
    requires ts != [] && Tells(m, ts[..|ts| - 1]) && 0 <= ts[|ts| - 1].to
    ensures Tells(m[ts[|ts| - 1].name := ts[|ts| - 1].to], ts)
  {
  }

  /** Replaying the transitions gives the status of each period. */
  lemma {:induction false} ReplayedStatus(readings: seq<Reading>, ts: seq<Transition>)
    requires |readings| == |ts|
    requires forall i | 0 <= i < |ts| :: 0 <= ts[i].to && readings[i] == Reading(ts[i].name, ts[i].to)
    ensures Tells(Replayed(readings), ts)
  {
    if ts != [] {
      var n := |ts| - 1;
      ReplayedStatus(readings[..n], ts[..n]);
      TellsNext(Replayed(readings[..n]), ts);
    }
  }

  /** Replaying the log rebuilds the cache. */
  lemma ReplayRebuildsCache(lines: seq<string>, stampOf: nat -> string, ts: seq<Transition>, cache: map<string, bool>)
    requires Logged(lines, stampOf, ts) && Reflects(cache, ts) && forall i | 0 <= i < |ts| :: Loggable(ts[i])
    ensures Replayed(Readings(lines)) == map name | name in cache :: Flag(cache[name])
  {
    forall i: nat | i < |ts|
      ensures 0 <= ts[i].to && Readings(lines)[i] == Reading(ts[i].name, ts[i].to)
    {
      ReadBack(stampOf(i), ts[i]);
    }
    ReplayedStatus(Readings(lines), ts);
    StatusIsCache(Replayed(Readings(lines)), ts, cache);
  }

  lemma StatusIsCache(m: map<string, int>, ts: seq<Transition>, cache: map<string, bool>)
    requires Tells(m, ts) && Reflects(cache, ts)
    ensures m == map name | name in cache :: Flag(cache[name])
  {
    forall name
      ensures name in m <==> name in cache
      ensures name in cache ==> m[name] == Flag(cache[name])
    {
      assert Status(ts, name) == if name in cache then Flag(cache[name]) else -1;
    }
  }

  // ---------- The cache ----------

  /**
   The line about a period that has become active or inactive: its old status, -1 if it has none, and its new one, cut
   off behind 255 characters.
   */
  function NewLine(stamp: string, name: string, known: bool, isIn: bool): string {
    var from := if !known then "-1" else if isIn then "0" else "1";
    var message := "TIMEPERIOD TRANSITION: " + name + ";" + from + ";" + if isIn then "1" else "0";
    stamp + if |message| <= 255 then message else message[..255]
  }

  lemma NewLineIsMessage(stamp: string, name: string, known: bool, isIn: bool)
    ensures var from := if known then 1 - Flag(isIn) else -1;
            NewLine(stamp, name, known, isIn) == stamp + Written(Message(Transition(name, from, Flag(isIn))))
  {
  }

  /** A period that is new or has changed is logged. */
  function Change(cache: map<string, bool>, name: string, isIn: bool): seq<Transition> {
    if name !in cache then [Transition(name, -1, Flag(isIn))]
    else if cache[name] != isIn then [Transition(name, Flag(cache[name]), Flag(isIn))]
    else []
  }

  /** The transitions that an update logs. */
  function Changes(cache: map<string, bool>, periods: seq<string>, isIn: string -> bool): seq<Transition> {
    if periods == [] then []
    else
      var n := |periods| - 1;
      Changes(cache, periods[..n], isIn) + Change(cache, periods[n], isIn(periods[n]))
  }

  lemma ReflectsNext(cache: map<string, bool>, ts: seq<Transition>, t: Transition, isIn: bool)
    requires Reflects(cache, ts) && t.to == Flag(isIn)
    ensures Reflects(cache[t.name := isIn], ts + [t])
  {
    assert (ts + [t])[..|ts|] == ts;
  }

  lemma LoggedNext(lines: seq<string>, stampOf: nat -> string, ts: seq<Transition>, t: Transition)
    requires Logged(lines, stampOf, ts) && IsStep(t) && ':' !in stampOf(|lines|)
    ensures Logged(lines + [stampOf(|lines|) + Written(Message(t))], stampOf, ts + [t])
  {
    var line := stampOf(|lines|) + Written(Message(t));
    forall i: nat | i < |ts| + 1
      ensures (ts + [t])[i] == if i < |ts| then ts[i] else t
      ensures (lines + [line])[i] == if i < |ts| then lines[i] else line
    {
    }
  }

  lemma ChangeKeepsValid(cache: map<string, bool>, ts: seq<Transition>, t: Transition, isIn: bool)
    requires Chained(ts) && Reflects(cache, ts)
    requires t.to == Flag(isIn) && t.from == (if t.name in cache then Flag(cache[t.name]) else -1) && t.from != t.to
    ensures Chained(ts + [t]) && Reflects(cache[t.name := isIn], ts + [t])
  {
    assert Status(ts, t.name) == t.from;
    ChainedGrows(ts, t);
    ReflectsNext(cache, ts, t, isIn);
  }

  /** The given periods have their current status, and the others the one that they had. */
  ghost predicate UpdatedBy(before: map<string, bool>, cache: map<string, bool>, periods: seq<string>,
                            isIn: string -> bool) {
    && (forall name | name in periods :: name in cache && cache[name] == isIn(name))
    && (forall name | name !in periods ::
          (name in cache <==> name in before) && (name in cache ==> cache[name] == before[name]))
  }

  /** The first i periods have been looked at. */
  ghost predicate Progress(before: map<string, bool>, cache: map<string, bool>, logged: seq<Transition>,
                           ts: seq<Transition>, periods: seq<string>, i: nat, isIn: string -> bool)
  {
    i <= |periods| && UpdatedBy(before, cache, periods[..i], isIn) && ts == logged + Changes(before, periods[..i], isIn)
  }

  lemma ProgressNext(before: map<string, bool>, cache: map<string, bool>, logged: seq<Transition>, ts: seq<Transition>,
                     periods: seq<string>, i: nat, isIn: string -> bool)
    requires i < |periods| && NoDuplicates(periods) && Progress(before, cache, logged, ts, periods, i, isIn)
    ensures var name := periods[i];
            Progress(before, cache[name := isIn(name)], logged, ts + Change(cache, name, isIn(name)), periods, i + 1,
                     isIn)
  {
    assert periods[..i + 1] == periods[..i] + [periods[i]] && periods[..i + 1][..i] == periods[..i];
    assert periods[i] !in periods[..i];
    Associative(logged, Changes(before, periods[..i], isIn), Change(before, periods[i], isIn(periods[i])));
  }

  lemma ProgressDone(before: map<string, bool>, cache: map<string, bool>, logged: seq<Transition>, ts: seq<Transition>,
                     periods: seq<string>, isIn: string -> bool)
    requires Progress(before, cache, logged, ts, periods, |periods|, isIn)
    ensures UpdatedBy(before, cache, periods, isIn) && ts == logged + Changes(before, periods, isIn)
  {
    assert periods[..|periods|] == periods;
  }

  class TimeperiodsCache {
    const stampOf: nat -> string // the time stamps that the monitoring core writes before a message
    var cacheTime: int
    var cache: map<string, bool>
    var log: seq<string>
    ghost var transitions: seq<Transition>

    ghost predicate Valid()
      reads this`cache, this`log, this`transitions
    {
      && (forall n :: ':' !in stampOf(n))
      && Chained(transitions) && Reflects(cache, transitions) && Logged(log, stampOf, transitions)
    }

    constructor (stampOf: nat -> string)
      requires forall n :: ':' !in stampOf(n)
      ensures Valid() && cache == map[] && log == [] && transitions == [] && cacheTime == 0 && this.stampOf == stampOf
    {
      this.stampOf := stampOf;
      cacheTime, cache, log, transitions := 0, map[], [], [];
    }

    method LogTransition(name: string, from: int, to: int)
      requires IsStep(Transition(name, from, to)) && ':' !in stampOf(|log|) && Logged(log, stampOf, transitions)
      modifies this`log, this`transitions
      ensures transitions == old(transitions) + [Transition(name, from, to)]
      ensures log == old(log) + [stampOf(|old(log)|) + Written(Message(Transition(name, from, to)))]
      ensures Logged(log, stampOf, transitions)
    {
      var t := Transition(name, from, to);
      LoggedNext(log, stampOf, transitions, t);
      transitions := transitions + [t];
      log := log + [stampOf(|log|) + Written(Message(t))];
    }

    /** Logs a transition and takes over the new status. */
    method Enter(name: string, from: int, isIn: bool)
      requires Valid() && from == (if name in cache then Flag(cache[name]) else -1) && from != Flag(isIn)
      modifies this`cache, this`log, this`transitions
      ensures Valid() && cache == old(cache)[name := isIn]
      ensures transitions == old(transitions) + [Transition(name, from, Flag(isIn))]
      ensures log == old(log) + [stampOf(|old(log)|) + Written(Message(Transition(name, from, Flag(isIn))))]
    {
      ghost var t := Transition(name, from, Flag(isIn));
      ghost var ts := transitions + [t];
      ChangeKeepsValid(cache, transitions, t, isIn);
      LogTransition(name, from, if isIn then 1 else 0);
      cache := cache[name := isIn];
      assert transitions == ts;
    }

    /** Looks at one period. */
    method Check(name: string, isIn: bool)
      requires Valid()
      modifies this`cache, this`log, this`transitions
      ensures Valid() && cache == old(cache)[name := isIn]
      ensures transitions == old(transitions) + Change(old(cache), name, isIn)
      ensures log == old(log) + if name in old(cache) && old(cache)[name] == isIn then []
                                else [NewLine(stampOf(|old(log)|), name, name in old(cache), isIn)]
    {
      NewLineIsMessage(stampOf(|log|), name, name in cache, isIn);
      if name !in cache {
        Enter(name, -1, isIn);
      } else if cache[name] != isIn {
        Enter(name, if cache[name] then 1 else 0, isIn);
      } else {
        assert cache == cache[name := isIn];
        assert transitions == transitions + [];
      }
    }

    /** The loop over the list of periods. */
    method CheckAll(periods: seq<string>, isIn: string -> bool)
      requires Valid() && NoDuplicates(periods)
      modifies this`cache, this`log, this`transitions
      ensures Valid() && UpdatedBy(old(cache), cache, periods, isIn)
      ensures transitions == old(transitions) + Changes(old(cache), periods, isIn)
    {
      ghost var before, logged := cache, transitions;
      assert logged + [] == logged;
      for i := 0 to |periods|
        invariant Valid() && Progress(before, cache, logged, transitions, periods, i, isIn)
      {
        ProgressNext(before, cache, logged, transitions, periods, i, isIn);
        Check(periods[i], isIn(periods[i]));
      }
      ProgressDone(before, cache, logged, transitions, periods, isIn);
    }

    /** Looks at all periods, but only once a minute and not before there are any. */
    method Update(now: nat, periods: seq<string>, isIn: string -> bool)
      requires Valid() && NoDuplicates(periods)
      modifies this
      ensures Valid()
      ensures var minutes := now / 60;
              if minutes == old(cacheTime) then
                cache == old(cache) && transitions == old(transitions) && log == old(log) && cacheTime == old(cacheTime)
              else
                && UpdatedBy(old(cache), cache, periods, isIn)
                && transitions == old(transitions) + Changes(old(cache), periods, isIn)
                && cacheTime == if periods == [] then old(cacheTime) else minutes
    {
      var minutes := now / 60;
      if minutes == cacheTime {
        return;
      }
      CheckAll(periods, isIn);
      if |periods| > 0 {
        cacheTime := minutes;
      }
    }
  }
}
