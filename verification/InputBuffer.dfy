/**
 The request buffer (src/InputBuffer.cc): a fixed array with a read, a scan and a write position that splits the
 client's byte stream into request lines, however the stream arrives.
 */
module InputBuffers {
  import opened Basics

  type Line = seq<Byte>

  const NEWLINE: Byte := 10

  datatype Status =
    | RequestRead | DataRead | UnexpectedEndOfFile | ShouldTerminate | LineTooLong | EndOfFile | EmptyRequest | Timeout

  predicate GaveUp(status: Status) {
    status == Timeout || status == ShouldTerminate
  }

  /** isspace in the C locale. */
  predicate IsSpace(b: Byte) {
    b == 32 || 9 <= b <= 13
  }

  function Trimmed(line: Line): Line {
    if line != [] && IsSpace(line[|line| - 1]) then Trimmed(line[..|line| - 1]) else line
  }

  /** A line as it is appended to the request; lines of whitespace only are ignored. */
  function Stored(lines: seq<Line>, line: Line): seq<Line> {
    if Trimmed(line) == [] then lines else lines + [Trimmed(line)]
  }

  /** The position of the first newline, or the length. */
  function LineEnd(s: seq<Byte>): (n: nat)
    ensures n <= |s| && (forall i | 0 <= i < n :: s[i] != NEWLINE) && (n < |s| ==> s[n] == NEWLINE)
  {
    if s == [] || s[0] == NEWLINE then 0 else 1 + LineEnd(s[1..])
  }

  datatype Request = Request(status: Status, lines: seq<Line>, rest: seq<Byte>)

  /**
   Splitting the whole stream at once: the first request of `s`, when `lines` are left over from before. Only the first
   `capacity` bytes of a line are looked at for its end.
   */
  function Split(s: seq<Byte>, lines: seq<Line>, capacity: nat): (q: Request)
    ensures |q.rest| <= |s|
    decreases |s|
  {
    var n := LineEnd(s);
    if n >= capacity then Request(LineTooLong, lines, s)
    else if n == |s| then
      if n > 0 then Request(UnexpectedEndOfFile, lines, s)
      else Request(if lines == [] then EndOfFile else RequestRead, lines, s)
    else if n == 0 then Request(if lines == [] then EmptyRequest else RequestRead, lines, s[1..])
    else Split(s[n + 1..], Stored(lines, s[..n]), capacity)
  }

  /** A complete request has lines, and uses up some of the stream unless it is the rest of an earlier one. */
  lemma {:induction false} RequestReadAdvances(s: seq<Byte>, lines: seq<Line>, capacity: nat)
    requires Split(s, lines, capacity).status == RequestRead
    ensures Split(s, lines, capacity).lines != []
    ensures |Split(s, lines, capacity).rest| < |s| ||
            (s == [] && lines != [] && Split(s, lines, capacity).lines == lines)
    decreases |s|
  {
    var n := LineEnd(s);
    if 0 < n < |s| {
      RequestReadAdvances(s[n + 1..], Stored(lines, s[..n]), capacity);
    }
  }

  lemma SplitAtNewline(s: seq<Byte>, lines: seq<Line>, capacity: nat, line: Line, rest: seq<Byte>)
    requires LineEnd(s) == |line| < capacity && s == line + [NEWLINE] + rest
    ensures Split(s, lines, capacity) ==
            if line == [] then Request(if lines == [] then EmptyRequest else RequestRead, lines, rest)
            else Split(rest, Stored(lines, line), capacity)
  {
    assert s[..|line|] == line && s[|line| + 1..] == rest;
  }

  lemma LineEndAt(s: seq<Byte>, n: nat)
    requires n <= |s| && NEWLINE !in s[..n]
    ensures n <= LineEnd(s)
    ensures n < |s| && s[n] == NEWLINE ==> LineEnd(s) == n
  {
    forall i | 0 <= i < n
      ensures s[i] != NEWLINE
    {
      assert s[..n][i] == s[i];
    }
  }

  // ---------- What a stream of lines is split into ----------

  /** The longest prefix of the line that is empty or ends in a byte other than white space. */
  ghost predicate IsCutLine(line: Line, cut: Line) {
    && cut <= line && (cut != [] ==> !(cut[|cut| - 1] == 32 || 9 <= cut[|cut| - 1] <= 13))
    && forall i | |cut| <= i < |line| :: line[i] == 32 || 9 <= line[i] <= 13
  }

  lemma {:induction false} TrimmedIsCut(line: Line)
    ensures IsCutLine(line, Trimmed(line))
  {
    if line != [] && IsSpace(line[|line| - 1]) {
      TrimmedIsCut(line[..|line| - 1]);
    }
  }

  /** Not empty, without a newline, and shorter than the buffer. */
  ghost predicate AreLines(lines: seq<Line>, capacity: nat) {
    forall line | line in lines :: line != [] && 10 !in line && |line| < capacity
  }

  /** The bytes of some lines, each with its newline. */
  ghost function Bytes(lines: seq<Line>): seq<Byte> {
    if lines == [] then [] else lines[0] + [10] + Bytes(lines[1..])
  }

  /** The lines as a request keeps them: behind those it has, in their order, cut, and without the empty ones. */
  ghost predicate AreKept(before: seq<Line>, lines: seq<Line>, cuts: seq<Line>, after: seq<Line>) {
    && |cuts| == |lines| && (forall i | 0 <= i < |lines| :: IsCutLine(lines[i], cuts[i]))
    && after == before + Filtered((c: Line) => c != [], cuts)
  }

  lemma FirstKept(before: seq<Line>, lines: seq<Line>, cuts: seq<Line>, after: seq<Line>)
    requires lines != [] && AreKept(Stored(before, lines[0]), lines[1..], cuts, after)
    ensures AreKept(before, lines, [Trimmed(lines[0])] + cuts, after)
  {
    var cut: Line, kept := Trimmed(lines[0]), (c: Line) => c != [];
    TrimmedIsCut(lines[0]);
    FilteredAppend(kept, [cut], cuts);
    assert [cut][..0] == [];
    assert Filtered(kept, [cut]) == if cut != [] then [cut] else [];
    Associative(before, Filtered(kept, [cut]), Filtered(kept, cuts));
    assert before + [] == before;
  }

  /** Splitting goes through given lines one after the other. */
  lemma {:induction false} SplitLines(lines: seq<Line>, tail: seq<Byte>, before: seq<Line>, capacity: nat)
    returns (cuts: seq<Line>, after: seq<Line>)
    requires AreLines(lines, capacity)
    ensures AreKept(before, lines, cuts, after)
    ensures Split(Bytes(lines) + tail, before, capacity) == Split(tail, after, capacity)
  {
    if lines == [] {
      cuts, after := [], before;
      assert Bytes(lines) + tail == tail;
    } else {
      var line, rest := lines[0], Bytes(lines[1..]) + tail;
      assert line in lines;
      assert Bytes(lines) + tail == line + [NEWLINE] + rest;
      LineEndBehind(line, rest);
      SplitAtNewline(Bytes(lines) + tail, before, capacity, line, rest);
      cuts, after := SplitLines(lines[1..], tail, Stored(before, line), capacity);
      FirstKept(before, lines, cuts, after);
      cuts := [Trimmed(line)] + cuts;
    }
  }

  lemma LineEndBehind(line: Line, rest: seq<Byte>)
    requires NEWLINE !in line
    ensures LineEnd(line + [NEWLINE] + rest) == |line|
  {
    var s := line + [NEWLINE] + rest;
    assert s[..|line|] == line && s[|line|] == NEWLINE;
    LineEndAt(s, |line|);
  }

  /**
   What ends a request: an empty line, behind which the rest of the stream is left, or the end of the stream; both only
   if there are any lines. A last line without newline, or a line as long as the buffer, is an error.
   */
  ghost predicate Ends(tail: seq<Byte>, capacity: nat, status: Status, after: seq<Line>, rest: seq<Byte>) {
    if capacity <= |tail| && 10 !in tail[..capacity] then status == LineTooLong && rest == tail
    else if tail == [] then status == (if after == [] then EndOfFile else RequestRead) && rest == []
    else if tail[0] == 10 then status == (if after == [] then EmptyRequest else RequestRead) && rest == tail[1..]
    else 10 !in tail && status == UnexpectedEndOfFile && rest == tail
  }

  /** The stream is a sequence of lines and an end, and the request keeps these lines behind those it has. */
  ghost predicate IsRequestOf(stream: seq<Byte>, before: seq<Line>, capacity: nat, status: Status, after: seq<Line>,
                              rest: seq<Byte>)
  {
    exists lines, cuts, tail ::
      && stream == Bytes(lines) + tail && AreLines(lines, capacity) && AreKept(before, lines, cuts, after)
      && Ends(tail, capacity, status, after, rest)
  }

  /** A stream that starts with a line in the buffer. */
  ghost predicate StartsWithLine(s: seq<Byte>, capacity: nat) {
    0 < LineEnd(s) < capacity && LineEnd(s) < |s|
  }

  lemma SplitEnds(tail: seq<Byte>, after: seq<Line>, capacity: nat)
    requires !StartsWithLine(tail, capacity)
    ensures var q := Split(tail, after, capacity);
            q.lines == after && Ends(tail, capacity, q.status, after, q.rest)
  {
    var n := LineEnd(tail);
    if n >= capacity {
      assert forall i | 0 <= i < capacity :: tail[..capacity][i] == tail[i];
    } else if capacity <= |tail| && NEWLINE !in tail[..capacity] {
      LineEndAt(tail, capacity);
    }
  }

  /** Every stream consists of lines and an end. */
  lemma {:induction false} LinesOfStream(s: seq<Byte>, capacity: nat) returns (lines: seq<Line>, tail: seq<Byte>)
    ensures s == Bytes(lines) + tail && AreLines(lines, capacity) && !StartsWithLine(tail, capacity)
    decreases |s|
  {
    if StartsWithLine(s, capacity) {
      var n := LineEnd(s);
      var line, others := s[..n], [];
      others, tail := LinesOfStream(s[n + 1..], capacity);
      lines := [line] + others;
      assert NEWLINE !in line;
      assert lines[1..] == others;
      assert s == line + [NEWLINE] + s[n + 1..];
      Associative(line + [NEWLINE], Bytes(others), tail);
    } else {
      lines, tail := [], s;
    }
  }

  lemma CutIsUnique(line: Line, a: Line, b: Line)
    requires IsCutLine(line, a) && IsCutLine(line, b)
    ensures a == b
  {
    assert |a| == |b| by {
      assert a != [] ==> a[|a| - 1] == line[|a| - 1];
      assert b != [] ==> b[|b| - 1] == line[|b| - 1];
    }
  }

  /** No other request is in the stream. */
  lemma OnlyOneRequest(s: seq<Byte>, before: seq<Line>, capacity: nat, q: Request)
    requires IsRequestOf(s, before, capacity, q.status, q.lines, q.rest)
    ensures q == Split(s, before, capacity)
  {
    var lines, cuts, tail :|
      && s == Bytes(lines) + tail && AreLines(lines, capacity) && AreKept(before, lines, cuts, q.lines)
      && Ends(tail, capacity, q.status, q.lines, q.rest);
    var cuts', after := SplitLines(lines, tail, before, capacity);
    forall i | 0 <= i < |lines|
      ensures cuts[i] == cuts'[i]
    {
      CutIsUnique(lines[i], cuts[i], cuts'[i]);
    }
    assert cuts == cuts';
    assert !StartsWithLine(tail, capacity) by {
      assert capacity <= |tail| ==> forall i | 0 <= i < capacity :: tail[..capacity][i] == tail[i];
    }
    SplitEnds(tail, after, capacity);
  }

  /** All requests that are in the stream, behind the lines left over from before. */
  ghost function RequestsIn(stream: seq<Byte>, before: seq<Line>, capacity: nat): iset<Request> {
    iset q: Request | IsRequestOf(stream, before, capacity, q.status, q.lines, q.rest)
  }

  /** Splitting gives a request that is in the stream. */
  lemma SplitIsInStream(s: seq<Byte>, before: seq<Line>, capacity: nat)
    ensures Split(s, before, capacity) in RequestsIn(s, before, capacity)
  {
    var lines, tail := LinesOfStream(s, capacity);
    var cuts, after := SplitLines(lines, tail, before, capacity);
    SplitEnds(tail, after, capacity);
  }

  /** There is exactly one. */
  lemma SplitIsTheRequest(s: seq<Byte>, before: seq<Line>, capacity: nat, q: Request)
    ensures q in RequestsIn(s, before, capacity) <==> q == Split(s, before, capacity)
  {
    SplitIsInStream(s, before, capacity);
    if q in RequestsIn(s, before, capacity) {
      OnlyOneRequest(s, before, capacity, q);
    }
  }

  lemma JoinedSlices<T>(s: seq<T>, a: nat, b: nat, c: nat)
    requires a <= b <= c <= |s|
    ensures s[a..c] == s[a..b] + s[b..c]
  {
  }

  datatype Answered = Answered(status: Status, lines: seq<Line>)

  /**
   How a request is answered: how many of its lines are taken, and whether the connection is kept. A GET request takes
   all its lines; a COMMAND request takes one and keeps the connection, so that the others belong to the next request.
   */
  datatype Handling = Handling(taken: nat, keepAlive: bool)

  type Handler = seq<Line> -> Handling

  function Handled(handler: Handler, lines: seq<Line>): Handling {
    handler(lines)
  }

  /** At least the first line of a request is taken. */
  ghost predicate Handles(handler: Handler) {
    forall lines | lines != [] :: 1 <= Handled(handler, lines).taken <= |lines|
  }

  /** All requests of a connection, with the lines that are left over from before. */
  ghost function Requests(s: seq<Byte>, lines: seq<Line>, capacity: nat, handler: Handler): seq<Answered>
    requires Handles(handler)
    decreases |s|, |lines|
  {
    var q := Split(s, lines, capacity);
    if q.status != RequestRead then [Answered(q.status, [])]
    else
      RequestReadAdvances(s, lines, capacity);
      var h := Handled(handler, q.lines);
      [Answered(q.status, q.lines[..h.taken])] +
      if h.keepAlive then Requests(q.rest, q.lines[h.taken..], capacity, handler) else []
  }

  /** What follows one answer: nothing, or the requests in the rest of the stream and the lines that were not taken. */
  ghost function Later(q: Request, capacity: nat, handler: Handler): seq<Answered>
    requires Handles(handler)
  {
    if q.status == RequestRead && q.lines != [] && Handled(handler, q.lines).keepAlive
    then Requests(q.rest, q.lines[Handled(handler, q.lines).taken..], capacity, handler)
    else []
  }

  lemma FirstAnswer(s: seq<Byte>, lines: seq<Line>, capacity: nat, handler: Handler, q: Request)
    requires Handles(handler) && q == Split(s, lines, capacity)
    ensures q.status != RequestRead ==> Requests(s, lines, capacity, handler) == [Answered(q.status, [])]
    ensures q.status == RequestRead ==> q.lines != [] && (|q.rest| < |s| || (q.rest == s && q.lines == lines))
    ensures q.status == RequestRead ==>
              Requests(s, lines, capacity, handler) ==
              [Answered(RequestRead, q.lines[..Handled(handler, q.lines).taken])] + Later(q, capacity, handler)
  {
    if q.status == RequestRead {
      RequestReadAdvances(s, lines, capacity);
    }
  }

  /** The answer to a request takes the first of its lines. */
  ghost predicate IsAnswerTo(a: Answered, q: Request, handler: Handler) {
    && a.status == q.status
    && if q.status != RequestRead then a.lines == []
       else handler(q.lines).taken <= |q.lines| && a.lines == q.lines[..handler(q.lines).taken]
  }

  ghost predicate GoesOn(q: Request, handler: Handler) {
    q.status == RequestRead && handler(q.lines).keepAlive && handler(q.lines).taken <= |q.lines|
  }

  /**
   The answers on a connection, one by one: each is about the request that comes next, behind the lines left over from
   the one before; if the connection is kept, the lines that it does not take are left over for the next one.
   */
  ghost predicate AreAnswers(answers: seq<Answered>, stream: seq<Byte>, before: seq<Line>, capacity: nat,
                             handler: Handler)
    decreases |answers|
  {
    answers != [] && exists q | q in RequestsIn(stream, before, capacity) ::
      IsAnswerTo(answers[0], q, handler) &&
      if GoesOn(q, handler) then AreAnswers(answers[1..], q.rest, q.lines[handler(q.lines).taken..], capacity, handler)
      else |answers| == 1
  }

  lemma {:induction false} RequestsAreAnswers(s: seq<Byte>, lines: seq<Line>, capacity: nat, handler: Handler)
    requires Handles(handler)
    ensures AreAnswers(Requests(s, lines, capacity, handler), s, lines, capacity, handler)
    decreases |s|, |lines|
  {
    var q, answers := Split(s, lines, capacity), Requests(s, lines, capacity, handler);
    SplitIsInStream(s, lines, capacity);
    FirstAnswer(s, lines, capacity, handler, q);
    if q.status == RequestRead {
      var taken := Handled(handler, q.lines).taken;
      assert answers[1..] == Later(q, capacity, handler);
      if GoesOn(q, handler) {
        RequestsAreAnswers(q.rest, q.lines[taken..], capacity, handler);
      }
    }
  }

  class InputBuffer {
    const buffer: array<Byte>
    var readPointer: nat
    var writePointer: nat
    var requestLines: seq<Line>
    /** The environment: what the client has sent or will send before it closes, and how long it may idle. */
    var pending: seq<Byte>
    var patience: nat

    ghost predicate Valid()
      reads `readPointer, `writePointer
    {
      readPointer <= writePointer <= buffer.Length
    }

    ghost function From(r: nat): seq<Byte>
      reads `writePointer, `pending, buffer
      requires r <= writePointer <= buffer.Length
    {
      buffer[r..writePointer] + pending
    }

    /** All bytes that no request has consumed yet. */
    ghost function Unread(): seq<Byte>
      reads `readPointer, `writePointer, `pending, buffer
      requires Valid()
    {
      From(readPointer)
    }

    constructor (size: nat, stream: seq<Byte>, patience: nat)
      ensures Valid() && fresh(buffer) && buffer.Length == size
      ensures Unread() == stream && requestLines == []
    {
      buffer := new Byte[size];
      readPointer, writePointer, requestLines := 0, 0, [];
      pending, this.patience := stream, patience;
    }

    /** Reads at least one byte if the client has not closed; how many, and whether the call times out, is open. */
    method ReadData() returns (status: Status)
      requires Valid() && writePointer < buffer.Length
      modifies this`writePointer, this`pending, this`patience, buffer
      ensures Valid() && Unread() == old(Unread())
      ensures status in {DataRead, EndOfFile, Timeout, ShouldTerminate}
      ensures old(writePointer) <= writePointer && buffer[..old(writePointer)] == old(buffer[..writePointer])
      ensures status == DataRead <==> writePointer > old(writePointer)
      ensures status == DataRead <==> |pending| < |old(pending)|
      ensures status == EndOfFile ==> pending == []
      ensures status == Timeout && old(patience) > 0 ==> patience == old(patience) - 1
      ensures status != Timeout || old(patience) == 0 ==> patience == old(patience)
    {
      if * {
        return ShouldTerminate;
      }
      if * {
        patience := if patience > 0 then patience - 1 else 0;
        return Timeout;
      }
      if pending == [] {
        return EndOfFile;
      }
      var n :| 1 <= n <= |pending| && n <= buffer.Length - writePointer;
      ghost var kept, end := buffer[readPointer..writePointer], writePointer;
      ghost var arrived, rest := pending[..n], pending[n..];
      forall i | 0 <= i < n {
        buffer[writePointer + i] := pending[i];
      }
      pending := pending[n..];
      writePointer := writePointer + n;
      ghost var all := buffer[..];
      assert all[readPointer..end] == kept && all[end..writePointer] == arrived;
      JoinedSlices(all, readPointer, end, writePointer);
      assert old(pending) == arrived + rest;
      Associative(kept, arrived, rest);
      return DataRead;
    }

    /** Appends a line to the request, without trailing whitespace. */
    method StoreRequestLine(from: nat, length: nat)
      requires from + length <= buffer.Length
      modifies this`requestLines
      ensures requestLines == old(Stored(requestLines, buffer[from..from + length]))
    {
      var end, left := from + length, length;
      while end > from && IsSpace(buffer[end - 1])
        invariant from <= end <= from + length && left == end - from
        invariant Trimmed(buffer[from..end]) == Trimmed(buffer[from..from + length])
      {
        assert buffer[from..end][..left - 1] == buffer[from..end - 1];
        end, left := end - 1, left - 1;
      }
      assert Trimmed(buffer[from..end]) == buffer[from..end];
      if left > 0 {
        requestLines := requestLines + [buffer[from..end]];
      }
    }

    /** Moves the unread bytes to the start of the buffer. */
    method ShiftToStart()
      requires Valid()
      modifies this`readPointer, this`writePointer, buffer
      ensures Valid() && readPointer == 0 && writePointer == old(writePointer - readPointer)
      ensures buffer[..writePointer] == old(buffer[readPointer..writePointer])
    {
      var shiftBy, size := readPointer, writePointer - readPointer;
      forall i | 0 <= i < size {
        buffer[i] := buffer[shiftBy + i];
      }
      readPointer := 0;
      writePointer := writePointer - shiftBy;
    }

    /** What `Split` says about all unread bytes and the lines stored so far. */
    ghost function Next(): Request
      reads this, buffer
      requires Valid()
    {
      Split(Unread(), requestLines, buffer.Length)
    }

    /** No end of line between the read pointer and `r`. */
    ghost predicate Scanned(r: nat)
      reads `readPointer, `writePointer, buffer
      requires Valid()
    {
      readPointer <= r <= writePointer && NEWLINE !in buffer[readPointer..r]
    }

    lemma ScannedLineEnd(r: nat)
      requires Valid() && Scanned(r)
      ensures r - readPointer <= LineEnd(Unread())
      ensures r < writePointer && buffer[r] == NEWLINE ==> LineEnd(Unread()) == r - readPointer
    {
      assert Unread()[..r - readPointer] == buffer[readPointer..r];
      assert r < writePointer ==> Unread()[r - readPointer] == buffer[r];
      LineEndAt(Unread(), r - readPointer);
    }

    lemma LineFound(r: nat, line: Line, rest: seq<Byte>)
      requires Valid() && Scanned(r) && r < writePointer && buffer[r] == NEWLINE
      requires line == buffer[readPointer..r] && rest == From(r + 1)
      ensures Next() ==
              if line == [] then Request(if requestLines == [] then EmptyRequest else RequestRead, requestLines, rest)
              else Split(rest, Stored(requestLines, line), buffer.Length)
    {
      ScannedLineEnd(r);
      assert Unread() == line + [NEWLINE] + rest;
      SplitAtNewline(Unread(), requestLines, buffer.Length, line, rest);
    }

    method FindLineEnd(from: nat) returns (r: nat)
      requires Valid() && Scanned(from)
      ensures Scanned(r) && (r < writePointer ==> buffer[r] == NEWLINE)
    {
      r := from;
      while r < writePointer && buffer[r] != NEWLINE
        invariant Scanned(r)
      {
        assert buffer[readPointer..r + 1] == buffer[readPointer..r] + [buffer[r]];
        r := r + 1;
      }
    }

    /** One turn of the loop that found no end of line: read, shift, or give up. */
    method NeedData(r: nat, queryStarted: bool) returns (done: bool, status: Status, r': nat)
      requires Valid() && Scanned(r) && r == writePointer
      modifies this`readPointer, this`writePointer, this`pending, this`patience, buffer
      ensures Valid() && Next() == old(Next())
      ensures done && !GaveUp(status) ==> Request(status, requestLines, Unread()) == Next()
      ensures !done ==> Scanned(r')
      ensures !done ==>
                (old(patience), old(|pending|), old(writePointer - readPointer), old(readPointer) decreases to
                 patience, |pending|, writePointer - readPointer, readPointer)
    {
      done, status, r' := false, DataRead, r;
      ScannedLineEnd(r);
      ghost var unread := buffer[readPointer..r];
      if writePointer < buffer.Length {
        status := ReadData();
        assert buffer[readPointer..r] == unread;
        if status == Timeout {
          done := queryStarted || patience == 0;
        } else {
          done := status != DataRead;
          if status == EndOfFile {
            if r != readPointer {
              status := UnexpectedEndOfFile;
            } else if requestLines != [] {
              status := RequestRead;
            }
          }
        }
      } else if readPointer > 0 {
        r' := r - readPointer;
        ShiftToStart();
      } else {
        done, status := true, LineTooLong;
      }
    }

    /** Stores the line that ends at `r`, and moves behind it. */
    method TakeLine(r: nat)
      requires Valid() && Scanned(r) && readPointer < r < writePointer && buffer[r] == NEWLINE
      modifies this`readPointer, this`requestLines
      ensures Valid() && Next() == old(Next()) && readPointer == r + 1
    {
      ghost var line, rest := buffer[readPointer..r], From(r + 1);
      ghost var stored := Stored(requestLines, line);
      ghost var next := Split(rest, stored, buffer.Length);
      LineFound(r, line, rest);
      assert Next() == next;
      assert buffer[readPointer..readPointer + (r - readPointer)] == line;
      StoreRequestLine(readPointer, r - readPointer);
      readPointer := r + 1;
      assert requestLines == stored && Unread() == rest;
    }

    /** One turn of the loop that found the end of a line: the end of the request, or one more line of it. */
    method EndOfLine(r: nat) returns (done: bool, status: Status)
      requires Valid() && Scanned(r) && r < writePointer && buffer[r] == NEWLINE
      modifies this`readPointer, this`requestLines
      ensures Valid()
      ensures done ==> status in {EmptyRequest, RequestRead} && Request(status, requestLines, Unread()) == old(Next())
      ensures !done ==> Next() == old(Next()) && readPointer == r + 1
    {
      if readPointer == r {
        LineFound(r, [], From(r + 1));
        readPointer := r + 1;
        return true, if requestLines == [] then EmptyRequest else RequestRead;
      }
      TakeLine(r);
      return false, DataRead;
    }

    /** The loop of `readRequest`. */
    method ReadLines() returns (status: Status)
      requires Valid()
      modifies this, buffer
      ensures Valid()
      ensures !GaveUp(status) ==> Request(status, requestLines, Unread()) == old(Next())
      ensures GaveUp(status) ==> Next() == old(Next())
    {
      var queryStarted, done := false, false;
      var r: nat := readPointer;
      while true
        invariant Valid() && Scanned(r) && Next() == old(Next())
        decreases patience, |pending|, writePointer - readPointer, readPointer
      {
        r := FindLineEnd(r);
        if r == writePointer {
          done, status, r := NeedData(r, queryStarted);
        } else {
          done, status := EndOfLine(r);
          queryStarted := true;
          r := readPointer;
        }
        if done {
          return;
        }
      }
    }

    /**
     Returns the next request of the stream as if the whole stream had been there at once, unless it gives up because
     of a timeout or the end of the program.
     */
    method ReadRequest() returns (status: Status)
      requires Valid()
      modifies this, buffer
      ensures Valid()
      ensures !GaveUp(status) ==> Request(status, requestLines, Unread()) == old(Next())
      ensures !GaveUp(status) ==>
                Request(status, requestLines, Unread()) in
                RequestsIn(old(Unread()), old(requestLines), buffer.Length)
      ensures GaveUp(status) ==> Next() == old(Next())
    {
      SplitIsInStream(Unread(), requestLines, buffer.Length);
      status := ReadLines();
    }

    method NextLine() returns (line: Line)
      requires requestLines != []
      modifies this`requestLines
      ensures [line] + requestLines == old(requestLines)
    {
      line := requestLines[0];
      requestLines := requestLines[1..];
    }

    method TakeLines(n: nat) returns (lines: seq<Line>)
      requires n <= |requestLines|
      modifies this`requestLines
      ensures lines == old(requestLines)[..n] && requestLines == old(requestLines)[n..]
    {
      lines := [];
      for i := 0 to n
        invariant lines == old(requestLines)[..i] && requestLines == old(requestLines)[i..]
      {
        var line := NextLine();
        lines := lines + [line];
      }
    }

    ghost function Remaining(more: bool, handler: Handler): seq<Answered>
      reads `readPointer, `writePointer, `pending, `requestLines, buffer
      requires Valid() && Handles(handler)
    {
      if more then Requests(Unread(), requestLines, buffer.Length, handler) else []
    }

    /** Takes the lines of a request that was read, or some of them. */
    method TakeRequest(handler: Handler, ghost q: Request) returns (answer: Answered, more: bool)
      requires Valid() && Handles(handler)
      requires q == Request(RequestRead, requestLines, Unread()) && requestLines != []
      modifies this`requestLines
      ensures Valid() && Unread() == q.rest && |requestLines| < |q.lines|
      ensures answer == Answered(RequestRead, q.lines[..Handled(handler, q.lines).taken])
      ensures Remaining(more, handler) == Later(q, buffer.Length, handler)
    {
      var handling := Handled(handler, requestLines);
      var lines := TakeLines(handling.taken);
      answer, more := Answered(RequestRead, lines), handling.keepAlive;
    }

    /** Store::answerRequest: reads one request and takes its lines, or some of them. */
    method AnswerRequest(handler: Handler) returns (answer: Answered, more: bool)
      requires Valid() && Handles(handler)
      modifies this, buffer
      ensures Valid()
      ensures !GaveUp(answer.status) ==> old(Remaining(true, handler)) == [answer] + Remaining(more, handler)
      ensures more ==>
                |Unread()| < old(|Unread()|) ||
                (|Unread()| == old(|Unread()|) && |requestLines| < old(|requestLines|))
      ensures GaveUp(answer.status) ==> !more
    {
      ghost var q, all := Next(), Remaining(true, handler);
      FirstAnswer(Unread(), requestLines, buffer.Length, handler, q);
      ghost var later := Later(q, buffer.Length, handler);
      assert q.status == RequestRead ==>
          all == [Answered(RequestRead, q.lines[..Handled(handler, q.lines).taken])] + later;
      var status := ReadRequest();
      if status != RequestRead {
        return Answered(status, []), false;
      }
      answer, more := TakeRequest(handler, q);
      assert all == [answer] + later && Remaining(more, handler) == later;
    }

    /** A connection: the requests and their lines do not depend on how the stream arrived. */
    method ServeConnection(handler: Handler) returns (answered: seq<Answered>, gaveUp: bool)
      requires Valid() && Handles(handler)
      modifies this, buffer
      ensures !gaveUp ==> answered == old(Requests(Unread(), requestLines, buffer.Length, handler))
      ensures !gaveUp ==> AreAnswers(answered, old(Unread()), old(requestLines), buffer.Length, handler)
      ensures gaveUp ==> answered <= old(Requests(Unread(), requestLines, buffer.Length, handler))
    {
      RequestsAreAnswers(Unread(), requestLines, buffer.Length, handler);
      answered, gaveUp := [], false;
      ghost var all, rest := Remaining(true, handler), Remaining(true, handler);
      var more := true;
      while more
        invariant Valid()
        invariant rest == Remaining(more, handler) && Continued(answered, rest, all)
        decreases more, |Unread()|, |requestLines|
      {
        var answer;
        answer, more := AnswerRequest(handler);
        if GaveUp(answer.status) {
          gaveUp := true;
          return;
        }
        ContinuedNext(answered, rest, answer, Remaining(more, handler), all);
        rest := Remaining(more, handler);
        answered := answered + [answer];
      }
    }
  }

  /** The requests answered so far, and those that are left. */
  ghost predicate Continued(answered: seq<Answered>, rest: seq<Answered>, all: seq<Answered>) {
    answered + rest == all
  }

  lemma ContinuedNext(
      answered: seq<Answered>, rest: seq<Answered>, answer: Answered, left: seq<Answered>, all: seq<Answered>)
    requires Continued(answered, rest, all) && rest == [answer] + left
    ensures Continued(answered + [answer], left, all)
  {
    Associative(answered, [answer], left);
  }
}
