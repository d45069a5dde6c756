/** Log lines, log entries and their key order (src/LogEntry.h, src/Logfile.cc). */
module LogEntries {
  import opened Basics
  import opened Filters

  /** Ten digits in brackets at the start of a line; the key keeps 32 bits of it. */
  type Timestamp = t: int | 0 <= t < 0x1_0000_0000

  type LogClass = c: int | 0 <= c < 16

  /** One line of a log file, as the parser classifies it. */
  datatype Line = InvalidLine | ValidLine(time: Timestamp, logclass: LogClass, columns: Row)

  datatype LogEntry = LogEntry(time: Timestamp, lineno: nat, logclass: LogClass, columns: Row) {
    /** The columns of the log table: time, lineno and class belong to the entry itself. */
    function AsRow(): Row {
      Row(name => if name == "class" then logclass else if name == "lineno" then lineno else columns.ints(name),
          name => if name == "time" then time else columns.times(name),
          columns.matches)
    }
  }

  /** Logfile::makeKey: 32 bits of time, then 32 bits of line number. */
  function MakeKey(time: int, lineno: nat): nat {
    time % 0x1_0000_0000 * 0x1_0000_0000 + lineno % 0x1_0000_0000
  }

  function Key(e: LogEntry): nat {
    MakeKey(e.time, e.lineno)
  }

  predicate Ascending(entries: seq<LogEntry>) {
    forall i, j | 0 <= i < j < |entries| :: Key(entries[i]) < Key(entries[j])
  }

  /** The entry of line i (counted from 1) of a file. */
  function EntryAt(content: seq<Line>, i: nat): LogEntry
    requires 1 <= i <= |content| && content[i - 1].ValidLine?
  {
    LogEntry(content[i - 1].time, i, content[i - 1].logclass, content[i - 1].columns)
  }

  /** The entry stands for one of the first `upto` lines of the file. */
  ghost predicate IsLineOf(content: seq<Line>, upto: nat, e: LogEntry) {
    1 <= e.lineno <= upto <= |content| && content[e.lineno - 1].ValidLine? && e == EntryAt(content, e.lineno)
  }

  /** The entry has the number, the time, the class and the columns of its line. */
  lemma LineOfEntry(content: seq<Line>, upto: nat, e: LogEntry)
    ensures IsLineOf(content, upto, e) <==>
            1 <= e.lineno <= upto <= |content| && content[e.lineno - 1] == ValidLine(e.time, e.logclass, e.columns)
    ensures e.AsRow().ints("class") == e.logclass && e.AsRow().ints("lineno") == e.lineno
    ensures e.AsRow().times("time") == e.time && e.AsRow().matches == e.columns.matches
    ensures forall name | name != "class" && name != "lineno" :: e.AsRow().ints(name) == e.columns.ints(name)
  {
    if 1 <= e.lineno <= upto <= |content| && content[e.lineno - 1] == ValidLine(e.time, e.logclass, e.columns) {
      assert e == EntryAt(content, e.lineno);
    }
  }

  lemma KeyOrder(a: LogEntry, b: LogEntry)
    requires a.lineno < 0x1_0000_0000 && b.lineno < 0x1_0000_0000
    ensures Key(a) < Key(b) <==> a.time < b.time || (a.time == b.time && a.lineno < b.lineno)
    ensures Key(a) == Key(b) <==> a.time == b.time && a.lineno == b.lineno
  {
  }

  /** `std::map::insert` for a key that is not there yet. */
  function Inserted(entries: seq<LogEntry>, e: LogEntry): seq<LogEntry> {
    if entries == [] || Key(entries[|entries| - 1]) < Key(e) then entries + [e]
    else Inserted(entries[..|entries| - 1], e) + [entries[|entries| - 1]]
  }

  lemma {:induction false} InsertedElements(entries: seq<LogEntry>, e: LogEntry)
    ensures |Inserted(entries, e)| == |entries| + 1
    ensures forall x :: x in Inserted(entries, e) <==> x == e || x in entries
  {
    if entries != [] && Key(entries[|entries| - 1]) >= Key(e) {
      InsertedElements(entries[..|entries| - 1], e);
      assert entries == entries[..|entries| - 1] + [entries[|entries| - 1]];
    }
  }

  lemma {:induction false} InsertedAscending(entries: seq<LogEntry>, e: LogEntry)
    requires Ascending(entries) && forall x | x in entries :: Key(x) != Key(e)
    ensures Ascending(Inserted(entries, e))
  {
    if entries != [] && Key(entries[|entries| - 1]) > Key(e) {
      var last, rest := entries[|entries| - 1], entries[..|entries| - 1];
      InsertedAscending(rest, e);
      InsertedElements(rest, e);
      var t := Inserted(rest, e);
      forall i | 0 <= i < |t|
        ensures Key(t[i]) < Key(last)
      {
        assert t[i] in t;
      }
    }
  }

  /** All entries of the first `upto` lines of a file in key order. */
  function AllEntries(content: seq<Line>, upto: nat): seq<LogEntry>
    requires upto <= |content|
  {
    if upto == 0 then []
    else
      var before := AllEntries(content, upto - 1);
      if content[upto - 1].ValidLine? then Inserted(before, EntryAt(content, upto)) else before
  }

  lemma {:induction false} AllEntriesElements(content: seq<Line>, upto: nat)
    requires upto <= |content| && upto < 0x1_0000_0000
    ensures Ascending(AllEntries(content, upto))
    ensures forall e :: e in AllEntries(content, upto) <==> IsLineOf(content, upto, e)
  {
    if upto > 0 {
      AllEntriesElements(content, upto - 1);
      var before := AllEntries(content, upto - 1);
      if content[upto - 1].ValidLine? {
        var e := EntryAt(content, upto);
        forall x | x in before
          ensures Key(x) != Key(e)
        {
          KeyOrder(x, e);
        }
        InsertedElements(before, e);
        InsertedAscending(before, e);
      }
      forall e
        ensures IsLineOf(content, upto, e) <==>
                IsLineOf(content, upto - 1, e) || (content[upto - 1].ValidLine? && e == EntryAt(content, upto))
      {
      }
    }
  }

  lemma LastIsGreatest(entries: seq<LogEntry>, e: LogEntry)
    requires Ascending(entries) && e in entries
    ensures var last := entries[|entries| - 1];
            Key(e) <= Key(last) && (Key(e) == Key(last) ==> e == last)
  {
  }

  lemma AllButLast(entries: seq<LogEntry>, e: LogEntry)
    requires Ascending(entries) && entries != []
    ensures e in entries[..|entries| - 1] <==> e in entries && e != entries[|entries| - 1]
  {
    assert entries == entries[..|entries| - 1] + [entries[|entries| - 1]];
  }

  /** Two ascending sequences with the same elements are equal. */
  lemma {:induction false} SameAscending(a: seq<LogEntry>, b: seq<LogEntry>)
    requires Ascending(a) && Ascending(b) && forall e :: e in a <==> e in b
    ensures a == b
    decreases |a|
  {
    assert b != [] ==> b[0] in b;
    if a != [] {
      var x := a[|a| - 1];
      assert x in a && x in b;
      var y := b[|b| - 1];
      assert y in b && y in a;
      LastIsGreatest(a, y);
      LastIsGreatest(b, x);
      var a', b' := a[..|a| - 1], b[..|b| - 1];
      forall e
        ensures e in a' <==> e in b'
      {
        AllButLast(a, e);
        AllButLast(b, e);
      }
      SameAscending(a', b');
    }
  }

  /** Distinct line numbers from 1..n are at most n. */
  lemma {:induction false} AtMost(entries: seq<LogEntry>, n: nat)
    requires forall i | 0 <= i < |entries| :: 1 <= entries[i].lineno <= n
    requires forall i, j | 0 <= i < j < |entries| :: entries[i].lineno != entries[j].lineno
    ensures |entries| <= n
    decreases n
  {
    if entries != [] {
      assert 1 <= entries[0].lineno <= n;
      if k :| 0 <= k < |entries| && entries[k].lineno == n {
        AtMost(entries[..k] + entries[k + 1..], n - 1);
      } else {
        AtMost(entries, n - 1);
      }
    }
  }

  lemma LinesAreBounded(content: seq<Line>, upto: nat, entries: seq<LogEntry>)
    requires upto < 0x1_0000_0000 && Ascending(entries) && forall e | e in entries :: IsLineOf(content, upto, e)
    ensures |entries| <= upto
  {
    forall i, j | 0 <= i < j < |entries|
      ensures entries[i].lineno != entries[j].lineno
    {
      assert entries[i] in entries && entries[j] in entries;
    }
    forall i | 0 <= i < |entries|
      ensures 1 <= entries[i].lineno <= upto
    {
      assert entries[i] in entries;
    }
    AtMost(entries, upto);
  }

  lemma {:induction false} FilteredAscending(accepts: LogEntry -> bool, rows: seq<LogEntry>)
    requires Ascending(rows)
    ensures Ascending(Filtered(accepts, rows))
  {
    if rows != [] {
      var before, last := rows[..|rows| - 1], rows[|rows| - 1];
      FilteredAscending(accepts, before);
      FilteredElements(accepts, before);
      var t := Filtered(accepts, before);
      forall i | 0 <= i < |t|
        ensures Key(t[i]) < Key(last)
      {
        assert t[i] in t;
      }
    }
  }
}
