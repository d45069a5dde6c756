/** One log file with its cached entries (src/Logfile.h). */
module Logfiles {
  import opened Basics
  import opened LogEntries

  /**
   `watch` marks the current log file, the only one that grows; `since` and `lastTime` are the times of the first and
   (0 if unknown) of the last line; `content` is the file on disk.
   */
  datatype Logfile = Logfile(watch: bool, since: Timestamp, lastTime: Timestamp, content: seq<Line>,
                             readPos: nat, lineno: nat, entries: seq<LogEntry>, classesRead: set<nat>)

  function OfClasses(entries: seq<LogEntry>, classes: set<nat>): seq<LogEntry> {
    Filtered((e: LogEntry) => e.logclass in classes, entries)
  }

  /** Logfile::flush. */
  function Flushed(f: Logfile): Logfile {
    f.(entries := [], classesRead := {})
  }

  /** Logfile::freeMessages for all classes but these. */
  function Freed(f: Logfile, keep: set<nat>): Logfile {
    f.(entries := OfClasses(f.entries, keep), classesRead := f.classesRead * keep)
  }

  /** The number of lines of the file that are ever looked at. */
  function Readable(f: Logfile, maxLines: nat): nat {
    if |f.content| <= maxLines then |f.content| else maxLines
  }

  /** All lines of this class among the first `upto` lines are cached. */
  ghost predicate Complete(f: Logfile, c: nat, upto: nat) {
    upto <= |f.content| &&
    forall i | 1 <= i <= upto && f.content[i - 1].ValidLine? && f.content[i - 1].logclass == c ::
      EntryAt(f.content, i) in f.entries
  }

  ghost predicate AllComplete(f: Logfile, classes: set<nat>, upto: nat) {
    forall c | c in classes :: Complete(f, c, upto)
  }

  /**
   Every cached entry, of whatever class, is an entry of the file. Holds at all
   times, even while the file is loaded.
   */
  ghost predicate Valid(f: Logfile, maxLines: nat) {
    && maxLines < 0x1_0000_0000
    && f.lineno <= Readable(f, maxLines) && f.readPos <= |f.content|
    && Ascending(f.entries)
    && forall e | e in f.entries :: IsLineOf(f.content, Readable(f, maxLines), e)
  }

  /** Between two loads the read position and the line number agree, and an old file has been read to its end. */
  ghost predicate Positioned(f: Logfile, maxLines: nat) {
    && (!f.watch && f.classesRead != {} ==> f.lineno == Readable(f, maxLines))
    && (f.watch && f.lineno < maxLines && f.classesRead != {} ==> f.readPos == f.lineno)
  }

  /** Coherence: each class that counts as read is cached completely up to the read position and the line cap. */
  ghost predicate Coherent(f: Logfile, maxLines: nat) {
    AllComplete(f, f.classesRead, f.lineno) && Positioned(f, maxLines)
  }

  /** Nothing but cached entries has been lost, and none of the query's classes. */
  ghost predicate KeepsClasses(before: Logfile, after: Logfile, logclasses: set<nat>) {
    after == before || after == Freed(before, logclasses)
  }

  lemma OfClassesElements(entries: seq<LogEntry>, classes: set<nat>)
    ensures forall e :: e in OfClasses(entries, classes) <==> e in entries && e.logclass in classes
    ensures |OfClasses(entries, classes)| <= |entries|
  {
    FilteredElements((e: LogEntry) => e.logclass in classes, entries);
  }

  lemma OfClassesAscending(entries: seq<LogEntry>, classes: set<nat>)
    requires Ascending(entries)
    ensures Ascending(OfClasses(entries, classes))
  {
    FilteredAscending((e: LogEntry) => e.logclass in classes, entries);
  }

  /** A flushed file is coherent, whatever it was before. */
  lemma FlushedIsCoherent(f: Logfile, maxLines: nat)
    requires Valid(f, maxLines)
    ensures Valid(Flushed(f), maxLines) && Coherent(Flushed(f), maxLines)
  {
  }

  lemma FreedStaysValid(f: Logfile, maxLines: nat, keep: set<nat>)
    requires Valid(f, maxLines)
    ensures Valid(Freed(f, keep), maxLines)
    ensures forall classes, upto | classes <= keep && AllComplete(f, classes, upto) ::
              AllComplete(Freed(f, keep), classes, upto)
  {
    OfClassesElements(f.entries, keep);
    OfClassesAscending(f.entries, keep);
  }

  lemma FreedStaysCoherent(f: Logfile, maxLines: nat, keep: set<nat>)
    requires Valid(f, maxLines) && Coherent(f, maxLines)
    ensures Coherent(Freed(f, keep), maxLines)
  {
    FreedStaysValid(f, maxLines, keep);
    assert AllComplete(f, f.classesRead * keep, f.lineno);
  }

  /** The monitoring core appends lines to the current file. */
  function Grown(f: Logfile, lines: seq<Line>): Logfile {
    f.(content := f.content + lines)
  }

  lemma GrownStaysCoherent(f: Logfile, maxLines: nat, lines: seq<Line>)
    requires f.watch && Valid(f, maxLines)
    ensures Coherent(f, maxLines) ==> Coherent(Grown(f, lines), maxLines)
  {
    forall i | 1 <= i <= |f.content| && f.content[i - 1].ValidLine?
      ensures EntryAt(Grown(f, lines).content, i) == EntryAt(f.content, i)
    {
    }
  }

  /** Growth neither changes what is cached nor what is complete. */
  lemma GrownStaysValid(f: Logfile, maxLines: nat, lines: seq<Line>)
    requires Valid(f, maxLines)
    ensures Valid(Grown(f, lines), maxLines)
    ensures forall classes, upto | AllComplete(f, classes, upto) :: AllComplete(Grown(f, lines), classes, upto)
  {
    forall i | 1 <= i <= |f.content| && f.content[i - 1].ValidLine?
      ensures EntryAt(Grown(f, lines).content, i) == EntryAt(f.content, i)
    {
    }
  }

  lemma EntriesAreBounded(f: Logfile, maxLines: nat)
    requires Valid(f, maxLines)
    ensures |f.entries| <= maxLines
  {
    LinesAreBounded(f.content, Readable(f, maxLines), f.entries);
  }

  predicate HasKey(entries: seq<LogEntry>, key: nat) {
    exists i :: 0 <= i < |entries| && Key(entries[i]) == key
  }

  /** Logfile::processLogLine: caches line number `lineno` if it is of one of the wanted classes and not there yet. */
  function Processed(f: Logfile, types: set<nat>): Logfile
    requires 1 <= f.lineno <= |f.content|
  {
    var line := f.content[f.lineno - 1];
    if line.InvalidLine? || line.logclass !in types then f
    else
      var e := EntryAt(f.content, f.lineno);
      if HasKey(f.entries, Key(e)) then f else f.(entries := Inserted(f.entries, e))
  }

  lemma ProcessedAdds(f: Logfile, types: set<nat>)
    requires 1 <= f.lineno <= |f.content|
    ensures forall e | e in Processed(f, types).entries ::
              e in f.entries || (e.logclass in types && e.lineno == f.lineno)
  {
    var line := f.content[f.lineno - 1];
    if line.ValidLine? && line.logclass in types && !HasKey(f.entries, Key(EntryAt(f.content, f.lineno))) {
      InsertedElements(f.entries, EntryAt(f.content, f.lineno));
    }
  }

  lemma ProcessedStaysValid(f: Logfile, types: set<nat>, maxLines: nat)
    requires Valid(f, maxLines) && 1 <= f.lineno <= |f.content|
    ensures Valid(Processed(f, types), maxLines)
    ensures forall e | e in f.entries :: e in Processed(f, types).entries
    ensures forall e | e in Processed(f, types).entries :: e in f.entries || e.logclass in types
    ensures var line := f.content[f.lineno - 1];
            line.ValidLine? && line.logclass in types ==> EntryAt(f.content, f.lineno) in Processed(f, types).entries
    ensures |Processed(f, types).entries| == |f.entries| || |Processed(f, types).entries| == |f.entries| + 1
  {
    var line := f.content[f.lineno - 1];
    if line.ValidLine? && line.logclass in types {
      var e := EntryAt(f.content, f.lineno);
      if i :| 0 <= i < |f.entries| && Key(f.entries[i]) == Key(e) {
        assert f.entries[i] in f.entries;
        KeyOrder(f.entries[i], e);
      } else {
        forall x | x in f.entries
          ensures Key(x) != Key(e)
        {
        }
        InsertedElements(f.entries, e);
        InsertedAscending(f.entries, e);
      }
    }
  }
}
