/** Loading log files into the cache, with evictions in mid-load (src/Logfile.cc, src/LogCache.cc). */
module LogCaches {
  import opened LogEntries
  import opened Logfiles
  import opened Eviction

  const CHECK_MEM_CYCLE := 10000

  function Greatest(a: int, b: int): int {
    if a >= b then a else b
  }

  ghost predicate AllValid(files: seq<Logfile>, maxLines: nat) {
    forall i | 0 <= i < |files| :: Valid(files[i], maxLines)
  }

  ghost predicate OthersPositioned(files: seq<Logfile>, cur: nat, maxLines: nat) {
    forall i | 0 <= i < |files| && i != cur :: Positioned(files[i], maxLines)
  }

  ghost predicate AllCoherent(files: seq<Logfile>, maxLines: nat) {
    forall i | 0 <= i < |files| :: Coherent(files[i], maxLines)
  }

  /** Each file but `cur` that was coherent still is. */
  ghost predicate OthersStayCoherent(files: seq<Logfile>, cur: nat, now: seq<Logfile>, maxLines: nat) {
    |now| == |files| &&
    forall i | 0 <= i < |files| && i != cur && Coherent(files[i], maxLines) :: Coherent(now[i], maxLines)
  }

  lemma StayCoherentTransitive(a: seq<Logfile>, cur: nat, b: seq<Logfile>, c: seq<Logfile>, maxLines: nat)
    requires OthersStayCoherent(a, cur, b, maxLines)
    requires OthersStayCoherent(b, |b|, c, maxLines) || OthersStayCoherent(b, cur, c, maxLines)
    ensures OthersStayCoherent(a, cur, c, maxLines)
  {
  }

  /** Only what is cached differs between the two states of the file. */
  predicate SameFile(f: Logfile, g: Logfile) {
    f.watch == g.watch && f.since == g.since && f.lastTime == g.lastTime && |f.content| == |g.content|
  }

  ghost predicate SameDisk(files: seq<Logfile>, now: seq<Logfile>) {
    |now| == |files| &&
    forall i | 0 <= i < |files| :: SameFile(files[i], now[i]) && now[i].content == files[i].content
  }

  /** Meanwhile the monitoring core has appended lines to file `cur`. */
  ghost predicate GrownDisk(files: seq<Logfile>, cur: nat, appended: seq<Line>, now: seq<Logfile>)
    requires cur < |files|
  {
    SameDisk(files[cur := Grown(files[cur], appended)], now)
  }

  lemma NothingAppended(files: seq<Logfile>, cur: nat)
    requires cur < |files|
    ensures GrownDisk(files, cur, [], files)
    ensures forall now :: GrownDisk(files, cur, [], now) <==> SameDisk(files, now)
  {
    assert Grown(files[cur], []) == files[cur];
    assert files[cur := files[cur]] == files;
  }

  lemma AppendedMore(files: seq<Logfile>, cur: nat, appended: seq<Line>, now: seq<Logfile>, lines: seq<Line>)
    requires cur < |files| && GrownDisk(files, cur, appended, now)
    ensures GrownDisk(files, cur, appended + lines, now[cur := Grown(now[cur], lines)])
  {
    assert files[cur].content + (appended + lines) == files[cur].content + appended + lines;
  }

  lemma SameDiskTransitive(a: seq<Logfile>, b: seq<Logfile>, c: seq<Logfile>)
    requires SameDisk(a, b) && SameDisk(b, c)
    ensures SameDisk(a, c)
  {
  }

  /** The global counter is exact, and bounded by what the last check left. */
  ghost predicate Accounted(files: seq<Logfile>, num: int, last: int, maxCached: nat, maxLines: nat) {
    && num == Total(files)
    && last <= Greatest(maxCached, maxLines)
    && (num <= maxCached || num < last + CHECK_MEM_CYCLE)
  }

  /** The bound on the memory: the counter stays below the larger of the two limits plus one check cycle. */
  lemma MemoryBound(files: seq<Logfile>, num: int, last: int, maxCached: nat, maxLines: nat)
    requires Accounted(files, num, last, maxCached, maxLines)
    ensures Total(files) < maxCached + 10000 || Total(files) < maxLines + 10000
  {
  }

  lemma FileAfterSweep(f: Logfile, g: Logfile, maxLines: nat, logclasses: set<nat>)
    requires Valid(f, maxLines) && (g == f || g == Flushed(f) || g == Freed(f, logclasses))
    ensures Valid(g, maxLines) && SameFile(f, g) && g.content == f.content
    ensures Positioned(f, maxLines) ==> Positioned(g, maxLines)
    ensures Coherent(f, maxLines) || g == Flushed(f) ==> Coherent(g, maxLines)
  {
    FlushedIsCoherent(f, maxLines);
    FreedStaysValid(f, maxLines, logclasses);
    if Coherent(f, maxLines) {
      FreedStaysCoherent(f, maxLines, logclasses);
    }
  }

  /**
   A sweep keeps what holds at all times: validity, the exact counter and its bound. It keeps each file coherent that
   was, and the query's classes of the current file.
   */
  lemma SweepKeepsInvariants(files: seq<Logfile>, cur: nat, maxCached: nat, maxLines: nat, logclasses: set<nat>)
    requires cur < |files| && AllValid(files, maxLines)
    ensures var s := Sweep(files, Total(files), cur, maxCached, logclasses);
            && SameDisk(files, s.files) && AllValid(s.files, maxLines)
            && Accounted(s.files, s.num, s.num, maxCached, maxLines)
            && KeepsClasses(files[cur], s.files[cur], logclasses)
            && (OthersPositioned(files, cur, maxLines) ==> OthersPositioned(s.files, cur, maxLines))
            && OthersStayCoherent(files, |files|, s.files, maxLines)
  {
    var s := Sweep(files, Total(files), cur, maxCached, logclasses);
    SweepOutcome(files, Total(files), cur, maxCached, logclasses);
    SweepAccounting(files, Total(files), cur, maxCached, logclasses);
    SweepBound(files, Total(files), cur, maxCached, logclasses);
    forall i | 0 <= i < |files|
      ensures Valid(s.files[i], maxLines) && SameFile(files[i], s.files[i]) && s.files[i].content == files[i].content
      ensures Positioned(files[i], maxLines) ==> Positioned(s.files[i], maxLines)
      ensures Coherent(files[i], maxLines) ==> Coherent(s.files[i], maxLines)
    {
      FileAfterSweep(files[i], s.files[i], maxLines, logclasses);
    }
    EntriesAreBounded(s.files[cur], maxLines);
  }

  /** The lines of these classes behind line `from` and up to the current line are cached. */
  ghost predicate CachedFrom(f: Logfile, classes: set<nat>, from: nat) {
    f.lineno <= |f.content| &&
    forall i | from < i <= f.lineno && f.content[i - 1].ValidLine? && f.content[i - 1].logclass in classes ::
      EntryAt(f.content, i) in f.entries
  }

  /**
   While the file is loaded from state f0 for a query: of the lines read so far, those of the classes being loaded are
   cached unless the eviction has dropped the class, which it does only to classes outside the query; nothing else has
   been cached, and no entry of a class that still counts as read is gone. Meanwhile the file may have grown.
   */
  ghost predicate LoadProgress(f0: Logfile, f: Logfile, types: set<nat>, logclasses: set<nat>) {
    && f.watch == f0.watch && f0.content <= f.content && f0.lineno <= f.lineno
    && f.classesRead <= f0.classesRead && f0.classesRead * logclasses <= f.classesRead
    && (forall e | e in f.entries :: e in f0.entries || (e.logclass in types && f0.lineno < e.lineno))
    && (forall e | e in f0.entries && e.logclass in f.classesRead :: e in f.entries)
    && CachedFrom(f, types * (logclasses + f.classesRead), f0.lineno)
  }

  lemma LineLoaded(f0: Logfile, f: Logfile, next: Logfile, types: set<nat>, logclasses: set<nat>, maxLines: nat)
    requires Valid(f, maxLines) && LoadProgress(f0, f, types, logclasses) && f.lineno < Readable(f, maxLines)
    requires next == Processed(f.(lineno := f.lineno + 1), types)
    ensures Valid(next, maxLines) && LoadProgress(f0, next, types, logclasses) && next.lineno == f.lineno + 1
  {
    var n := f.lineno + 1;
    ProcessedStaysValid(f.(lineno := n), types, maxLines);
    ProcessedAdds(f.(lineno := n), types);
    forall i | f0.lineno < i <= n && f.content[i - 1].ValidLine? &&
               f.content[i - 1].logclass in types * (logclasses + f.classesRead)
      ensures EntryAt(f.content, i) in next.entries
    {
      assert i < n ==> EntryAt(f.content, i) in f.entries;
    }
  }

  lemma GrownInMidLoad(f0: Logfile, f: Logfile, types: set<nat>, logclasses: set<nat>, maxLines: nat,
                       lines: seq<Line>)
    requires Valid(f, maxLines) && LoadProgress(f0, f, types, logclasses)
    ensures Valid(Grown(f, lines), maxLines) && LoadProgress(f0, Grown(f, lines), types, logclasses)
  {
    GrownStaysValid(f, maxLines, lines);
    forall i | 1 <= i <= |f.content| && f.content[i - 1].ValidLine?
      ensures EntryAt(Grown(f, lines).content, i) == EntryAt(f.content, i)
    {
    }
  }

  lemma EvictedInMidLoad(f0: Logfile, f: Logfile, f': Logfile, types: set<nat>, logclasses: set<nat>, maxLines: nat)
    requires Valid(f, maxLines) && LoadProgress(f0, f, types, logclasses) && KeepsClasses(f, f', logclasses)
    ensures LoadProgress(f0, f', types, logclasses) && f'.lineno == f.lineno
  {
    if f' == Freed(f, logclasses) {
      OfClassesElements(f.entries, logclasses);
      assert types * (logclasses + f'.classesRead) <= logclasses;
    }
  }

  /** What happens to the cache in a run: loads for queries, growth of the current file, rebuilding after a rotation. */
  datatype Operation =
    | LoadFile(cur: nat, logclasses: set<nat>, first: seq<seq<Line>>, second: seq<seq<Line>>)
    | Growth(cur: nat, lines: seq<Line>)
    | Rebuilding(found: seq<Logfile>)

  function Unread(f: Logfile): Logfile {
    f.(readPos := 0, lineno := 0, entries := [], classesRead := {})
  }

  class LogCache {
    const maxCached: nat
    const maxLines: nat
    /** All log files, oldest first. */
    var files: seq<Logfile>
    /** The global counter num_cached_log_messages. */
    var numCached: int
    var numAtLastCheck: int

    /** What holds at all times, also while file `cur` is being loaded. */
    ghost predicate Loading(cur: nat)
      reads this
    {
      && maxLines < 0x1_0000_0000 && AllValid(files, maxLines) && OthersPositioned(files, cur, maxLines)
      && Accounted(files, numCached, numAtLastCheck, maxCached, maxLines)
    }

    /** What holds between two operations, in every run. */
    ghost predicate Sound()
      reads this
    {
      Loading(|files|)
    }

    /** What holds as long as no line has been lost: every file is coherent. */
    ghost predicate Settled()
      reads this
    {
      Sound() && AllCoherent(files, maxLines)
    }

    constructor (maxCached: nat, maxLines: nat, files: seq<Logfile>)
      requires maxLines < 0x1_0000_0000
      requires forall f | f in files :: f.readPos == f.lineno == 0 && f.entries == [] && f.classesRead == {}
      ensures Settled() && this.files == files && this.maxCached == maxCached && this.maxLines == maxLines
    {
      this.maxCached, this.maxLines, this.files := maxCached, maxLines, files;
      numCached, numAtLastCheck := 0, 0;
      TotalOfNone(files);
    }

    /** Drops the whole index; the files found afterwards start without cached entries. No loss outlives this. */
    method ForgetLogfiles(found: seq<Logfile>)
      requires Sound()
      requires forall f | f in found :: f.readPos == f.lineno == 0 && f.entries == [] && f.classesRead == {}
      modifies this
      ensures Settled() && files == found && numCached == 0 && numAtLastCheck == old(numAtLastCheck)
    {
      files := found;
      numCached := 0;
      TotalOfNone(files);
    }

    /** The monitoring core appends lines to the current log file. */
    method GrowCurrent(i: nat, lines: seq<Line>)
      requires Sound() && i < |files| && files[i].watch
      modifies `files
      ensures Sound() && files == old(files)[i := Grown(old(files)[i], lines)]
      ensures OthersStayCoherent(old(files), |files|, files, maxLines)
    {
      GrownStaysCoherent(files[i], maxLines, lines);
      Append(i, lines);
    }

    /** Lines arrive, also while the file is being loaded. */
    method Append(cur: nat, lines: seq<Line>)
      requires Loading(cur) && cur < |files|
      modifies `files
      ensures Loading(cur) && files == old(files)[cur := Grown(old(files)[cur], lines)]
    {
      GrownStaysValid(files[cur], maxLines, lines);
      TotalUpdate(files, cur, Grown(files[cur], lines));
      files := files[cur := Grown(files[cur], lines)];
    }

    /** Lines arrive after others have. */
    method AppendMore(cur: nat, lines: seq<Line>, ghost before: seq<Logfile>, ghost appended: seq<Line>)
      returns (ghost all: seq<Line>)
      requires Loading(cur) && cur < |files| && |before| == |files| && GrownDisk(before, cur, appended, files)
      requires OthersStayCoherent(before, cur, files, maxLines)
      modifies `files
      ensures Loading(cur) && files == old(files)[cur := Grown(old(files)[cur], lines)]
      ensures all == appended + lines && GrownDisk(before, cur, all, files)
      ensures OthersStayCoherent(before, cur, files, maxLines)
    {
      AppendedMore(before, cur, appended, files, lines);
      Append(cur, lines);
      all := appended + lines;
    }

    /** Changes the counters of a file that is being loaded, not its entries. */
    method Update(cur: nat, f: Logfile)
      requires Loading(cur) && cur < |files| && Valid(f, maxLines)
      requires SameFile(files[cur], f) && f.content == files[cur].content && f.entries == files[cur].entries
      modifies `files
      ensures Loading(cur) && files == old(files)[cur := f] && SameDisk(old(files), files)
      ensures Positioned(f, maxLines) ==> Sound()
    {
      TotalUpdate(files, cur, f);
      files := files[cur := f];
    }

    /** Flushes files from `from` on up to `end`, or until few enough entries are left. */
    method FlushFiles(from: nat, end: nat) returns (done: bool)
      requires from <= end <= |files|
      modifies this
      ensures Swept(files, numCached, done) == FlushRange(old(files), old(numCached), from, end, maxCached)
      ensures numAtLastCheck == if done then numCached else old(numAtLastCheck)
    {
      ghost var target := FlushRange(files, numCached, from, end, maxCached);
      var i := from;
      while i < end
        invariant from <= i <= end && FlushesTo(files, numCached, i, end, maxCached, target)
        invariant numAtLastCheck == old(numAtLastCheck)
      {
        FlushStep(files, numCached, i, end, maxCached, target);
        if |files[i].entries| > 0 {
          numCached := numCached - |files[i].entries|;
          files := files[i := Flushed(files[i])];
          if numCached <= maxCached {
            numAtLastCheck := numCached;
            return true;
          }
        }
        i := i + 1;
      }
      done := false;
    }

    /** Logfile::freeMessages: erases the entries of all classes but `keep` and returns how many there were. */
    method FreeMessages(n: nat, keep: set<nat>) returns (freed: nat)
      requires n < |files|
      modifies `files
      ensures files == old(files)[n := Freed(old(files)[n], keep)]
      ensures freed == |old(files)[n].entries| - |files[n].entries|
    {
      freed := 0;
      var i, entries := 0, files[n].entries;
      ghost var all := entries;
      while i < |entries|
        invariant i <= |entries| && i + freed <= |all| && |entries| == |all| - freed
        invariant entries[i..] == all[i + freed..] && entries[..i] == OfClasses(all[..i + freed], keep)
        decreases |entries| - i
      {
        ghost var at := i + freed;
        assert all[..at + 1][..at] == all[..at];
        assert entries[i] == all[at];
        if entries[i].logclass !in keep {
          entries := entries[..i] + entries[i + 1..];
          freed := freed + 1;
        } else {
          assert entries[..i + 1] == entries[..i] + [entries[i]];
          i := i + 1;
        }
      }
      assert entries[..i] == entries && all[..i + freed] == all;
      files := files[n := files[n].(entries := entries, classesRead := files[n].classesRead * keep)];
    }

    /** Drops the classes that the query does not need from the files `from` on, until few enough entries are left. */
    method FreeFiles(from: nat, keep: set<nat>) returns (done: bool)
      requires from <= |files|
      modifies this
      ensures Swept(files, numCached, done) == FreeRange(old(files), old(numCached), from, maxCached, keep)
      ensures numAtLastCheck == if done then numCached else old(numAtLastCheck)
    {
      ghost var target := FreeRange(files, numCached, from, maxCached, keep);
      var i := from;
      while i < |files|
        invariant from <= i <= |files| && FreesTo(files, numCached, i, maxCached, keep, target)
        invariant numAtLastCheck == old(numAtLastCheck)
      {
        FreeStep(files, numCached, i, maxCached, keep, target);
        if |files[i].entries| > 0 && !(files[i].classesRead <= keep) {
          var freed := FreeMessages(i, keep);
          numCached := numCached - freed;
          if numCached <= maxCached {
            numAtLastCheck := numCached;
            return true;
          }
        }
        i := i + 1;
      }
      done := false;
    }

    /** The three phases of the eviction for a query that reads file `cur`. */
    method SweepFiles(cur: nat, logclasses: set<nat>)
      requires cur < |files|
      modifies this
      ensures var s := Sweep(old(files), old(numCached), cur, maxCached, logclasses);
              files == s.files && numCached == s.num == numAtLastCheck
    {
      FlushRangeShape(files, numCached, 0, cur, maxCached);
      var done := FlushFiles(0, cur);
      if done {
        return;
      }
      FreeRangeShape(files, numCached, cur, maxCached, logclasses);
      done := FreeFiles(cur, logclasses);
      if done {
        return;
      }
      done := FlushFiles(cur + 1, |files|);
      numAtLastCheck := numCached;
    }

    /** Called for each new entry of file `cur`; `logclasses` are the classes of the query. */
    method HandleNewMessage(cur: nat, logclasses: set<nat>)
      requires maxLines < 0x1_0000_0000 && cur < |files|
      requires AllValid(files, maxLines) && OthersPositioned(files, cur, maxLines)
      requires numCached + 1 == Total(files) && numAtLastCheck <= Greatest(maxCached, maxLines)
      modifies this
      ensures Loading(cur) && SameDisk(old(files), files) && KeepsClasses(old(files)[cur], files[cur], logclasses)
      ensures OthersStayCoherent(old(files), |files|, files, maxLines)
      ensures var num := old(numCached) + 1;
              if num <= maxCached || num < old(numAtLastCheck) + CHECK_MEM_CYCLE then
                files == old(files) && numCached == num && numAtLastCheck == old(numAtLastCheck)
              else
                var s := Sweep(old(files), num, cur, maxCached, logclasses);
                files == s.files && numCached == s.num == numAtLastCheck
    {
      numCached := numCached + 1;
      if numCached <= maxCached {
        return;
      }
      if numCached < numAtLastCheck + CHECK_MEM_CYCLE {
        return;
      }
      SweepKeepsInvariants(files, cur, maxCached, maxLines, logclasses);
      SweepFiles(cur, logclasses);
    }

    /** Logfile::processLogLine for line number `lineno`; false for lines that add nothing. */
    method ProcessLogLine(cur: nat, types: set<nat>) returns (added: bool)
      requires cur < |files| && 1 <= files[cur].lineno <= |files[cur].content|
      modifies `files
      ensures files == old(files)[cur := Processed(old(files)[cur], types)]
      ensures |files[cur].entries| == |old(files)[cur].entries| + if added then 1 else 0
      ensures !added ==> files == old(files)
    {
      var f := files[cur];
      var line := f.content[f.lineno - 1];
      if line.InvalidLine? || line.logclass !in types {
        return false;
      }
      var entry := LogEntry(line.time, f.lineno, line.logclass, line.columns);
      if HasKey(f.entries, Key(entry)) {
        return false;
      }
      InsertedElements(f.entries, entry);
      files := files[cur := f.(entries := Inserted(f.entries, entry))];
      return true;
    }

    /**
     Logfile::loadRange: reads lines from the given position to the end of the file or to the line cap and returns the
     position behind them. `arrivals`: the lines that the monitoring core appends before each read; what comes behind
     the last read is not among `appended`.
     */
    method LoadRange(cur: nat, from: nat, types: set<nat>, logclasses: set<nat>, arrivals: seq<seq<Line>>)
      returns (pos: nat, ghost appended: seq<Line>)
      requires Loading(cur) && cur < |files| && from <= |files[cur].content|
      requires files[cur].lineno < maxLines ==> from == files[cur].lineno
      modifies this
      ensures Loading(cur) && GrownDisk(old(files), cur, appended, files) && Among(appended, arrivals)
      ensures OthersStayCoherent(old(files), cur, files, maxLines)
      ensures pos <= |files[cur].content| && files[cur].lineno == Readable(files[cur], maxLines)
      ensures files[cur].lineno == maxLines || files[cur].lineno == |files[cur].content| <= maxLines
      ensures files[cur].lineno < maxLines ==> pos == files[cur].lineno
      ensures LoadProgress(old(files)[cur], files[cur], types, logclasses)
    {
      ghost var f0 := files[cur];
      var i := 0;
      pos, appended := from, [];
      NothingAppended(files, cur);
      while true
        invariant 0 <= i <= |arrivals| && Among(appended, arrivals)
        invariant Loading(cur) && GrownDisk(old(files), cur, appended, files) && pos <= |files[cur].content|
        invariant OthersStayCoherent(old(files), cur, files, maxLines)
        invariant files[cur].lineno < maxLines ==> pos == files[cur].lineno
        invariant LoadProgress(f0, files[cur], types, logclasses)
        decreases |arrivals| - i, |files[cur].content| - pos
      {
        if i < |arrivals| {
          GrownInMidLoad(f0, files[cur], types, logclasses, maxLines, arrivals[i]);
          appended := AppendMore(cur, arrivals[i], old(files), appended);
          i := i + 1;
        }
        if pos == |files[cur].content| {
          break;
        }
        pos := pos + 1;
        if files[cur].lineno >= maxLines {
          return;
        }
        ghost var now := files;
        LoadLine(cur, types, logclasses, f0);
        SameDiskTransitive(old(files)[cur := Grown(old(files)[cur], appended)], now, files);
        StayCoherentTransitive(old(files), cur, now, files, maxLines);
      }
    }

    /** Counts the next line and caches it. */
    method NextLine(cur: nat, types: set<nat>) returns (added: bool)
      requires Loading(cur) && cur < |files| && files[cur].lineno < Readable(files[cur], maxLines)
      modifies `files
      ensures var f := old(files)[cur]; files == old(files)[cur := Processed(f.(lineno := f.lineno + 1), types)]
      ensures AllValid(files, maxLines) && OthersPositioned(files, cur, maxLines) && SameDisk(old(files), files)
      ensures OthersStayCoherent(old(files), cur, files, maxLines)
      ensures Total(files) == numCached + if added then 1 else 0
    {
      Update(cur, files[cur].(lineno := files[cur].lineno + 1));
      ProcessedStaysValid(files[cur], types, maxLines);
      TotalUpdate(files, cur, Processed(files[cur], types));
      added := ProcessLogLine(cur, types);
    }

    /** Caches the next line, and lets the memory management have a look. */
    method CacheNextLine(cur: nat, types: set<nat>, logclasses: set<nat>)
      requires Loading(cur) && cur < |files| && files[cur].lineno < Readable(files[cur], maxLines)
      modifies this
      ensures Loading(cur) && SameDisk(old(files), files) && OthersStayCoherent(old(files), cur, files, maxLines)
      ensures var f := old(files)[cur];
              KeepsClasses(Processed(f.(lineno := f.lineno + 1), types), files[cur], logclasses)
    {
      var added := NextLine(cur, types);
      if added {
        ghost var cached := files;
        HandleNewMessage(cur, logclasses);
        SameDiskTransitive(old(files), cached, files);
        StayCoherentTransitive(old(files), cur, cached, files, maxLines);
      }
    }

    /** One turn of the loop. */
    method LoadLine(cur: nat, types: set<nat>, logclasses: set<nat>, ghost f0: Logfile)
      requires Loading(cur) && cur < |files| && files[cur].lineno < Readable(files[cur], maxLines)
      requires LoadProgress(f0, files[cur], types, logclasses)
      modifies this
      ensures Loading(cur) && SameDisk(old(files), files) && files[cur].lineno == old(files)[cur].lineno + 1
      ensures OthersStayCoherent(old(files), cur, files, maxLines)
      ensures LoadProgress(f0, files[cur], types, logclasses)
    {
      ghost var next := Processed(files[cur].(lineno := files[cur].lineno + 1), types);
      LineLoaded(f0, files[cur], next, types, logclasses, maxLines);
      CacheNextLine(cur, types, logclasses);
      EvictedInMidLoad(f0, next, files[cur], types, logclasses, maxLines);
    }

    /**
     Logfile::load: makes sure that all lines of the wanted classes are cached. The watched file may grow meanwhile:
     by `news` until the end of the first read, and by `late` until the end of the second one, which rewinds for the
     missing classes. The second read skips the late lines of the other classes, but the position behind them is
     remembered; no later load makes up for it.
     */
    method Load(cur: nat, logclasses: set<nat>, first: seq<seq<Line>>, second: seq<seq<Line>>)
      returns (ghost news: seq<Line>, ghost late: seq<Line>)
      requires Sound() && cur < |files| && (files[cur].watch || first == second == [])
      modifies this
      ensures Sound() && GrownDisk(old(files), cur, news + late, files)
      ensures Among(news, first) && Among(late, second)
      ensures OthersStayCoherent(old(files), cur, files, maxLines)
      ensures logclasses <= files[cur].classesRead <= old(files)[cur].classesRead + logclasses
      ensures AllComplete(files[cur], logclasses - old(files)[cur].classesRead, Readable(files[cur], maxLines))
      ensures LoadedFrom(old(files)[cur], files[cur], logclasses, |old(files)[cur].content| + |news|, maxLines)
      ensures var f0, f := old(files)[cur], files[cur];
              Coherent(f0, maxLines) ==>
                (Coherent(f, maxLines) <==>
                 !Loses(f, logclasses - f0.classesRead, |f0.content| + |news|, maxLines))
      ensures Coherent(files[cur], maxLines) ==> AllComplete(files[cur], logclasses, Readable(files[cur], maxLines))
      ensures logclasses <= old(files)[cur].classesRead ==> late == []
    {
      var missing := logclasses - files[cur].classesRead;
      assert logclasses == missing + files[cur].classesRead * logclasses;
      late := [];
      news := CatchUp(cur, logclasses, first);
      ghost var now := files;
      if missing != {} {
        late := LoadMissing(cur, missing, logclasses, second);
        GrownTwice(old(files), cur, news, now, late, files);
      } else {
        assert news + [] == news;
      }
      LoadedTwice(old(files)[cur], now[cur], files[cur], logclasses, |news|, maxLines);
      LoadedCoherence(old(files)[cur], files[cur], logclasses, |old(files)[cur].content| + |news|, maxLines);
    }

    /** One operation of a run; only the current file grows. */
    method Perform(op: Operation)
      requires Sound()
      modifies this
      ensures Sound()
    {
      match op
      case LoadFile(cur, logclasses, first, second) =>
        if cur < |files| {
          if files[cur].watch {
            var news, late := Load(cur, logclasses, first, second);
          } else {
            var news, late := Load(cur, logclasses, [], []);
          }
        }
      case Growth(cur, lines) =>
        if cur < |files| && files[cur].watch {
          GrowCurrent(cur, lines);
        }
      case Rebuilding(found) =>
        ForgetLogfiles(seq(|found|, i requires 0 <= i < |found| => Unread(found[i])));
    }

    /** Over every run of operations, whether or not lines are lost, the counter is exact and the memory bounded. */
    method PerformAll(run: seq<Operation>)
      requires Sound()
      modifies this
      ensures Sound() && numCached == Total(files)
      ensures Total(files) < maxCached + 10000 || Total(files) < maxLines + 10000
    {
      for i := 0 to |run|
        invariant Sound()
      {
        Perform(run[i]);
      }
      MemoryBound(files, numCached, numAtLastCheck, maxCached, maxLines);
    }

    /** The part of a load that concerns the watched file only. */
    method CatchUp(cur: nat, logclasses: set<nat>, arrivals: seq<seq<Line>>) returns (ghost news: seq<Line>)
      requires Sound() && cur < |files| && (files[cur].watch || arrivals == [])
      modifies this
      ensures Sound() && GrownDisk(old(files), cur, news, files) && Among(news, arrivals)
      ensures OthersStayCoherent(old(files), cur, files, maxLines)
      ensures CaughtUp(old(files)[cur], files[cur], logclasses, maxLines)
    {
      news := [];
      NothingAppended(files, cur);
      if files[cur].watch {
        if files[cur].lineno == 0 {
          Update(cur, files[cur].(readPos := 0));
        }
        if files[cur].classesRead != {} {
          ghost var now := files;
          news := LoadNews(cur, logclasses, arrivals);
          NothingAppended(old(files), cur);
          GrownTwice(old(files), cur, [], now, news, files);
          assert [] + news == news;
        }
      }
    }

    /** Reads on where the last load has stopped, for all classes that have been read. */
    method LoadNews(cur: nat, logclasses: set<nat>, arrivals: seq<seq<Line>>) returns (ghost news: seq<Line>)
      requires Sound() && cur < |files| && files[cur].watch && files[cur].classesRead != {}
      modifies this
      ensures Sound() && GrownDisk(old(files), cur, news, files) && Among(news, arrivals)
      ensures OthersStayCoherent(old(files), cur, files, maxLines)
      ensures CaughtUp(old(files)[cur], files[cur], logclasses, maxLines)
    {
      ghost var f0 := files[cur];
      var pos;
      pos, news := LoadRange(cur, files[cur].readPos, files[cur].classesRead, logclasses, arrivals);
      NewsLoaded(f0, files[cur], logclasses, pos, maxLines);
      ghost var now := files;
      Update(cur, files[cur].(readPos := pos));
      SameDiskTransitive(old(files)[cur := Grown(old(files)[cur], news)], now, files);
    }

    /** Rewinds and reads the whole file for the missing classes; it may grow behind the lines that are known. */
    method LoadMissing(cur: nat, missing: set<nat>, logclasses: set<nat>, arrivals: seq<seq<Line>>)
      returns (ghost late: seq<Line>)
      requires Sound() && cur < |files| && missing <= logclasses && missing !! files[cur].classesRead
      modifies this
      ensures Sound() && GrownDisk(old(files), cur, late, files) && Among(late, arrivals)
      ensures OthersStayCoherent(old(files), cur, files, maxLines)
      ensures MissingRead(old(files)[cur], files[cur], missing, logclasses, maxLines)
    {
      ghost var f0 := files[cur].(lineno := 0);
      Update(cur, files[cur].(lineno := 0));
      ghost var rewound := files;
      var pos;
      pos, late := LoadRange(cur, 0, missing, logclasses, arrivals);
      MissingLoaded(f0, files[cur], missing, logclasses, pos, maxLines);
      ghost var now := files;
      Update(cur, WithLoaded(files[cur], missing, pos));
      SameDiskTransitive(rewound[cur := Grown(rewound[cur], late)], now, files);
      SameDiskTransitive(old(files)[cur := Grown(old(files)[cur], late)], rewound[cur := Grown(rewound[cur], late)],
                         files);
    }
  }

  /** The lines are among those that arrive. */
  ghost predicate Among(lines: seq<Line>, arrivals: seq<seq<Line>>) {
    forall line | line in lines :: exists i :: 0 <= i < |arrivals| && line in arrivals[i]
  }

  lemma GrownTwice(a: seq<Logfile>, cur: nat, x: seq<Line>, b: seq<Logfile>, y: seq<Line>, c: seq<Logfile>)
    requires cur < |a| && GrownDisk(a, cur, x, b) && GrownDisk(b, cur, y, c)
    ensures GrownDisk(a, cur, x + y, c)
  {
    AppendedMore(a, cur, x, b, y);
    SameDiskTransitive(a[cur := Grown(a[cur], x + y)], b[cur := Grown(b[cur], y)], c);
  }

  /** The classes count as read from now on; only the watched file remembers the position. */
  function WithLoaded(f: Logfile, missing: set<nat>, pos: nat): Logfile {
    f.(classesRead := f.classesRead + missing, readPos := if f.watch then pos else f.readPos)
  }

  /** Behind the first `known` lines, and below the line cap, there is a valid line of this class. */
  ghost predicate LosesClass(f: Logfile, c: nat, known: nat, maxLines: nat) {
    exists i :: known <= i < Readable(f, maxLines) && f.content[i].ValidLine? && f.content[i].logclass == c
  }

  /** There is such a line of a class that counts as read but was not read again. */
  ghost predicate Loses(f: Logfile, reread: set<nat>, known: nat, maxLines: nat) {
    exists c :: c in f.classesRead - reread && LosesClass(f, c, known, maxLines)
  }

  /** After the first read the classes that still count as read are as complete up to the end as they were before. */
  ghost predicate CaughtUp(f0: Logfile, f: Logfile, logclasses: set<nat>, maxLines: nat) {
    && f0.classesRead * logclasses <= f.classesRead <= f0.classesRead
    && (f.classesRead != {} ==> f.lineno == Readable(f, maxLines))
    && forall c | c in f.classesRead :: Complete(f, c, Readable(f, maxLines)) <==> Complete(f0, c, f0.lineno)
  }

  /** After the second read the missing classes are complete, and of the others those that were and lose no line. */
  ghost predicate MissingRead(f0: Logfile, f: Logfile, missing: set<nat>, logclasses: set<nat>, maxLines: nat) {
    && missing + f0.classesRead * logclasses <= f.classesRead <= f0.classesRead + missing
    && f.lineno == Readable(f, maxLines) && AllComplete(f, missing, Readable(f, maxLines))
    && forall c | c in f.classesRead - missing ::
         Complete(f, c, Readable(f, maxLines)) <==>
         Complete(f0, c, Readable(f0, maxLines)) && !LosesClass(f, c, |f0.content|, maxLines)
  }

  /** What a load makes of each class: complete if it was missing; otherwise if it was complete and loses no line. */
  ghost predicate LoadedFrom(f0: Logfile, f: Logfile, logclasses: set<nat>, known: nat, maxLines: nat) {
    && (f.classesRead != {} ==> f.lineno == Readable(f, maxLines))
    && forall c | c in f.classesRead ::
         Complete(f, c, Readable(f, maxLines)) <==>
         c in logclasses - f0.classesRead || (Complete(f0, c, f0.lineno) && !LosesClass(f, c, known, maxLines))
  }

  lemma NewsLoaded(f0: Logfile, f: Logfile, logclasses: set<nat>, pos: nat, maxLines: nat)
    requires Valid(f0, maxLines) && Valid(f, maxLines) && LoadProgress(f0, f, f0.classesRead, logclasses)
    requires f.watch && f.lineno == Readable(f, maxLines) && pos <= |f.content|
    requires f.lineno < maxLines ==> pos == f.lineno
    ensures var g := f.(readPos := pos);
            Valid(g, maxLines) && Positioned(g, maxLines) && CaughtUp(f0, g, logclasses, maxLines)
  {
    var g := f.(readPos := pos);
    forall c | c in g.classesRead
      ensures Complete(g, c, Readable(g, maxLines)) <==> Complete(f0, c, f0.lineno)
    {
      if Complete(f0, c, f0.lineno) {
        forall i | 1 <= i <= g.lineno && g.content[i - 1].ValidLine? && g.content[i - 1].logclass == c
          ensures EntryAt(g.content, i) in g.entries
        {
          assert i <= f0.lineno ==> EntryAt(f0.content, i) in f0.entries;
        }
      } else {
        var i :| 1 <= i <= f0.lineno && f0.content[i - 1].ValidLine? && f0.content[i - 1].logclass == c
                 && EntryAt(f0.content, i) !in f0.entries;
        assert EntryAt(g.content, i) == EntryAt(f0.content, i);
      }
    }
  }

  /**
   After the second read a class that was not read again is complete if and only if it was, and no line of it below the
   line cap is late.
   */
  lemma MissingLoaded(f0: Logfile, f: Logfile, missing: set<nat>, logclasses: set<nat>, pos: nat, maxLines: nat)
    requires Valid(f0, maxLines) && Valid(f, maxLines) && missing <= logclasses && missing !! f0.classesRead
    requires LoadProgress(f0, f, missing, logclasses) && f0.lineno == 0
    requires f.lineno == Readable(f, maxLines) && pos <= |f.content| && (f.lineno < maxLines ==> pos == f.lineno)
    ensures var g := WithLoaded(f, missing, pos);
            && Valid(g, maxLines) && Positioned(g, maxLines) && MissingRead(f0, g, missing, logclasses, maxLines)
  {
    var g := WithLoaded(f, missing, pos);
    assert missing * (logclasses + f.classesRead) == missing;
    forall c | c in g.classesRead - missing
      ensures Complete(g, c, Readable(g, maxLines)) <==>
              Complete(f0, c, Readable(f0, maxLines)) && !LosesClass(g, c, |f0.content|, maxLines)
    {
      ClassNotReread(f0, g, missing, c, maxLines);
    }
  }

  lemma ClassNotReread(f0: Logfile, g: Logfile, missing: set<nat>, c: nat, maxLines: nat)
    requires Valid(f0, maxLines) && f0.content <= g.content && c !in missing
    requires forall e | e in g.entries :: e in f0.entries || e.logclass in missing
    requires forall e | e in f0.entries && e.logclass == c :: e in g.entries
    ensures Complete(g, c, Readable(g, maxLines)) <==>
            Complete(f0, c, Readable(f0, maxLines)) && !LosesClass(g, c, |f0.content|, maxLines)
  {
    if !Complete(f0, c, Readable(f0, maxLines)) {
      var i :| 1 <= i <= Readable(f0, maxLines) && f0.content[i - 1].ValidLine? && f0.content[i - 1].logclass == c
               && EntryAt(f0.content, i) !in f0.entries;
      assert EntryAt(g.content, i) == EntryAt(f0.content, i);
    } else if LosesClass(g, c, |f0.content|, maxLines) {
      var i :| |f0.content| <= i < Readable(g, maxLines) && g.content[i].ValidLine? && g.content[i].logclass == c;
      LateLineNotCached(f0, g, missing, i);
    } else {
      forall i | 1 <= i <= Readable(g, maxLines) && g.content[i - 1].ValidLine? && g.content[i - 1].logclass == c
        ensures EntryAt(g.content, i) in g.entries
      {
        assert i - 1 < |f0.content|;
        assert EntryAt(g.content, i) == EntryAt(f0.content, i);
      }
    }
  }

  lemma LateLineNotCached(f0: Logfile, f: Logfile, missing: set<nat>, i: nat)
    requires forall e | e in f0.entries :: e.lineno <= |f0.content|
    requires forall e | e in f.entries :: e in f0.entries || e.logclass in missing
    requires |f0.content| <= i < |f.content| && f.content[i].ValidLine? && f.content[i].logclass !in missing
    ensures EntryAt(f.content, i + 1) !in f.entries
  {
  }

  /** Both reads together. */
  lemma LoadedTwice(f0: Logfile, f: Logfile, g: Logfile, logclasses: set<nat>, news: nat, maxLines: nat)
    requires CaughtUp(f0, f, logclasses, maxLines) && |f.content| == |f0.content| + news
    requires var missing := logclasses - f0.classesRead;
             if missing == {} then g == f else MissingRead(f, g, missing, logclasses, maxLines)
    ensures LoadedFrom(f0, g, logclasses, |f0.content| + news, maxLines)
  {
  }

  /** A load keeps a file coherent if and only if it loses no line. */
  lemma LoadedCoherence(f0: Logfile, f: Logfile, logclasses: set<nat>, known: nat, maxLines: nat)
    requires LoadedFrom(f0, f, logclasses, known, maxLines) && Positioned(f, maxLines)
    requires f.classesRead <= f0.classesRead + logclasses
    ensures Coherent(f0, maxLines) ==>
              (Coherent(f, maxLines) <==> !Loses(f, logclasses - f0.classesRead, known, maxLines))
  {
  }

  /**
   A line that is lost: class 0 is cached completely, a line of class 0 arrives, and the file is read from its start for
   class 1. Class 0 counts as read, the position is behind the new line, and the line is not cached.
   */
  lemma LateLineIsLost(line: Line)
    requires line.ValidLine? && line.logclass == 0
    ensures var f := Logfile(true, line.time, 0, [line], 1, 1, [EntryAt([line], 1)], {0});
            var grown := Grown(f, [line]);
            var second := Processed(Processed(grown.(lineno := 1), {1}).(lineno := 2), {1});
            var g := WithLoaded(second, {1}, 2);
            && Valid(f, 10) && Coherent(f, 10) && AllComplete(f, {0}, Readable(f, 10))
            && Valid(g, 10) && g.readPos == g.lineno == Readable(g, 10) == 2 && g.classesRead == {0, 1}
            && !Coherent(g, 10) && EntryAt(g.content, 2) !in g.entries
  {
    var g := WithLoaded(Logfile(true, line.time, 0, [line, line], 1, 2, [EntryAt([line], 1)], {0}), {1}, 2);
    assert [line] + [line] == [line, line];
    assert !Complete(g, 0, 2) by {
      assert EntryAt(g.content, 2) !in g.entries;
    }
    assert 0 in g.classesRead;
  }
}
