/** GET log: the narrowed, cached, newest-first walk over the log files (src/TableLog.cc, src/Logfile.cc). */
module TableLog {
  import opened Basics
  import opened Bitmask
  import opened Filters
  import opened LogEntries
  import opened Logfiles
  import opened LogCaches
  import opened Paging
  import opened Queries

  // ---------- The plain scan ----------

  /** All entries of the oldest n files, newest file first, and within a file in descending key order. */
  function PlainScan(files: seq<Logfile>, n: nat, maxLines: nat): seq<LogEntry>
    requires n <= |files|
  {
    if n == 0 then []
    else
      var f := files[n - 1];
      Reversed(AllEntries(f.content, Readable(f, maxLines))) + PlainScan(files, n - 1, maxLines)
  }

  lemma {:induction false} ReversedAppend<T>(a: seq<T>, b: seq<T>)
    ensures Reversed(a + b) == Reversed(b) + Reversed(a)
  {
    if b == [] {
      assert a + b == a;
    } else {
      var before, last := b[..|b| - 1], b[|b| - 1];
      ReversedAppend(a, before);
      assert (a + b)[..|a| + |b| - 1] == a + before;
      assert Reversed(b) == [last] + Reversed(before);
      Associative([last], Reversed(before), Reversed(a));
    }
  }

  lemma {:induction false} FilteredReversed<T>(accepts: T -> bool, rows: seq<T>)
    ensures Filtered(accepts, Reversed(rows)) == Reversed(Filtered(accepts, rows))
  {
    if rows != [] {
      var before, last := rows[..|rows| - 1], rows[|rows| - 1];
      FilteredReversed(accepts, before);
      FilteredAppend(accepts, [last], Reversed(before));
      assert [last][..0] == [];
      assert Filtered(accepts, [last]) == if accepts(last) then [last] else [];
      if accepts(last) {
        assert (Filtered(accepts, before) + [last])[..|Filtered(accepts, before)|] == Filtered(accepts, before);
      }
    }
  }

  /** Only entries of the wanted classes in the window can be accepted. */
  ghost predicate Narrowed(accepts: LogEntry -> bool, f: Logfile, maxLines: nat, since: int, until: int,
                           classes: set<nat>) {
    forall e | IsLineOf(f.content, Readable(f, maxLines), e) && accepts(e) :: since <= e.time < until &&
      e.logclass in classes
  }

  /**
   A file that is complete for the wanted classes yields the accepted rows of
   the plain scan, stray entries or not.
   */
  lemma CacheYieldsPlainScan(accepts: LogEntry -> bool, f: Logfile, maxLines: nat, since: int, until: int,
                             classes: set<nat>)
    requires Valid(f, maxLines) && AllComplete(f, classes, Readable(f, maxLines))
    requires Narrowed(accepts, f, maxLines, since, until, classes)
    ensures Filtered(accepts, f.entries) == Filtered(accepts, AllEntries(f.content, Readable(f, maxLines)))
  {
    var all := AllEntries(f.content, Readable(f, maxLines));
    AllEntriesElements(f.content, Readable(f, maxLines));
    FilteredElements(accepts, f.entries);
    FilteredElements(accepts, all);
    FilteredAscending(accepts, f.entries);
    FilteredAscending(accepts, all);
    forall e
      ensures e in Filtered(accepts, f.entries) <==> e in Filtered(accepts, all)
    {
      if e in all && accepts(e) {
        assert Complete(f, e.logclass, Readable(f, maxLines));
        assert EntryAt(f.content, e.lineno) in f.entries;
      }
    }
    SameAscending(Filtered(accepts, f.entries), Filtered(accepts, all));
  }

  /** std::map::upper_bound: the first position whose key is above `key`. */
  method UpperBound(entries: seq<LogEntry>, key: nat) returns (at: nat)
    requires Ascending(entries)
    ensures at <= |entries|
    ensures forall i | 0 <= i < at :: Key(entries[i]) <= key
    ensures forall i | at <= i < |entries| :: key < Key(entries[i])
  {
    at := |entries|;
    while at > 0 && Key(entries[at - 1]) > key
      invariant at <= |entries| && forall i | at <= i < |entries| :: key < Key(entries[i])
    {
      at := at - 1;
    }
  }

  /** The rows behind the upper bound are outside the window. */
  lemma BehindUpperBound(f: Logfile, maxLines: nat, until: int, i: nat)
    requires Valid(f, maxLines) && i < |f.entries| && 0 <= until < 0x1_0000_0000
    requires MakeKey(until, 999999999) < Key(f.entries[i])
    ensures f.entries[i].time >= until
  {
    assert f.entries[i] in f.entries;
  }

  /** Entries before one that is older than the window are older, too. */
  lemma BeforeOldEntry(f: Logfile, maxLines: nat, i: nat, j: nat)
    requires Valid(f, maxLines) && i <= j < |f.entries|
    ensures f.entries[i].time <= f.entries[j].time
  {
    assert f.entries[i] in f.entries && f.entries[j] in f.entries;
    KeyOrder(f.entries[i], f.entries[j]);
  }

  // ---------- One file ----------

  /** A query whose rows are printed as they are found. */
  ghost predicate Streaming(query: Query<LogEntry>)
    reads query, query.sorter
  {
    query.Valid() && !query.error && query.stats == [] && !query.sorting && query.printedStats == []
  }

  /** What filtering the plain scan of one file gives. */
  ghost function FileRows(accepts: LogEntry -> bool, f: Logfile, maxLines: nat): seq<LogEntry> {
    Filtered(accepts, Reversed(AllEntries(f.content, Readable(f, maxLines))))
  }

  /** The answer grew by `wanted`, or by a part of it that already fills the limit. */
  ghost predicate Answered(before: seq<LogEntry>, after: seq<LogEntry>, wanted: seq<LogEntry>, full: bool) {
    after <= before + wanted && (!full ==> after == before + wanted)
  }

  /** The file holds an entry from before the window. */
  ghost predicate ReachesBack(f: Logfile, maxLines: nat, since: int) {
    exists e :: IsLineOf(f.content, Readable(f, maxLines), e) && e.time < since
  }

  /** The loop over the cached entries, from the end of the window backwards. */
  method WalkBackwards(f: Logfile, query: Query<LogEntry>, since: int, until: int, ghost classes: set<nat>,
                       ghost maxLines: nat) returns (more: bool)
    requires Valid(f, maxLines) && Narrowed(query.accepts, f, maxLines, since, until, classes)
    requires Streaming(query) && !query.LimitReached() && 0 <= until < 0x1_0000_0000
    modifies query, query.sorter
    ensures Streaming(query)
    ensures Answered(old(query.accepted), query.accepted, Filtered(query.accepts, Reversed(f.entries)),
                     query.LimitReached())
    ensures more ==> !query.LimitReached()
    ensures !more && !query.LimitReached() ==> ReachesBack(f, maxLines, since)
  {
    var it: nat := UpperBound(f.entries, MakeKey(until, 999999999));
    ghost var accepts := query.accepts;
    ghost var rest := Filtered(accepts, Reversed(f.entries));
    ghost var total := query.accepted + rest;
    SkipRejected(f, accepts, it, maxLines, since, until, classes);
    while it > 0
      invariant it <= |f.entries| && Streaming(query) && !query.LimitReached()
      invariant StillWanted(accepts, f.entries, it, rest) && query.accepted + rest == total
    {
      it := it - 1;
      if f.entries[it].time < since {
        assert f.entries[it] in f.entries;
        OldRejected(f, accepts, it + 1, maxLines, since, until, classes);
        return false;
      }
      ghost var before, left := query.accepted, Filtered(accepts, Reversed(f.entries[..it]));
      NextOffered(accepts, f.entries, it, rest, left, before);
      rest := left;
      more := query.ProcessDataset(f.entries[it], false);
      if !more {
        return false;
      }
    }
    more := true;
  }

  /** `rest` is what the entries before position `it` will still contribute. */
  ghost predicate StillWanted(accepts: LogEntry -> bool, entries: seq<LogEntry>, it: nat, rest: seq<LogEntry>) {
    it <= |entries| && rest == Filtered(accepts, Reversed(entries[..it]))
  }

  lemma NextOffered(accepts: LogEntry -> bool, entries: seq<LogEntry>, it: nat, rest: seq<LogEntry>,
                    left: seq<LogEntry>, before: seq<LogEntry>)
    requires it < |entries| && StillWanted(accepts, entries, it + 1, rest)
    requires left == Filtered(accepts, Reversed(entries[..it]))
    ensures StillWanted(accepts, entries, it, left)
    ensures (before + Filtered(accepts, [entries[it]])) + left == before + rest
  {
    assert entries[..it + 1][..it] == entries[..it];
    FilteredAppend(accepts, [entries[it]], Reversed(entries[..it]));
  }

  lemma SkipRejected(f: Logfile, accepts: LogEntry -> bool, it: nat, maxLines: nat, since: int, until: int,
                     classes: set<nat>)
    requires Valid(f, maxLines) && Narrowed(accepts, f, maxLines, since, until, classes) && it <= |f.entries|
    requires 0 <= until < 0x1_0000_0000
    requires forall i | it <= i < |f.entries| :: MakeKey(until, 999999999) < Key(f.entries[i])
    ensures StillWanted(accepts, f.entries, it, Filtered(accepts, Reversed(f.entries)))
  {
    var low, high := f.entries[..it], f.entries[it..];
    assert f.entries == low + high;
    forall e | e in high
      ensures !accepts(e)
    {
      var i :| 0 <= i < |high| && high[i] == e;
      assert e == f.entries[it + i] && e in f.entries;
      BehindUpperBound(f, maxLines, until, it + i);
    }
    NoneFiltered(accepts, high);
    FilteredReversed(accepts, high);
    ReversedAppend(low, high);
    FilteredAppend(accepts, Reversed(high), Reversed(low));
  }

  lemma OldRejected(f: Logfile, accepts: LogEntry -> bool, it: nat, maxLines: nat, since: int, until: int,
                    classes: set<nat>)
    requires Valid(f, maxLines) && Narrowed(accepts, f, maxLines, since, until, classes) && 0 < it <= |f.entries|
    requires f.entries[it - 1].time < since
    ensures Filtered(accepts, Reversed(f.entries[..it])) == []
  {
    var low := f.entries[..it];
    forall e | e in low
      ensures !accepts(e)
    {
      var i :| 0 <= i < |low| && low[i] == e;
      assert e == f.entries[i] && e in f.entries;
      BeforeOldEntry(f, maxLines, i, it - 1);
    }
    NoneFiltered(accepts, low);
    FilteredReversed(accepts, low);
  }

  // ---------- The whole query ----------

  /** LOGCLASS_ALL. */
  function AllClasses(): Word {
    Without(AllBits(), 16, 32)
  }

  /** The classes whose bits are set. */
  function ClassSet(mask: Word): set<nat> {
    set c: nat | c < 32 && mask[c]
  }

  /**
   The log files are in time order and do not overlap, and nothing is logged in the future: each entry lies between its
   file's first time and that of any newer file, and not behind the file's last time where that is known.
   */
  ghost predicate TimeOrdered(files: seq<Logfile>, maxLines: nat, now: int) {
    && (forall i, e | 0 <= i < |files| && IsLineOf(files[i].content, Readable(files[i], maxLines), e) ::
          files[i].since <= e.time <= now && (files[i].lastTime > 0 ==> e.time <= files[i].lastTime))
    && (forall i, j, e | 0 <= i < j < |files| && IsLineOf(files[i].content, Readable(files[i], maxLines), e) ::
          e.time <= files[j].since)
    && (forall i | 0 <= i < |files| && files[i].lastTime > 0 :: files[i].since <= files[i].lastTime)
  }

  /** The query accepts nothing that its filter rejects. */
  ghost predicate RespectsFilter(filter: Filter, accepts: LogEntry -> bool) {
    forall e :: accepts(e) ==> Accepts(filter, e.AsRow())
  }

  /** What is accepted and not in the future is in the window and of the wanted classes. */
  ghost predicate Selects(accepts: LogEntry -> bool, now: int, w: Window, classes: set<nat>) {
    forall e: LogEntry | e.time <= now && accepts(e) :: w.Contains(e.time) && e.logclass in classes
  }

  /** The window and the mask that the filter walks produce contain every accepted entry. */
  lemma NarrowingIsSound(filter: Filter, accepts: LogEntry -> bool, now: int)
    requires RespectsFilter(filter, accepts) && OrFree(filter, "time")
    ensures Selects(accepts, now, Narrow(filter, "time", Window(0, now + 1)),
                    ClassSet(Mask(filter, "class", AllClasses()).mask))
  {
    forall e: LogEntry | e.time <= now && accepts(e)
      ensures Narrow(filter, "time", Window(0, now + 1)).Contains(e.time)
      ensures e.logclass in ClassSet(Mask(filter, "class", AllClasses()).mask)
    {
      assert e.AsRow().times("time") == e.time && e.AsRow().ints("class") == e.logclass;
      NarrowSound(filter, "time", Window(0, now + 1), e.AsRow());
      MaskSound(filter, "class", AllClasses(), e.AsRow());
    }
  }

  lemma NoFileRows(accepts: LogEntry -> bool, f: Logfile, maxLines: nat)
    requires maxLines < 0x1_0000_0000
    requires forall e | IsLineOf(f.content, Readable(f, maxLines), e) :: !accepts(e)
    ensures FileRows(accepts, f, maxLines) == []
  {
    var all := AllEntries(f.content, Readable(f, maxLines));
    AllEntriesElements(f.content, Readable(f, maxLines));
    NoneFiltered(accepts, all);
    FilteredReversed(accepts, all);
  }

  /** None of the oldest n files holds an accepted entry. */
  ghost predicate NoneIn(accepts: LogEntry -> bool, files: seq<Logfile>, n: nat, maxLines: nat) {
    forall i, e | 0 <= i < n <= |files| && IsLineOf(files[i].content, Readable(files[i], maxLines), e) :: !accepts(e)
  }

  /** Files without an entry in the window contribute nothing. */
  lemma {:induction false} NothingIn(accepts: LogEntry -> bool, files: seq<Logfile>, n: nat, maxLines: nat)
    requires n <= |files| && maxLines < 0x1_0000_0000 && NoneIn(accepts, files, n, maxLines)
    ensures Filtered(accepts, PlainScan(files, n, maxLines)) == []
  {
    if n > 0 {
      NoFileRows(accepts, files[n - 1], maxLines);
      NothingIn(accepts, files, n - 1, maxLines);
      FilteredAppend(accepts, Reversed(AllEntries(files[n - 1].content, Readable(files[n - 1], maxLines))),
                       PlainScan(files, n - 1, maxLines));
    }
  }

  /** What the oldest n files still contribute to the answer. */
  ghost function Contribution(accepts: LogEntry -> bool, files: seq<Logfile>, n: nat, maxLines: nat): seq<LogEntry>
    requires n <= |files|
  {
    Filtered(accepts, PlainScan(files, n, maxLines))
  }

  lemma ContributionOfFile(accepts: LogEntry -> bool, files: seq<Logfile>, n: nat, maxLines: nat)
    requires n < |files|
    ensures Contribution(accepts, files, n + 1, maxLines) ==
            FileRows(accepts, files[n], maxLines) + Contribution(accepts, files, n, maxLines)
  {
    FilteredAppend(accepts, Reversed(AllEntries(files[n].content, Readable(files[n], maxLines))),
                     PlainScan(files, n, maxLines));
  }

  /** The narrowed query: what the loop over the files may rely on. */
  ghost predicate Prepared(accepts: LogEntry -> bool, files: seq<Logfile>, maxLines: nat, now: int, w: Window,
                           classes: set<nat>)
  {
    maxLines < 0x1_0000_0000 && TimeOrdered(files, maxLines, now) && Selects(accepts, now, w, classes)
  }

  lemma PreparedFile(accepts: LogEntry -> bool, files: seq<Logfile>, maxLines: nat, now: int, w: Window,
                     classes: set<nat>, i: nat)
    requires Prepared(accepts, files, maxLines, now, w, classes) && i < |files|
    ensures Narrowed(accepts, files[i], maxLines, w.lower, w.upper, classes)
  {
  }

  /** Files older than an entry that is too old, or than a file whose end is too old, contribute nothing. */
  lemma OlderFilesContributeNothing(accepts: LogEntry -> bool, files: seq<Logfile>, n: nat, maxLines: nat, now: int,
                                    w: Window, classes: set<nat>)
    requires Prepared(accepts, files, maxLines, now, w, classes) && n < |files|
    requires files[n].since < w.lower
    ensures Contribution(accepts, files, n, maxLines) == []
  {
    forall i, e | 0 <= i < n && IsLineOf(files[i].content, Readable(files[i], maxLines), e)
      ensures !accepts(e)
    {
      assert e.time <= files[n].since;
    }
    NothingIn(accepts, files, n, maxLines);
  }

  /** A file that starts behind the window contributes nothing. */
  lemma NewFileContributesNothing(accepts: LogEntry -> bool, files: seq<Logfile>, n: nat, maxLines: nat, now: int,
                                  w: Window, classes: set<nat>)
    requires Prepared(accepts, files, maxLines, now, w, classes) && n < |files|
    requires files[n].since >= w.upper
    ensures Contribution(accepts, files, n + 1, maxLines) == Contribution(accepts, files, n, maxLines)
  {
    PreparedFile(accepts, files, maxLines, now, w, classes, n);
    FileContributesNothing(accepts, files, n, maxLines);
  }

  lemma FileContributesNothing(accepts: LogEntry -> bool, files: seq<Logfile>, n: nat, maxLines: nat)
    requires n < |files| && maxLines < 0x1_0000_0000
    requires forall e | IsLineOf(files[n].content, Readable(files[n], maxLines), e) :: !accepts(e)
    ensures Contribution(accepts, files, n + 1, maxLines) == Contribution(accepts, files, n, maxLines)
  {
    NoFileRows(accepts, files[n], maxLines);
    ContributionOfFile(accepts, files, n, maxLines);
    EmptyFront(FileRows(accepts, files[n], maxLines), Contribution(accepts, files, n, maxLines));
  }

  lemma EmptyFront<T>(front: seq<T>, rest: seq<T>)
    requires front == []
    ensures front + rest == rest
  {
  }

  // ---------- What the plain scan is ----------

  ghost predicate NewestFirst(rows: seq<LogEntry>) {
    forall i, j | 0 <= i < j < |rows| :: rows[j].time <= rows[i].time
  }

  lemma {:induction false} AscendingNewestFirst(s: seq<LogEntry>)
    requires Ascending(s) && forall e | e in s :: e.lineno < 0x1_0000_0000
    ensures NewestFirst(Reversed(s))
  {
    if s != [] {
      var before, last := s[..|s| - 1], s[|s| - 1];
      AscendingNewestFirst(before);
      ReversedElements(before);
      var older := Reversed(before);
      forall j | 0 <= j < |older|
        ensures older[j].time <= last.time
      {
        assert older[j] in older && last in s;
        assert older[j] in s && Key(older[j]) < Key(last);
        KeyOrder(older[j], last);
      }
    }
  }

  lemma FileNewestFirst(f: Logfile, maxLines: nat)
    requires maxLines < 0x1_0000_0000
    ensures NewestFirst(Reversed(AllEntries(f.content, Readable(f, maxLines))))
    ensures forall e :: e in Reversed(AllEntries(f.content, Readable(f, maxLines))) <==>
                        IsLineOf(f.content, Readable(f, maxLines), e)
  {
    AllEntriesElements(f.content, Readable(f, maxLines));
    ReversedElements(AllEntries(f.content, Readable(f, maxLines)));
    AscendingNewestFirst(AllEntries(f.content, Readable(f, maxLines)));
  }

  /** Line e.lineno of the file, which is below the line cap, is the valid line that the entry stands for. */
  ghost predicate StandsFor(f: Logfile, maxLines: nat, e: LogEntry) {
    1 <= e.lineno <= |f.content| && e.lineno <= maxLines &&
    f.content[e.lineno - 1] == ValidLine(e.time, e.logclass, e.columns)
  }

  /** The plain scan of the oldest n files holds the valid lines of these files, up to the line cap, and no others. */
  lemma {:induction false} PlainScanElements(files: seq<Logfile>, n: nat, maxLines: nat)
    requires n <= |files| && maxLines < 0x1_0000_0000
    ensures forall e :: e in PlainScan(files, n, maxLines) <==>
                        exists i :: 0 <= i < n && StandsFor(files[i], maxLines, e)
  {
    if n > 0 {
      PlainScanElements(files, n - 1, maxLines);
      FileNewestFirst(files[n - 1], maxLines);
      var f := files[n - 1];
      forall e
        ensures StandsFor(f, maxLines, e) <==> IsLineOf(f.content, Readable(f, maxLines), e)
      {
        LineOfEntry(f.content, Readable(f, maxLines), e);
      }
    }
  }

  /** Files in time order are scanned from the newest entry to the oldest. */
  lemma {:induction false} PlainScanNewestFirst(files: seq<Logfile>, n: nat, maxLines: nat, now: int)
    requires n <= |files| && maxLines < 0x1_0000_0000 && TimeOrdered(files, maxLines, now)
    ensures NewestFirst(PlainScan(files, n, maxLines))
  {
    if n > 0 {
      PlainScanNewestFirst(files, n - 1, maxLines, now);
      PlainScanElements(files, n - 1, maxLines);
      forall i, e | 0 <= i < n - 1 && StandsFor(files[i], maxLines, e)
        ensures IsLineOf(files[i].content, Readable(files[i], maxLines), e)
      {
        LineOfEntry(files[i].content, Readable(files[i], maxLines), e);
      }
      FileNewestFirst(files[n - 1], maxLines);
      var f := files[n - 1];
      var newer, older := Reversed(AllEntries(f.content, Readable(f, maxLines))), PlainScan(files, n - 1, maxLines);
      forall i, j | 0 <= i < |newer| && 0 <= j < |older|
        ensures older[j].time <= newer[i].time
      {
        assert newer[i] in newer && older[j] in older;
      }
    }
  }

  lemma {:induction false} FilteredNewestFirst(accepts: LogEntry -> bool, rows: seq<LogEntry>)
    requires NewestFirst(rows)
    ensures NewestFirst(Filtered(accepts, rows))
  {
    if rows != [] {
      var before, last := rows[..|rows| - 1], rows[|rows| - 1];
      FilteredNewestFirst(accepts, before);
      FilteredElements(accepts, before);
      var t := Filtered(accepts, before);
      forall i | 0 <= i < |t|
        ensures last.time <= t[i].time
      {
        assert t[i] in t;
        assert t[i] in before;
      }
    }
  }

  /** The number of valid readable lines of the oldest n files: the plain scan has each of them once. */
  function ValidLines(files: seq<Logfile>, n: nat, maxLines: nat): nat
    requires n <= |files|
  {
    if n == 0 then 0
    else
      var f := files[n - 1];
      ValidLines(files, n - 1, maxLines) + |set i: nat | i < |f.content| && i < maxLines && f.content[i].ValidLine?|
  }

  lemma {:induction false} AllEntriesCount(content: seq<Line>, upto: nat)
    requires upto <= |content| && upto < 0x1_0000_0000
    ensures |AllEntries(content, upto)| == |set i: nat | i < upto && content[i].ValidLine?|
  {
    var valid := set i: nat | i < upto && content[i].ValidLine?;
    if upto == 0 {
      assert valid == {};
    } else {
      AllEntriesCount(content, upto - 1);
      var before := set i: nat | i < upto - 1 && content[i].ValidLine?;
      assert valid == if content[upto - 1].ValidLine? then before + {upto - 1} else before;
      if content[upto - 1].ValidLine? {
        AllEntriesElements(content, upto - 1);
        forall x | x in AllEntries(content, upto - 1)
          ensures Key(x) != Key(EntryAt(content, upto))
        {
          KeyOrder(x, EntryAt(content, upto));
        }
        InsertedElements(AllEntries(content, upto - 1), EntryAt(content, upto));
      }
    }
  }

  lemma {:induction false} PlainScanCount(files: seq<Logfile>, n: nat, maxLines: nat)
    requires n <= |files| && maxLines < 0x1_0000_0000
    ensures |PlainScan(files, n, maxLines)| == ValidLines(files, n, maxLines)
  {
    if n > 0 {
      PlainScanCount(files, n - 1, maxLines);
      var all := AllEntries(files[n - 1].content, Readable(files[n - 1], maxLines));
      AllEntriesCount(files[n - 1].content, Readable(files[n - 1], maxLines));
      var content := files[n - 1].content;
      assert (set i: nat | i < |content| && i < maxLines && content[i].ValidLine?) ==
             (set i: nat | i < Readable(files[n - 1], maxLines) && content[i].ValidLine?);
      ReversedElements(all);
    }
  }

  // ---------- Lines that arrive ----------

  /** A line in time order behind those of the file, before those of newer files, and not in the future. */
  ghost predicate Fits(files: seq<Logfile>, cur: nat, line: Line, now: int) {
    line.ValidLine? && cur < |files| ==>
      && files[cur].since <= line.time <= now && (files[cur].lastTime > 0 ==> line.time <= files[cur].lastTime)
      && forall j | cur < j < |files| :: line.time <= files[j].since
  }

  ghost predicate AllFit(files: seq<Logfile>, cur: nat, arrivals: seq<seq<Line>>, now: int) {
    forall i, line | 0 <= i < |arrivals| && line in arrivals[i] :: Fits(files, cur, line, now)
  }

  /** None of the lines is of a class that counts as read, so that a load which skips them loses nothing. */
  ghost predicate Harmless(f: Logfile, arrivals: seq<seq<Line>>) {
    forall i, line | 0 <= i < |arrivals| && line in arrivals[i] && line.ValidLine? :: line.logclass !in f.classesRead
  }

  lemma GrownStaysOrdered(files: seq<Logfile>, cur: nat, lines: seq<Line>, now: seq<Logfile>, maxLines: nat, time: int)
    requires cur < |files| && GrownDisk(files, cur, lines, now) && TimeOrdered(files, maxLines, time)
    requires forall line | line in lines :: Fits(files, cur, line, time)
    ensures TimeOrdered(now, maxLines, time)
  {
    forall e | IsLineOf(now[cur].content, Readable(now[cur], maxLines), e)
      ensures IsLineOf(files[cur].content, Readable(files[cur], maxLines), e) ||
              exists line :: line in lines && line.ValidLine? && line.time == e.time
    {
      if e.lineno > |files[cur].content| {
        assert now[cur].content[e.lineno - 1] == lines[e.lineno - 1 - |files[cur].content|];
      }
    }
    forall i, e | 0 <= i < |now| && i != cur && IsLineOf(now[i].content, Readable(now[i], maxLines), e)
      ensures IsLineOf(files[i].content, Readable(files[i], maxLines), e)
    {
    }
  }

  lemma AmongAllFit(files: seq<Logfile>, cur: nat, first: seq<seq<Line>>, second: seq<seq<Line>>, news: seq<Line>,
                    late: seq<Line>, now: int)
    requires AllFit(files, cur, first, now) && AllFit(files, cur, second, now)
    requires Among(news, first) && Among(late, second)
    ensures forall line | line in news + late :: Fits(files, cur, line, now)
  {
  }

  /** A load loses nothing if the lines that arrive during its second read are harmless. */
  lemma HarmlessLosesNothing(f0: Logfile, f: Logfile, reread: set<nat>, news: seq<Line>, late: seq<Line>,
                             second: seq<seq<Line>>, maxLines: nat)
    requires Harmless(f0, second) && Among(late, second) && f.content == f0.content + (news + late)
    requires f.classesRead <= f0.classesRead + reread
    ensures !Loses(f, reread, |f0.content| + |news|, maxLines)
  {
    forall i | |f0.content| + |news| <= i < |f.content| && f.content[i].ValidLine?
      ensures f.content[i].logclass !in f0.classesRead
    {
      assert f.content[i] == late[i - |f0.content| - |news|];
      assert f.content[i] in late;
    }
  }

  lemma AmongBoth(news: seq<Line>, late: seq<Line>, first: seq<seq<Line>>, second: seq<seq<Line>>)
    requires Among(news, first) && Among(late, second)
    ensures Among(news + late, first + second)
  {
    forall line | line in news + late
      ensures exists i :: 0 <= i < |first + second| && line in (first + second)[i]
    {
      if line in news {
        var i :| 0 <= i < |first| && line in first[i];
        assert (first + second)[i] == first[i];
      } else {
        var i :| 0 <= i < |second| && line in second[i];
        assert (first + second)[|first| + i] == second[i];
      }
    }
  }

  lemma NoGrowth(files: seq<Logfile>, cur: nat, arrivals: seq<seq<Line>>) returns (appended: seq<Line>)
    requires cur < |files|
    ensures GrownDisk(files, cur, appended, files) && Among(appended, arrivals)
  {
    appended := [];
    NothingAppended(files, cur);
  }

  lemma NoneAmong(lines: seq<Line>)
    ensures Among(lines, [] + []) ==> lines == []
  {
    if lines != [] {
      assert lines[0] in lines;
    }
  }

  // ---------- One file, with its load ----------

  /** Logfile::answerQueryReverse. */
  method AnswerQueryReverse(cache: LogCache, cur: nat, query: Query<LogEntry>, since: int, until: int,
                            classes: set<nat>, first: seq<seq<Line>>, second: seq<seq<Line>>, ghost now: int)
    returns (more: bool, ghost appended: seq<Line>)
    requires cache.Sound() && cur < |cache.files| && (cache.files[cur].watch || first == second == [])
    requires Streaming(query) && !query.LimitReached() && 0 <= until < 0x1_0000_0000
    requires Prepared(query.accepts, cache.files, cache.maxLines, now, Window(since, until), classes)
    requires AllFit(cache.files, cur, first, now) && AllFit(cache.files, cur, second, now)
    modifies cache, query, query.sorter
    ensures cache.Sound() && GrownDisk(old(cache.files), cur, appended, cache.files) && Streaming(query)
    ensures Among(appended, first + second)
    ensures Prepared(query.accepts, cache.files, cache.maxLines, now, Window(since, until), classes)
    ensures OthersStayCoherent(old(cache.files), cur, cache.files, cache.maxLines)
    ensures Coherent(old(cache.files)[cur], cache.maxLines) && Harmless(old(cache.files)[cur], second) ==>
              Coherent(cache.files[cur], cache.maxLines)
    ensures Coherent(cache.files[cur], cache.maxLines) ==>
              Answered(old(query.accepted), query.accepted, FileRows(query.accepts, cache.files[cur], cache.maxLines),
                       query.LimitReached())
    ensures more ==> !query.LimitReached()
    ensures !more && !query.LimitReached() ==> ReachesBack(cache.files[cur], cache.maxLines, since)
  {
    ghost var files, maxLines, w := cache.files, cache.maxLines, Window(since, until);
    ghost var news, late := cache.Load(cur, classes, first, second);
    appended := news + late;
    AmongBoth(news, late, first, second);
    AmongAllFit(files, cur, first, second, news, late, now);
    GrownStaysOrdered(files, cur, appended, cache.files, maxLines, now);
    var f := cache.files[cur];
    if Harmless(files[cur], second) {
      HarmlessLosesNothing(files[cur], f, classes - files[cur].classesRead, news, late, second, maxLines);
    }
    PreparedFile(query.accepts, cache.files, maxLines, now, w, classes, cur);
    if Coherent(f, maxLines) {
      CacheYieldsPlainScan(query.accepts, f, maxLines, since, until, classes);
      FilteredReversed(query.accepts, f.entries);
      FilteredReversed(query.accepts, AllEntries(f.content, Readable(f, maxLines)));
    }
    more := WalkBackwards(f, query, since, until, classes, maxLines);
  }

  // ---------- Steps of the walk ----------

  /** The accepted rows of the files from `from` on up to n, newest first. */
  ghost function Newer(accepts: LogEntry -> bool, files: seq<Logfile>, from: nat, n: nat, maxLines: nat): seq<LogEntry>
    requires from <= n <= |files|
    decreases n - from
  {
    if from == n then []
    else Newer(accepts, files, from + 1, n, maxLines) + FileRows(accepts, files[from], maxLines)
  }

  /** These rows are the front of the whole answer. */
  lemma {:induction false} NewerAndOlder(accepts: LogEntry -> bool, files: seq<Logfile>, from: nat, n: nat,
                                         maxLines: nat)
    requires from <= n <= |files|
    ensures Contribution(accepts, files, n, maxLines) ==
            Newer(accepts, files, from, n, maxLines) + Contribution(accepts, files, from, maxLines)
    decreases n - from
  {
    if from < n {
      NewerAndOlder(accepts, files, from + 1, n, maxLines);
      ContributionOfFile(accepts, files, from, maxLines);
      Associative(Newer(accepts, files, from + 1, n, maxLines), FileRows(accepts, files[from], maxLines),
                  Contribution(accepts, files, from, maxLines));
    }
  }

  lemma {:induction false} NewerUnchanged(accepts: LogEntry -> bool, files: seq<Logfile>, now: seq<Logfile>,
                                          from: nat, n: nat, maxLines: nat)
    requires from <= n <= |files| == |now| && forall i | from <= i < n :: now[i].content == files[i].content
    ensures Newer(accepts, files, from, n, maxLines) == Newer(accepts, now, from, n, maxLines)
    decreases n - from
  {
    if from < n {
      NewerUnchanged(accepts, files, now, from + 1, n, maxLines);
    }
  }

  /** The walk may end: nothing is left, or the limit is reached. */
  ghost predicate Finished(answered: seq<LogEntry>, all: seq<LogEntry>, full: bool) {
    answered <= all && (!full ==> answered == all)
  }

  /** What has been answered are the rows of the newer files. */
  ghost predicate Reached(answered: seq<LogEntry>, accepts: LogEntry -> bool, files: seq<Logfile>, from: nat, n: nat,
                          maxLines: nat)
  {
    from <= n <= |files| && answered == Newer(accepts, files, from, n, maxLines)
  }

  lemma ReachedNext(before: seq<LogEntry>, after: seq<LogEntry>, accepts: LogEntry -> bool, files: seq<Logfile>,
                    it: nat, n: nat, maxLines: nat, full: bool)
    requires it < n && Reached(before, accepts, files, it + 1, n, maxLines)
    requires Answered(before, after, FileRows(accepts, files[it], maxLines), full)
    ensures !full ==> Reached(after, accepts, files, it, n, maxLines)
    ensures full || Contribution(accepts, files, it, maxLines) == [] ==>
              Finished(after, Contribution(accepts, files, n, maxLines), full)
  {
    var wanted, rest := FileRows(accepts, files[it], maxLines), Contribution(accepts, files, it, maxLines);
    NewerAndOlder(accepts, files, it, n, maxLines);
    if rest == [] {
      assert before + wanted + rest == before + wanted;
    }
  }

  /** Everything older than a file that reaches back before the window is out of the window. */
  lemma NothingBehind(accepts: LogEntry -> bool, files: seq<Logfile>, n: nat, maxLines: nat, now: int, w: Window,
                      classes: set<nat>)
    requires Prepared(accepts, files, maxLines, now, w, classes) && n < |files|
    requires ReachesBack(files[n], maxLines, w.lower) || 0 < files[n].lastTime < w.lower
    ensures Contribution(accepts, files, n, maxLines) == []
    ensures 0 < files[n].lastTime < w.lower ==> FileRows(accepts, files[n], maxLines) == []
  {
    OlderFilesContributeNothing(accepts, files, n, maxLines, now, w, classes);
    if 0 < files[n].lastTime < w.lower {
      PreparedFile(accepts, files, maxLines, now, w, classes, n);
      NoFileRows(accepts, files[n], maxLines);
    }
  }

  /** Only the newest file is watched. */
  ghost predicate OnlyNewestWatched(files: seq<Logfile>) {
    forall i | 0 <= i < |files| - 1 :: !files[i].watch
  }

  /** What the walk knows before it turns to file `it`, as long as no line has been lost. */
  ghost predicate OnTheWay(answered: seq<LogEntry>, accepts: LogEntry -> bool, files: seq<Logfile>, it: nat, n: nat,
                           maxLines: nat)
  {
    AllCoherent(files, maxLines) && Reached(answered, accepts, files, it, n, maxLines)
  }

  /** What it knows afterwards, whether it goes on or ends. */
  ghost predicate Turned(more: bool, answered: seq<LogEntry>, accepts: LogEntry -> bool, files: seq<Logfile>, it: nat,
                         n: nat, maxLines: nat, full: bool)
  {
    if more then !full && OnTheWay(answered, accepts, files, it, n, maxLines)
    else
      && AllCoherent(files, maxLines) && n <= |files|
      && Finished(answered, Contribution(accepts, files, n, maxLines), full)
  }

  lemma StillReached(answered: seq<LogEntry>, accepts: LogEntry -> bool, files: seq<Logfile>, appended: seq<Line>,
                     grown: seq<Logfile>, it: nat, n: nat, maxLines: nat)
    requires it < n <= |files| && GrownDisk(files, it, appended, grown)
    requires Reached(answered, accepts, files, it + 1, n, maxLines)
    ensures Reached(answered, accepts, grown, it + 1, n, maxLines)
  {
    NewerUnchanged(accepts, files, grown, it + 1, n, maxLines);
  }

  lemma AllStayCoherent(files: seq<Logfile>, it: nat, now: seq<Logfile>, maxLines: nat)
    requires AllCoherent(files, maxLines) && OthersStayCoherent(files, it, now, maxLines)
    requires it < |now| && Coherent(now[it], maxLines)
    ensures AllCoherent(now, maxLines)
  {
  }

  lemma FileAnswered(more: bool, before: seq<LogEntry>, after: seq<LogEntry>, accepts: LogEntry -> bool,
                     files: seq<Logfile>, appended: seq<Line>, grown: seq<Logfile>, it: nat, n: nat, maxLines: nat,
                     now: int, w: Window, classes: set<nat>, full: bool)
    requires it < n && OnTheWay(before, accepts, files, it + 1, n, maxLines)
    requires GrownDisk(files, it, appended, grown) && OthersStayCoherent(files, it, grown, maxLines)
    requires Coherent(grown[it], maxLines) && Prepared(accepts, grown, maxLines, now, w, classes)
    requires Answered(before, after, FileRows(accepts, grown[it], maxLines), full) && (more ==> !full)
    requires !more && !full ==> ReachesBack(grown[it], maxLines, w.lower)
    ensures Turned(more, after, accepts, grown, it, n, maxLines, full)
  {
    StillReached(before, accepts, files, appended, grown, it, n, maxLines);
    AllStayCoherent(files, it, grown, maxLines);
    ReachedNext(before, after, accepts, grown, it, n, maxLines, full);
    if !more && !full {
      NothingBehind(accepts, grown, it, maxLines, now, w, classes);
    }
  }

  lemma FileSkipped(answered: seq<LogEntry>, accepts: LogEntry -> bool, files: seq<Logfile>, it: nat, n: nat,
                    maxLines: nat, now: int, w: Window, classes: set<nat>)
    requires it < n && OnTheWay(answered, accepts, files, it + 1, n, maxLines)
    requires Prepared(accepts, files, maxLines, now, w, classes) && 0 < files[it].lastTime < w.lower
    ensures Turned(false, answered, accepts, files, it, n, maxLines, false)
  {
    NothingBehind(accepts, files, it, maxLines, now, w, classes);
    ReachedNext(answered, answered, accepts, files, it, n, maxLines, false);
  }

  /** One turn of the loop over the files; false ends the loop. `whole`: no line has been lost. */
  method AnswerFile(cache: LogCache, query: Query<LogEntry>, it: nat, since: int, until: int, classes: set<nat>,
                    first: seq<seq<Line>>, second: seq<seq<Line>>, ghost now: int, ghost from: nat, ghost n: nat,
                    ghost whole: bool)
    returns (more: bool, ghost appended: seq<Line>)
    requires cache.Sound() && from == it + 1 <= n <= |cache.files| && (cache.files[it].watch || first == second == [])
    requires Streaming(query) && !query.LimitReached() && 0 <= until < 0x1_0000_0000
    requires Prepared(query.accepts, cache.files, cache.maxLines, now, Window(since, until), classes)
    requires AllFit(cache.files, it, first, now) && AllFit(cache.files, it, second, now)
    requires whole ==> Harmless(cache.files[it], second)
    requires whole ==> OnTheWay(query.accepted, query.accepts, cache.files, from, n, cache.maxLines)
    modifies cache, query, query.sorter
    ensures cache.Sound() && GrownDisk(old(cache.files), it, appended, cache.files) && Streaming(query)
    ensures Among(appended, first + second)
    ensures Prepared(query.accepts, cache.files, cache.maxLines, now, Window(since, until), classes)
    ensures more ==> !query.LimitReached()
    ensures whole ==>
              Turned(more, query.accepted, query.accepts, cache.files, it, n, cache.maxLines, query.LimitReached())
  {
    ghost var files, before, w := cache.files, query.accepted, Window(since, until);
    var log := cache.files[it];
    if !log.watch && log.lastTime > 0 && log.lastTime < since {
      appended := NoGrowth(files, it, first + second);
      if whole {
        FileSkipped(before, query.accepts, files, it, n, cache.maxLines, now, w, classes);
      }
      more := false;
      return;
    }
    more, appended := AnswerQueryReverse(cache, it, query, since, until, classes, first, second, now);
    if whole {
      FileAnswered(more, before, query.accepted, query.accepts, files, appended, cache.files, it, n, cache.maxLines,
                   now, w, classes, query.LimitReached());
    }
  }

  lemma WalkedOn(files: seq<Logfile>, newest: nat, appended: seq<Line>, seen: seq<Logfile>, it: nat, lines: seq<Line>,
                 now: seq<Logfile>) returns (all: seq<Line>)
    requires it <= newest < |files| && GrownDisk(files, newest, appended, seen) && GrownDisk(seen, it, lines, now)
    requires if it == newest then seen == files else lines == []
    ensures GrownDisk(files, newest, all, now) && (all == lines || all == appended)
  {
    if it == newest {
      all := lines;
    } else {
      all := appended;
      NothingAppended(seen, it);
      SameDiskTransitive(files[newest := Grown(files[newest], appended)], seen, now);
    }
  }

  lemma OldestReached(answered: seq<LogEntry>, accepts: LogEntry -> bool, files: seq<Logfile>, n: nat, maxLines: nat)
    requires Turned(true, answered, accepts, files, 0, n, maxLines, false)
    ensures Turned(false, answered, accepts, files, 0, n, maxLines, false)
  {
    NewerAndOlder(accepts, files, 0, n, maxLines);
    assert answered + [] == answered;
  }

  /** The walk turns to file `it`; lines arrive only if it is the newest one and watched. */
  method AnswerNext(cache: LogCache, query: Query<LogEntry>, it: nat, since: int, until: int, classes: set<nat>,
                    first: seq<seq<Line>>, second: seq<seq<Line>>, ghost now: int, ghost from: nat, ghost newest: nat,
                    ghost whole: bool, ghost files: seq<Logfile>, ghost appended: seq<Line>)
    returns (more: bool, ghost all: seq<Line>)
    requires cache.Sound() && from == it + 1 && it <= newest < |files|
    requires GrownDisk(files, newest, appended, cache.files)
    requires OnlyNewestWatched(files) && (it == newest ==> cache.files == files)
    requires Streaming(query) && !query.LimitReached() && 0 <= until < 0x1_0000_0000
    requires Prepared(query.accepts, cache.files, cache.maxLines, now, Window(since, until), classes)
    requires AllFit(files, newest, first, now) && AllFit(files, newest, second, now)
    requires whole ==> Harmless(files[newest], second)
    requires whole ==> OnTheWay(query.accepted, query.accepts, cache.files, from, newest + 1, cache.maxLines)
    modifies cache, query, query.sorter
    ensures cache.Sound() && GrownDisk(files, newest, all, cache.files) && Streaming(query)
    ensures all == appended || Among(all, first + second)
    ensures Prepared(query.accepts, cache.files, cache.maxLines, now, Window(since, until), classes)
    ensures more ==> !query.LimitReached()
    ensures whole ==> Turned(more, query.accepted, query.accepts, cache.files, it, newest + 1, cache.maxLines,
                             query.LimitReached())
  {
    ghost var seen, lines := cache.files, [];
    var watch := cache.files[it].watch;
    assert watch ==> it == newest;
    more, lines := AnswerFile(cache, query, it, since, until, classes, if watch then first else [],
                              if watch then second else [], now, from, newest + 1, whole);
    NoneAmong(lines);
    all := WalkedOn(files, newest, appended, seen, it, lines, cache.files);
  }

  /** The loop over the files, newest first. Lines arrive in the newest file only, while it is loaded. */
  method WalkFiles(cache: LogCache, query: Query<LogEntry>, newest: nat, since: int, until: int, classes: set<nat>,
                   first: seq<seq<Line>>, second: seq<seq<Line>>, ghost now: int, ghost whole: bool)
    returns (ghost appended: seq<Line>)
    requires cache.Sound() && newest < |cache.files| && OnlyNewestWatched(cache.files)
    requires Streaming(query) && !query.LimitReached() && 0 <= until < 0x1_0000_0000
    requires Prepared(query.accepts, cache.files, cache.maxLines, now, Window(since, until), classes)
    requires AllFit(cache.files, newest, first, now) && AllFit(cache.files, newest, second, now)
    requires whole ==> AllCoherent(cache.files, cache.maxLines) && query.accepted == []
    requires whole ==> Harmless(cache.files[newest], second)
    modifies cache, query, query.sorter
    ensures cache.Sound() && GrownDisk(old(cache.files), newest, appended, cache.files) && Streaming(query)
    ensures Among(appended, first + second)
    ensures Prepared(query.accepts, cache.files, cache.maxLines, now, Window(since, until), classes)
    ensures whole ==> Turned(false, query.accepted, query.accepts, cache.files, 0, newest + 1, cache.maxLines,
                             query.LimitReached())
  {
    ghost var files := cache.files;
    ghost var from := newest + 1;
    var it := newest;
    appended := NoGrowth(files, newest, first + second);
    while true
      invariant Among(appended, first + second)
      invariant 0 <= it <= newest && from == it + 1 && cache.Sound() && GrownDisk(files, newest, appended, cache.files)
      invariant (it == newest ==> cache.files == files) && Streaming(query) && !query.LimitReached()
      invariant Prepared(query.accepts, cache.files, cache.maxLines, now, Window(since, until), classes)
      invariant whole ==> OnTheWay(query.accepted, query.accepts, cache.files, from, newest + 1, cache.maxLines)
      decreases it
    {
      var more;
      more, appended := AnswerNext(cache, query, it, since, until, classes, first, second, now, from, newest, whole,
                                   files, appended);
      if !more {
        break;
      }
      if it == 0 {
        if whole {
          OldestReached(query.accepted, query.accepts, cache.files, newest + 1, cache.maxLines);
        }
        break;
      }
      from, it := it, it - 1;
    }
  }

  /** Rows behind a reached limit are not printed. */
  lemma FinishedPage(query: Query<LogEntry>, all: seq<LogEntry>)
    requires Streaming(query) && Finished(query.accepted, all, query.LimitReached())
    ensures IsCut(all, query.limit, query.offset, query.printed) && (query.wrappedJson ==> query.currentLine == |all|)
  {
    RequestedIsCut(all, query.limit, query.offset);
  }

  lemma {:induction false} NewestSilent(accepts: LogEntry -> bool, files: seq<Logfile>, maxLines: nat, n: nat)
    requires n <= |files|
    requires forall i | n <= i < |files| ::
               Contribution(accepts, files, i + 1, maxLines) == Contribution(accepts, files, i, maxLines)
    ensures Contribution(accepts, files, n, maxLines) == Contribution(accepts, files, |files|, maxLines)
    decreases |files| - n
  {
    if n < |files| {
      NewestSilent(accepts, files, maxLines, n + 1);
    }
  }

  /** All files newer than `it` start behind the window. */
  ghost predicate NoneInWindow(files: seq<Logfile>, it: nat, until: int) {
    forall i | it < i < |files| :: files[i].since >= until
  }

  /** The newest files do not matter if they start behind the window. */
  lemma NewestSkipped(accepts: LogEntry -> bool, files: seq<Logfile>, maxLines: nat, now: int, w: Window,
                      classes: set<nat>, n: nat)
    requires Prepared(accepts, files, maxLines, now, w, classes) && n <= |files|
    requires forall i | n <= i < |files| :: files[i].since >= w.upper
    ensures Contribution(accepts, files, n, maxLines) == Contribution(accepts, files, |files|, maxLines)
  {
    forall i | n <= i < |files|
      ensures Contribution(accepts, files, i + 1, maxLines) == Contribution(accepts, files, i, maxLines)
    {
      NewFileContributesNothing(accepts, files, i, maxLines, now, w, classes);
    }
    NewestSilent(accepts, files, maxLines, n);
  }

  /** The newest file that does not start behind the window, or the oldest file. */
  method NewestInWindow(files: seq<Logfile>, until: int) returns (it: nat)
    requires files != []
    ensures it < |files| && NoneInWindow(files, it, until)
    ensures it > 0 ==> files[it].since < until
  {
    it := |files| - 1;
    while it != 0 && files[it].since >= until
      invariant 0 <= it < |files| && NoneInWindow(files, it, until)
    {
      it := it - 1;
    }
  }

  // ---------- The whole query ----------

  /** Both walks over the filter tree. */
  method Prepare(filter: Filter, ghost accepts: LogEntry -> bool, ghost files: seq<Logfile>, ghost maxLines: nat,
                 now: int)
    returns (since: int, until: int, classmask: Word)
    requires 0 <= now && now + 1 < 0x1_0000_0000 && maxLines < 0x1_0000_0000
    requires RespectsFilter(filter, accepts) && OrFree(filter, "time") && TimeOrdered(files, maxLines, now)
    ensures Prepared(accepts, files, maxLines, now, Window(since, until), ClassSet(classmask))
    ensures until < 0x1_0000_0000
  {
    var optimized;
    since, until := FindTimeLimits(filter, "time", 0, now + 1);
    optimized, classmask := OptimizeBitmask(filter, "class", AllClasses());
    NarrowNeverWidens(filter, "time", Window(0, now + 1));
    NarrowingIsSound(filter, accepts, now);
  }

  /** What the query prints is the page of filtering the plain scan of all files, and goes back in time. */
  ghost predicate PrintsPlainScan(query: Query<LogEntry>, files: seq<Logfile>, maxLines: nat)
    reads query
  {
    var all := Filtered(query.accepts, PlainScan(files, |files|, maxLines));
    && IsCut(all, query.limit, query.offset, query.printed) && NewestFirst(query.printed)
    && (query.wrappedJson ==> query.currentLine == |all|)
  }

  lemma CutNewestFirst(query: Query<LogEntry>, files: seq<Logfile>, maxLines: nat, now: int, w: Window,
                       classes: set<nat>)
    requires Prepared(query.accepts, files, maxLines, now, w, classes)
    requires IsCut(Contribution(query.accepts, files, |files|, maxLines), query.limit, query.offset, query.printed)
    ensures NewestFirst(query.printed)
  {
    PlainScanNewestFirst(files, |files|, maxLines, now);
    FilteredNewestFirst(query.accepts, PlainScan(files, |files|, maxLines));
  }

  /** Every file starts behind the window. */
  ghost predicate AllBehind(files: seq<Logfile>, until: int) {
    forall i | 0 <= i < |files| :: files[i].since >= until
  }

  lemma OldestBehind(files: seq<Logfile>, it: nat, until: int)
    requires it < |files| && NoneInWindow(files, it, until)
    requires files[it].since >= until && (it > 0 ==> files[it].since < until)
    ensures AllBehind(files, until)
  {
  }

  /** If all files are skipped, or all classes, nothing is accepted. */
  lemma NothingSelected(query: Query<LogEntry>, files: seq<Logfile>, maxLines: nat, now: int, w: Window,
                        classes: set<nat>)
    requires Prepared(query.accepts, files, maxLines, now, w, classes) && Streaming(query) && query.accepted == []
    requires classes == {} || AllBehind(files, w.upper)
    ensures PrintsPlainScan(query, files, maxLines)
  {
    NothingIn(query.accepts, files, |files|, maxLines);
    FinishedPage(query, []);
    CutNewestFirst(query, files, maxLines, now, w, classes);
  }

  lemma NoClasses(classmask: Word)
    ensures classmask == Zero() ==> ClassSet(classmask) == {}
  {
  }

  /** After the walk, rows behind a reached limit and files behind the window do not matter. */
  lemma WalkEnds(query: Query<LogEntry>, files: seq<Logfile>, it: nat, maxLines: nat, now: int, w: Window,
                 classes: set<nat>)
    requires Prepared(query.accepts, files, maxLines, now, w, classes) && Streaming(query) && it < |files|
    requires NoneInWindow(files, it, w.upper)
    requires Turned(false, query.accepted, query.accepts, files, 0, it + 1, maxLines, query.LimitReached())
    ensures AllCoherent(files, maxLines) && PrintsPlainScan(query, files, maxLines)
  {
    NewestSkipped(query.accepts, files, maxLines, now, w, classes, it + 1);
    FinishedPage(query, Contribution(query.accepts, files, |files|, maxLines));
    CutNewestFirst(query, files, maxLines, now, w, classes);
  }

  lemma GrownOnlyNewest(files: seq<Logfile>, it: nat, appended: seq<Line>, now: seq<Logfile>, newest: bool)
    requires it < |files| && GrownDisk(files, it, appended, now)
    requires if newest then it == |files| - 1 else appended == []
    ensures GrownDisk(files, |files| - 1, appended, now)
  {
    NothingAppended(files, it);
    NothingAppended(files, |files| - 1);
  }

  /** The walk from file `it` on, behind which no file is in the window. */
  method WalkFrom(cache: LogCache, query: Query<LogEntry>, it: nat, since: int, until: int, classes: set<nat>,
                  first: seq<seq<Line>>, second: seq<seq<Line>>, ghost now: int, ghost last: nat, ghost whole: bool)
    returns (ghost appended: seq<Line>)
    requires cache.Sound() && it <= last == |cache.files| - 1 && OnlyNewestWatched(cache.files)
    requires Streaming(query) && !query.LimitReached() && 0 <= until < 0x1_0000_0000
    requires Prepared(query.accepts, cache.files, cache.maxLines, now, Window(since, until), classes)
    requires NoneInWindow(cache.files, it, until)
    requires AllFit(cache.files, last, first, now) && AllFit(cache.files, last, second, now)
    requires whole ==> AllCoherent(cache.files, cache.maxLines) && query.accepted == []
    requires whole ==> Harmless(cache.files[last], second)
    modifies cache, query, query.sorter
    ensures cache.Sound() && Streaming(query) && Among(appended, first + second)
    ensures GrownDisk(old(cache.files), last, appended, cache.files)
    ensures whole ==> cache.Settled() && PrintsPlainScan(query, cache.files, cache.maxLines)
  {
    ghost var files := cache.files;
    var newest := it == |cache.files| - 1;
    appended := WalkFiles(cache, query, it, since, until, classes, if newest then first else [],
                          if newest then second else [], now, whole);
    if whole {
      NoneInWindowStays(files, it, appended, cache.files, until);
      WalkEnds(query, cache.files, it, cache.maxLines, now, Window(since, until), classes);
    }
    NoneAmong(appended);
    GrownOnlyNewest(files, it, appended, cache.files, newest);
  }

  lemma NoneInWindowStays(files: seq<Logfile>, it: nat, appended: seq<Line>, now: seq<Logfile>, until: int)
    requires it < |files| && GrownDisk(files, it, appended, now) && NoneInWindow(files, it, until)
    ensures NoneInWindow(now, it, until)
  {
  }

  /** The search for the newest file in the window, and the walk from there. `whole`: no line is lost. */
  method AnswerWindow(cache: LogCache, query: Query<LogEntry>, since: int, until: int, classes: set<nat>,
                      first: seq<seq<Line>>, second: seq<seq<Line>>, ghost now: int, ghost whole: bool)
    returns (ghost appended: seq<Line>)
    requires cache.Sound() && cache.files != [] && OnlyNewestWatched(cache.files)
    requires Streaming(query) && query.accepted == [] && until < 0x1_0000_0000
    requires Prepared(query.accepts, cache.files, cache.maxLines, now, Window(since, until), classes)
    requires AllFit(cache.files, |cache.files| - 1, first, now) && AllFit(cache.files, |cache.files| - 1, second, now)
    requires whole ==> AllCoherent(cache.files, cache.maxLines) && Harmless(cache.files[|cache.files| - 1], second)
    modifies cache, query, query.sorter
    ensures cache.Sound() && Streaming(query) && Among(appended, first + second)
    ensures GrownDisk(old(cache.files), |old(cache.files)| - 1, appended, cache.files)
    ensures whole ==> cache.Settled() && PrintsPlainScan(query, cache.files, cache.maxLines)
  {
    ghost var files, last := cache.files, |cache.files| - 1;
    appended := NoGrowth(files, last, first + second);
    var it := NewestInWindow(cache.files, until);
    if cache.files[it].since >= until {
      OldestBehind(files, it, until);
      NothingSelected(query, files, cache.maxLines, now, Window(since, until), classes);
      return;
    }
    appended := WalkFrom(cache, query, it, since, until, classes, first, second, now, last, whole);
  }

  /** What follows the walks over the filter: no class is wanted, or the files are searched. */
  method AnswerClasses(cache: LogCache, query: Query<LogEntry>, since: int, until: int, classmask: Word,
                       first: seq<seq<Line>>, second: seq<seq<Line>>, ghost now: int, ghost whole: bool)
    returns (ghost appended: seq<Line>)
    requires cache.Sound() && cache.files != [] && OnlyNewestWatched(cache.files)
    requires Streaming(query) && query.accepted == [] && until < 0x1_0000_0000
    requires Prepared(query.accepts, cache.files, cache.maxLines, now, Window(since, until), ClassSet(classmask))
    requires AllFit(cache.files, |cache.files| - 1, first, now) && AllFit(cache.files, |cache.files| - 1, second, now)
    requires whole ==> AllCoherent(cache.files, cache.maxLines) && Harmless(cache.files[|cache.files| - 1], second)
    modifies cache, query, query.sorter
    ensures cache.Sound() && Streaming(query) && Among(appended, first + second)
    ensures GrownDisk(old(cache.files), |old(cache.files)| - 1, appended, cache.files)
    ensures whole ==> cache.Settled() && PrintsPlainScan(query, cache.files, cache.maxLines)
  {
    ghost var files, last := cache.files, |cache.files| - 1;
    appended := NoGrowth(files, last, first + second);
    if classmask == Zero() {
      NoClasses(classmask);
      NothingSelected(query, files, cache.maxLines, now, Window(since, until), ClassSet(classmask));
      return;
    }
    appended := AnswerWindow(cache, query, since, until, ClassSet(classmask), first, second, now, whole);
  }

  /**
   TableLog::answerQuery: prints what filtering the plain scan of all files would print. While the newest file is
   loaded, lines arrive in it; the scan is that of the grown file. The lines that arrive during the second read of its
   load must not be of a class that counts as read, since such lines are lost.
   */
  method AnswerQuery(cache: LogCache, query: Query<LogEntry>, filter: Filter, now: int, first: seq<seq<Line>>,
                     second: seq<seq<Line>>) returns (ghost appended: seq<Line>)
    requires cache.Sound() && cache.files != [] && 0 <= now && now + 1 < 0x1_0000_0000
    requires Streaming(query) && query.accepted == [] && OnlyNewestWatched(cache.files)
    requires RespectsFilter(filter, query.accepts) && OrFree(filter, "time")
    requires TimeOrdered(cache.files, cache.maxLines, now)
    requires AllFit(cache.files, |cache.files| - 1, first, now) && AllFit(cache.files, |cache.files| - 1, second, now)
    modifies cache, query, query.sorter
    ensures cache.Sound() && Streaming(query) && Among(appended, first + second)
    ensures GrownDisk(old(cache.files), |old(cache.files)| - 1, appended, cache.files)
    ensures old(cache.Settled()) && Harmless(old(cache.files)[|old(cache.files)| - 1], second) ==>
              cache.Settled() && PrintsPlainScan(query, cache.files, cache.maxLines)
  {
    ghost var whole := cache.Settled() && Harmless(cache.files[|cache.files| - 1], second);
    var since, until, classmask := Prepare(filter, query.accepts, cache.files, cache.maxLines, now);
    appended := AnswerClasses(cache, query, since, until, classmask, first, second, now, whole);
  }
}
