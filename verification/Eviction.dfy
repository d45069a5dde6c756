/**
 What LogCache::handleNewMessage does to the cached entries (src/LogCache.cc),
 as a function of all files, oldest first.
 */
module Eviction {
  import opened Logfiles

  datatype Swept = Swept(files: seq<Logfile>, num: int, done: bool)

  function Total(files: seq<Logfile>): nat {
    if files == [] then 0 else Total(files[..|files| - 1]) + |files[|files| - 1].entries|
  }

  /** Flushes files from i up to the file `end`, oldest first, until few enough entries are left. */
  function FlushRange(files: seq<Logfile>, num: int, i: nat, end: nat, max: int): Swept
    requires i <= end <= |files|
    decreases end - i
  {
    if i == end then Swept(files, num, false)
    else if files[i].entries == [] then FlushRange(files, num, i + 1, end, max)
    else
      var left, rest := num - |files[i].entries|, files[i := Flushed(files[i])];
      if left <= max then Swept(rest, left, true) else FlushRange(rest, left, i + 1, end, max)
  }

  /** Drops from file i on the classes that the query does not need. */
  function FreeRange(files: seq<Logfile>, num: int, i: nat, max: int, keep: set<nat>): Swept
    requires i <= |files|
    decreases |files| - i
  {
    if i == |files| then Swept(files, num, false)
    else if files[i].entries == [] || files[i].classesRead <= keep then FreeRange(files, num, i + 1, max, keep)
    else
      var freed := Freed(files[i], keep);
      var left, rest := num - (|files[i].entries| - |freed.entries|), files[i := freed];
      if left <= max then Swept(rest, left, true) else FreeRange(rest, left, i + 1, max, keep)
  }

  /** The flushing loop, at file i with these caches, will end in `target`. */
  ghost predicate FlushesTo(files: seq<Logfile>, num: int, i: nat, end: nat, max: int, target: Swept) {
    i <= end <= |files| && FlushRange(files, num, i, end, max) == target
  }

  lemma FlushStep(files: seq<Logfile>, num: int, i: nat, end: nat, max: int, target: Swept)
    requires FlushesTo(files, num, i, end, max, target) && i < end
    ensures files[i].entries == [] ==> FlushesTo(files, num, i + 1, end, max, target)
    ensures files[i].entries != [] ==>
              var left, rest := num - |files[i].entries|, files[i := Flushed(files[i])];
              if left <= max then target == Swept(rest, left, true) else FlushesTo(rest, left, i + 1, end, max, target)
  {
  }

  ghost predicate FreesTo(files: seq<Logfile>, num: int, i: nat, max: int, keep: set<nat>, target: Swept) {
    i <= |files| && FreeRange(files, num, i, max, keep) == target
  }

  lemma FreeStep(files: seq<Logfile>, num: int, i: nat, max: int, keep: set<nat>, target: Swept)
    requires FreesTo(files, num, i, max, keep, target) && i < |files|
    ensures files[i].entries == [] || files[i].classesRead <= keep ==> FreesTo(files, num, i + 1, max, keep, target)
    ensures files[i].entries != [] && !(files[i].classesRead <= keep) ==>
              var freed := Freed(files[i], keep);
              var left, rest := num - (|files[i].entries| - |freed.entries|), files[i := freed];
              if left <= max then target == Swept(rest, left, true) else FreesTo(rest, left, i + 1, max, keep, target)
  {
  }

  /** The three phases: older files, classes of the current and newer files, newer files. */
  function Sweep(files: seq<Logfile>, num: int, cur: nat, max: int, keep: set<nat>): Swept
    requires cur < |files|
  {
    var older := FlushRange(files, num, 0, cur, max);
    FlushRangeShape(files, num, 0, cur, max);
    if older.done then older
    else
      var classes := FreeRange(older.files, older.num, cur, max, keep);
      FreeRangeShape(older.files, older.num, cur, max, keep);
      if classes.done then classes else FlushRange(classes.files, classes.num, cur + 1, |files|, max)
  }

  lemma {:induction false} FlushRangeShape(files: seq<Logfile>, num: int, i: nat, end: nat, max: int)
    requires i <= end <= |files|
    ensures var s := FlushRange(files, num, i, end, max);
            && |s.files| == |files|
            && (forall j | 0 <= j < |files| ::
                  s.files[j] == files[j] || (i <= j < end && s.files[j] == Flushed(files[j])))
            && (s.done ==> s.num <= max)
            && (!s.done ==> forall j | i <= j < end :: s.files[j].entries == [])
            && (forall j, k | i <= j < k < |files| && s.files[j].entries != [] :: s.files[k] == files[k])
    decreases end - i
  {
    if i < end {
      if files[i].entries == [] {
        FlushRangeShape(files, num, i + 1, end, max);
      } else {
        FlushRangeShape(files[i := Flushed(files[i])], num - |files[i].entries|, i + 1, end, max);
      }
    }
  }

  lemma {:induction false} FreeRangeShape(files: seq<Logfile>, num: int, i: nat, max: int, keep: set<nat>)
    requires i <= |files|
    ensures var s := FreeRange(files, num, i, max, keep);
            && |s.files| == |files|
            && (forall j | 0 <= j < |files| ::
                  s.files[j] == files[j] || (i <= j && s.files[j] == Freed(files[j], keep)))
            && (s.done ==> s.num <= max)
            && (!s.done ==> forall j | i <= j < |files| :: s.files[j].entries == [] || s.files[j].classesRead <= keep)
    decreases |files| - i
  {
    if i < |files| {
      if files[i].entries == [] || files[i].classesRead <= keep {
        FreeRangeShape(files, num, i + 1, max, keep);
      } else {
        FreeRangeShape(files[i := Freed(files[i], keep)],
                       num - (|files[i].entries| - |Freed(files[i], keep).entries|), i + 1, max, keep);
      }
    }
  }

  lemma {:induction false} TotalUpdate(files: seq<Logfile>, i: nat, f: Logfile)
    requires i < |files|
    ensures Total(files[i := f]) == Total(files) - |files[i].entries| + |f.entries|
  {
    var n := |files| - 1;
    if i < n {
      TotalUpdate(files[..n], i, f);
      assert files[i := f][..n] == files[..n][i := f];
    } else {
      assert files[i := f][..n] == files[..n];
    }
  }

  lemma {:induction false} FlushRangeAccounting(files: seq<Logfile>, num: int, i: nat, end: nat, max: int)
    requires i <= end <= |files| && num == Total(files)
    ensures FlushRange(files, num, i, end, max).num == Total(FlushRange(files, num, i, end, max).files)
    decreases end - i
  {
    if i < end {
      if files[i].entries == [] {
        FlushRangeAccounting(files, num, i + 1, end, max);
      } else {
        TotalUpdate(files, i, Flushed(files[i]));
        FlushRangeAccounting(files[i := Flushed(files[i])], num - |files[i].entries|, i + 1, end, max);
      }
    }
  }

  lemma {:induction false} FreeRangeAccounting(files: seq<Logfile>, num: int, i: nat, max: int, keep: set<nat>)
    requires i <= |files| && num == Total(files)
    ensures FreeRange(files, num, i, max, keep).num == Total(FreeRange(files, num, i, max, keep).files)
    decreases |files| - i
  {
    if i < |files| {
      if files[i].entries == [] || files[i].classesRead <= keep {
        FreeRangeAccounting(files, num, i + 1, max, keep);
      } else {
        var freed := Freed(files[i], keep);
        TotalUpdate(files, i, freed);
        FreeRangeAccounting(files[i := freed], num - (|files[i].entries| - |freed.entries|), i + 1, max, keep);
      }
    }
  }

  /** The global counter is again the number of all cached entries. */
  lemma SweepAccounting(files: seq<Logfile>, num: int, cur: nat, max: int, keep: set<nat>)
    requires cur < |files| && num == Total(files)
    ensures Sweep(files, num, cur, max, keep).num == Total(Sweep(files, num, cur, max, keep).files)
  {
    var older := FlushRange(files, num, 0, cur, max);
    FlushRangeShape(files, num, 0, cur, max);
    FlushRangeAccounting(files, num, 0, cur, max);
    if !older.done {
      var classes := FreeRange(older.files, older.num, cur, max, keep);
      FreeRangeShape(older.files, older.num, cur, max, keep);
      FreeRangeAccounting(older.files, older.num, cur, max, keep);
      if !classes.done {
        FlushRangeAccounting(classes.files, classes.num, cur + 1, |files|, max);
      }
    }
  }

  /**
   The outcome of a sweep, file by file. The current file keeps the query's classes. Old files go first: while an older
   file still has entries, no later file has been touched. A sweep that ends above the maximum has left every file but
   the current one empty.
   */
  lemma SweepOutcome(files: seq<Logfile>, num: int, cur: nat, max: int, keep: set<nat>)
    requires cur < |files|
    ensures var s := Sweep(files, num, cur, max, keep);
            && |s.files| == |files|
            && (forall j | 0 <= j < |files| ::
                  s.files[j] == files[j] || s.files[j] == Flushed(files[j]) || s.files[j] == Freed(files[j], keep))
            && (s.files[cur] == files[cur] || s.files[cur] == Freed(files[cur], keep))
            && (forall j, k | 0 <= j < k < |files| && j < cur && s.files[j].entries != [] :: s.files[k] == files[k])
            && (s.num > max ==> forall j | 0 <= j < |files| && j != cur :: s.files[j].entries == [])
            && (s.num > max ==> s.files[cur].entries == [] || s.files[cur].classesRead <= keep)
  {
    var older := FlushRange(files, num, 0, cur, max);
    FlushRangeShape(files, num, 0, cur, max);
    if !older.done {
      var classes := FreeRange(older.files, older.num, cur, max, keep);
      FreeRangeShape(older.files, older.num, cur, max, keep);
      if !classes.done {
        FlushRangeShape(classes.files, classes.num, cur + 1, |files|, max);
      }
    }
  }

  lemma {:induction false} TotalOfOne(files: seq<Logfile>, cur: nat)
    requires cur < |files| && forall j | 0 <= j < |files| && j != cur :: files[j].entries == []
    ensures Total(files) == |files[cur].entries|
  {
    var n := |files| - 1;
    if cur < n {
      TotalOfOne(files[..n], cur);
    } else {
      TotalOfNone(files[..n]);
    }
  }

  lemma {:induction false} TotalOfNone(files: seq<Logfile>)
    requires forall j | 0 <= j < |files| :: files[j].entries == []
    ensures Total(files) == 0
  {
    if files != [] {
      TotalOfNone(files[..|files| - 1]);
    }
  }

  /** A sweep ends at or below the maximum, or with nothing but the current file. */
  lemma SweepBound(files: seq<Logfile>, num: int, cur: nat, max: int, keep: set<nat>)
    requires cur < |files| && num == Total(files)
    ensures var s := Sweep(files, num, cur, max, keep);
            cur < |s.files| && (s.num <= max || s.num == |s.files[cur].entries|)
  {
    SweepAccounting(files, num, cur, max, keep);
    SweepOutcome(files, num, cur, max, keep);
    var s := Sweep(files, num, cur, max, keep);
    if s.num > max {
      TotalOfOne(s.files, cur);
    }
  }

  // ---------- When a sweep stops ----------

  /** All entries of the file are gone, and nothing else. */
  ghost predicate IsEmptied(f: Logfile, g: Logfile) {
    g.entries == [] && g.classesRead == {} && g.(entries := f.entries, classesRead := f.classesRead) == f
  }

  /** Exactly the entries of these classes are left, and nothing else has changed. */
  ghost predicate IsFreed(f: Logfile, g: Logfile, keep: set<nat>) {
    && (forall e :: e in g.entries <==> e in f.entries && e.logclass in keep)
    && (forall c :: c in g.classesRead <==> c in f.classesRead && c in keep)
    && g.(entries := f.entries, classesRead := f.classesRead) == f
  }

  lemma FreedIsFreed(f: Logfile, keep: set<nat>)
    ensures IsFreed(f, Freed(f, keep), keep)
  {
    OfClassesElements(f.entries, keep);
  }

  /** A flushing loop that ends with few enough entries has emptied this file last, and needed to. */
  ghost predicate EmptiedLast(files: seq<Logfile>, s: Swept, last: nat, max: int) {
    && |s.files| == |files| && last < |files|
    && IsEmptied(files[last], s.files[last]) && s.num + |files[last].entries| > max
    && forall j | last < j < |files| :: s.files[j] == files[j]
  }

  ghost predicate FreedLast(files: seq<Logfile>, s: Swept, last: nat, max: int, keep: set<nat>) {
    && |s.files| == |files| && last < |files|
    && IsFreed(files[last], s.files[last], keep) && s.num + |files[last].entries| - |s.files[last].entries| > max
    && forall j | last < j < |files| :: s.files[j] == files[j]
  }

  lemma {:induction false} FlushStops(files: seq<Logfile>, num: int, i: nat, end: nat, max: int) returns (last: nat)
    requires i <= end <= |files| && num > max
    ensures var s := FlushRange(files, num, i, end, max);
            && (s.done <==> s.num <= max)
            && (s.done ==> i <= last < end && EmptiedLast(files, s, last, max))
    decreases end - i
  {
    if i == end {
      last := i;
    } else if files[i].entries == [] {
      last := FlushStops(files, num, i + 1, end, max);
    } else {
      var left, rest := num - |files[i].entries|, files[i := Flushed(files[i])];
      last := i;
      if left > max {
        last := FlushStops(rest, left, i + 1, end, max);
      }
    }
  }

  lemma {:induction false} FreeStops(files: seq<Logfile>, num: int, i: nat, max: int, keep: set<nat>)
    returns (last: nat)
    requires i <= |files| && num > max
    ensures var s := FreeRange(files, num, i, max, keep);
            && (s.done <==> s.num <= max)
            && (s.done ==> i <= last < |files| && FreedLast(files, s, last, max, keep))
    decreases |files| - i
  {
    if i == |files| {
      last := i;
    } else if files[i].entries == [] || files[i].classesRead <= keep {
      last := FreeStops(files, num, i + 1, max, keep);
    } else {
      var freed := Freed(files[i], keep);
      var left, rest := num - (|files[i].entries| - |freed.entries|), files[i := freed];
      FreedIsFreed(files[i], keep);
      last := i;
      if left > max {
        last := FreeStops(rest, left, i + 1, max, keep);
      }
    }
  }

  /** The first files are empty. */
  ghost predicate EmptyBefore(files: seq<Logfile>, cur: nat) {
    forall j | 0 <= j < |files| && j < cur :: files[j].entries == []
  }

  /** From file `cur` on nothing is left to be freed. */
  ghost predicate FreedFrom(files: seq<Logfile>, cur: nat, keep: set<nat>) {
    forall j | cur <= j < |files| :: files[j].entries == [] || files[j].classesRead <= keep
  }

  /**
   Where a sweep ends that leaves few enough entries, with the file that it has touched last and without which too many
   would be left: in its first phase with an older file; in the second one, with all older files empty, with a file of
   which classes are freed; in the third one, when nothing is left to be freed, with a newer file.
   */
  ghost predicate EndsWith(files: seq<Logfile>, s: Swept, cur: nat, max: int, keep: set<nat>, last: nat) {
    || (last < cur && EmptiedLast(files, s, last, max))
    || (cur <= last && EmptyBefore(s.files, cur) &&
        exists older :: EmptiesOnly(files, older, cur) && FreedLast(older, s, last, max, keep))
    || (cur < last && EmptyBefore(s.files, cur) && FreedFrom(s.files, cur, keep) &&
        exists classes :: FreesOnly(files, classes, cur, keep) && FreedFrom(classes, cur, keep) &&
                          EmptiedLast(classes, s, last, max))
  }

  /** Only the files before `cur` differ. */
  ghost predicate EmptiesOnly(files: seq<Logfile>, older: seq<Logfile>, cur: nat) {
    |older| == |files| && forall j | cur <= j < |files| :: older[j] == files[j]
  }

  /** From `cur` on, the files have at most been rid of the other classes. */
  ghost predicate FreesOnly(files: seq<Logfile>, classes: seq<Logfile>, cur: nat, keep: set<nat>) {
    |classes| == |files| &&
    forall j | cur <= j < |files| :: classes[j] == files[j] || IsFreed(files[j], classes[j], keep)
  }

  /** A sweep stops as soon as few enough entries are left: without the last file that it touched, too many would be. */
  lemma SweepStopsInTime(files: seq<Logfile>, num: int, cur: nat, max: int, keep: set<nat>) returns (last: nat)
    requires cur < |files| && num > max
    ensures var s := Sweep(files, num, cur, max, keep);
            && (s.num <= max ==> EndsWith(files, s, cur, max, keep, last))
            && (s.num > max ==> FreedFrom(s.files, cur, keep) && forall j | 0 <= j < |s.files| && j != cur ::
                                                                      s.files[j].entries == [])
  {
    SweepOutcome(files, num, cur, max, keep);
    var older := FlushRange(files, num, 0, cur, max);
    FlushRangeShape(files, num, 0, cur, max);
    last := FlushStops(files, num, 0, cur, max);
    if !older.done {
      var classes := FreeRange(older.files, older.num, cur, max, keep);
      FreeRangeShape(older.files, older.num, cur, max, keep);
      last := FreeStops(older.files, older.num, cur, max, keep);
      assert EmptiesOnly(files, older.files, cur);
      if !classes.done {
        var newer := FlushRange(classes.files, classes.num, cur + 1, |files|, max);
        FlushRangeShape(classes.files, classes.num, cur + 1, |files|, max);
        last := FlushStops(classes.files, classes.num, cur + 1, |files|, max);
        FreesOnlyFrom(files, older.files, classes.files, cur, keep);
      }
    }
  }

  lemma FreesOnlyFrom(files: seq<Logfile>, older: seq<Logfile>, classes: seq<Logfile>, cur: nat, keep: set<nat>)
    requires EmptiesOnly(files, older, cur) && |classes| == |older|
    requires forall j | cur <= j < |older| :: classes[j] == older[j] || classes[j] == Freed(older[j], keep)
    ensures FreesOnly(files, classes, cur, keep)
  {
    forall j | cur <= j < |files|
      ensures classes[j] == files[j] || IsFreed(files[j], classes[j], keep)
    {
      FreedIsFreed(files[j], keep);
    }
  }
}
