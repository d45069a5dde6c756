/** Limit: and Offset: on the sorted and on the unsorted path, as slices of the result (src/Query.cc). */
module Paging {
  import opened RowSortedSets

  /** Positions lo..hi-1 of a result. */
  datatype Slice = Slice(lo: nat, hi: nat)

  function Least(a: nat, b: nat): nat {
    if a <= b then a else b
  }

  /** What the headers ask for; `limit` is -1 without a Limit: header. */
  function RequestedSlice(limit: int, offset: nat, n: nat): (s: Slice)
    ensures s.lo <= s.hi <= n
  {
    Slice(Least(offset, n), if limit < 0 then n else Least(offset + limit, n))
  }

  /** The number of n inserted rows that are still in the sorter at the end. */
  function KeptRows(limit: int, offset: nat, n: nat): nat {
    if limit + offset > 0 then Least(n, limit + offset) else n
  }

  /** `numelems` in Query::finish: how many rows to take out of the sorter, all of them when negative. */
  function RowsToTake(limit: int, offset: nat, kept: nat): int {
    if limit + offset > kept then (if kept < offset then 0 else kept - offset) else limit
  }

  /** What the sorted path prints: the greatest `RowsToTake` of the smallest `KeptRows`. */
  function PrintedSlice(limit: int, offset: nat, n: nat): (s: Slice)
    ensures s.lo <= s.hi <= n
  {
    var kept := KeptRows(limit, offset, n);
    var take := RowsToTake(limit, offset, kept);
    Slice(if take < 0 then 0 else kept - Least(take, kept), kept)
  }

  predicate SameRows(a: Slice, b: Slice) {
    a == b || (a.lo == a.hi && b.lo == b.hi)
  }

  /** The sorted path prints the requested slice for every number of rows exactly with a Limit or without an Offset. */
  lemma SortedPathPrintsRequested(limit: int, offset: nat)
    requires limit >= -1
    ensures (forall n: nat :: SameRows(PrintedSlice(limit, offset, n), RequestedSlice(limit, offset, n))) <==>
            limit >= 0 || offset == 0
  {
    if limit < 0 && offset > 0 {
      assert !SameRows(PrintedSlice(limit, offset, offset), RequestedSlice(limit, offset, offset));
    }
  }

  /** With a Limit both paths print min(limit, max(0, n - offset)) rows. */
  lemma PathsPrintEquallyMany(limit: nat, offset: nat, n: nat)
    ensures var sorted, unsorted := PrintedSlice(limit, offset, n), RequestedSlice(limit, offset, n);
            sorted.hi - sorted.lo == unsorted.hi - unsorted.lo == Least(limit, if n < offset then 0 else n - offset)
  {
  }

  // ---------- Pages of sorted rows ----------

  ghost predicate IsSorted<T>(columns: seq<SortColumn<T>>, s: seq<T>) {
    forall i, j | 0 <= i < j < |s| :: NotAbove(columns, s[i], s[j])
  }

  /** `page` is that slice of the rows in some sorted order; rows that compare as equal may stand in any order. */
  ghost predicate IsPage<T(!new)>(columns: seq<SortColumn<T>>, rows: seq<T>, slice: Slice, page: seq<T>) {
    exists s: seq<T> ::
      IsSorted(columns, s) && multiset(s) == multiset(rows) && slice.lo <= slice.hi <= |s| &&
        page == s[slice.lo..slice.hi]
  }

  lemma {:induction false} SortedCopy<T(!new)>(columns: seq<SortColumn<T>>, rows: seq<T>) returns (s: seq<T>)
    requires AreOrders(columns)
    ensures IsSorted(columns, s) && multiset(s) == multiset(rows)
  {
    s := [];
    if rows != [] {
      var x, rest := rows[|rows| - 1], rows[..|rows| - 1];
      assert rows == rest + [x];
      var below := SortedCopy(columns, rest);
      s := InsertedCopy(columns, below, x);
    }
  }

  lemma {:induction false} InsertedCopy<T(!new)>(columns: seq<SortColumn<T>>, below: seq<T>, x: T) returns (s: seq<T>)
    requires AreOrders(columns) && IsSorted(columns, below)
    ensures IsSorted(columns, s) && multiset(s) == multiset(below) + multiset{x}
  {
    CompareIsOrder(columns);
    if below == [] || NotAbove(columns, below[|below| - 1], x) {
      s := below + [x];
    } else {
      var last, rest := below[|below| - 1], below[..|below| - 1];
      assert below == rest + [last];
      var t := InsertedCopy(columns, rest, x);
      s := t + [last];
      forall i | 0 <= i < |t|
        ensures NotAbove(columns, t[i], last)
      {
        assert t[i] in multiset(t);
        assert t[i] == x || t[i] in rest;
      }
    }
  }

  lemma SortedParts<T>(columns: seq<SortColumn<T>>, low: seq<T>, high: seq<T>)
    requires IsSorted(columns, low) && IsSorted(columns, high) && AllNotAbove(columns, low, high)
    ensures IsSorted(columns, low + high)
  {
  }

  lemma AllNotAboveParts<T>(columns: seq<SortColumn<T>>, low: seq<T>, high: seq<T>, low': seq<T>, high': seq<T>)
    requires AllNotAbove(columns, low, high) && multiset(low') <= multiset(low) && multiset(high') <= multiset(high)
    ensures AllNotAbove(columns, low', high')
  {
    forall i, j | 0 <= i < |low'| && 0 <= j < |high'|
      ensures NotAbove(columns, low'[i], high'[j])
    {
      assert low'[i] in multiset(low') && high'[j] in multiset(high');
      assert low'[i] in low && high'[j] in high;
    }
  }

  /** Rows left in the heap, rows taken out in order and rows dropped earlier make up a sorted whole. */
  lemma PageOfParts<T(!new)>(columns: seq<SortColumn<T>>, rows: seq<T>, rest: seq<T>, page: seq<T>, dropped: seq<T>)
    requires AreOrders(columns) && IsSorted(columns, page)
    requires multiset(rest) + multiset(page) + multiset(dropped) == multiset(rows)
    requires AllNotAbove(columns, rest, page) && AllNotAbove(columns, rest + page, dropped)
    ensures IsPage(columns, rows, Slice(|rest|, |rest| + |page|), page)
  {
    var low := SortedCopy(columns, rest);
    var high := SortedCopy(columns, dropped);
    assert |low| == |multiset(low)| == |rest|;
    AllNotAboveParts(columns, rest, page, low, page);
    SortedParts(columns, low, page);
    assert multiset(low + page) == multiset(rest + page);
    AllNotAboveParts(columns, rest + page, dropped, low + page, high);
    SortedParts(columns, low + page, high);
    MiddlePart(columns, rows, low, page, high);
  }

  lemma MiddlePart<T(!new)>(columns: seq<SortColumn<T>>, rows: seq<T>, low: seq<T>, page: seq<T>, high: seq<T>)
    requires IsSorted(columns, low + page + high) && multiset(low) + multiset(page) + multiset(high) == multiset(rows)
    ensures IsPage(columns, rows, Slice(|low|, |low| + |page|), page)
  {
    var s := low + page + high;
    assert multiset(s) == multiset(rows);
    assert s[|low|..|low| + |page|] == page;
  }

  // ---------- What the headers mean ----------

  /** `printed` are the rows from position `offset` on, at most `limit` of them unless that is negative. */
  ghost predicate IsCut<T>(all: seq<T>, limit: int, offset: nat, printed: seq<T>) {
    var left := if |all| < offset then 0 else |all| - offset;
    && |printed| == (if 0 <= limit < left then limit else left)
    && forall i | 0 <= i < |printed| :: printed[i] == all[offset + i]
  }

  lemma RequestedIsCut<T>(all: seq<T>, limit: int, offset: nat)
    requires limit >= -1
    ensures var slice := RequestedSlice(limit, offset, |all|); IsCut(all, limit, offset, all[slice.lo..slice.hi])
  {
  }

  ghost predicate SortedBy<T>(columns: seq<SortColumn<T>>, s: seq<T>) {
    forall i, j | 0 <= i < j < |s| :: MayPrecede(columns, s[i], s[j])
  }

  lemma SortedMeans<T>(columns: seq<SortColumn<T>>, s: seq<T>)
    ensures IsSorted(columns, s) <==> SortedBy(columns, s)
  {
    forall i, j | 0 <= i < j < |s|
      ensures NotAbove(columns, s[i], s[j]) <==> MayPrecede(columns, s[i], s[j])
    {
      NotAboveMeans(columns, s[i], s[j]);
    }
  }

  /**
   What is printed of sorted rows: with a Limit, or without an Offset, what the headers ask for; with an Offset k alone
   all rows if k is 1, and otherwise the first k - 1 rows if there are that many.
   */
  ghost predicate IsSortedCut<T>(s: seq<T>, limit: int, offset: nat, page: seq<T>) {
    if limit >= 0 || offset == 0 then IsCut(s, limit, offset, page)
    else page == if offset == 1 then s else if |s| < offset - 1 then [] else s[..offset - 1]
  }

  /** The page is sorted, and what is printed of all rows in some sorted order. */
  ghost predicate IsAnswerPage<T(!new)>(columns: seq<SortColumn<T>>, rows: seq<T>, limit: int, offset: nat,
                                        page: seq<T>) {
    && SortedBy(columns, page)
    && exists s: seq<T> ::
         SortedBy(columns, s) && multiset(s) == multiset(rows) && IsSortedCut(s, limit, offset, page)
  }

  lemma PrintedIsSortedCut<T>(s: seq<T>, limit: int, offset: nat)
    requires limit >= -1
    ensures var slice := PrintedSlice(limit, offset, |s|); IsSortedCut(s, limit, offset, s[slice.lo..slice.hi])
  {
    var printed, requested := PrintedSlice(limit, offset, |s|), RequestedSlice(limit, offset, |s|);
    if limit >= 0 || offset == 0 {
      SortedPathPrintsRequested(limit, offset);
      assert SameRows(printed, requested);
      assert s[printed.lo..printed.hi] == s[requested.lo..requested.hi];
      RequestedIsCut(s, limit, offset);
    } else {
      assert s[0..|s|] == s;
    }
  }

  /** With a Limit, or without an Offset, the printed page is the requested one. */
  lemma PrintedPageIsRequested<T(!new)>(columns: seq<SortColumn<T>>, rows: seq<T>, limit: int, offset: nat,
                                        page: seq<T>)
    requires limit >= -1 && IsPage(columns, rows, PrintedSlice(limit, offset, |rows|), page)
    ensures IsAnswerPage(columns, rows, limit, offset, page)
  {
    var printed := PrintedSlice(limit, offset, |rows|);
    var s: seq<T> :| IsSorted(columns, s) && multiset(s) == multiset(rows) && printed.lo <= printed.hi <= |s| &&
                     page == s[printed.lo..printed.hi];
    assert |multiset(s)| == |multiset(rows)|;
    SortedMeans(columns, s);
    SortedMeans(columns, page);
    PrintedIsSortedCut(s, limit, offset);
    assert IsSorted(columns, page);
  }
}
