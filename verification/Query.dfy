/** Query::processDataset and Query::finish: filtering, paging, sorting and grouped statistics (src/Query.cc). */
module Queries {
  import opened Basics
  import opened RowSortedSets
  import opened Paging
  import opened Aggregators

  type GroupSpec = seq<string>

  /** One printed line of a Stats: query. */
  datatype StatsLine = StatsLine(group: GroupSpec, values: seq<Shown>)

  lemma FilteredNext<T>(accepts: T -> bool, rows: seq<T>, i: nat)
    requires i < |rows|
    ensures Filtered(accepts, rows[..i + 1]) == Filtered(accepts, rows[..i]) + Filtered(accepts, [rows[i]])
  {
    FilteredAppend(accepts, rows[..i], [rows[i]]);
    assert rows[..i] + [rows[i]] == rows[..i + 1];
  }

  // ---------- Groups ----------

  function RowsOf<T>(spec: T -> GroupSpec, rows: seq<T>, group: GroupSpec): seq<T> {
    Filtered(row => spec(row) == group, rows)
  }

  function Groups<T>(spec: T -> GroupSpec, rows: seq<T>): set<GroupSpec> {
    if rows == [] then {} else Groups(spec, rows[..|rows| - 1]) + {spec(rows[|rows| - 1])}
  }

  /** The first row of each group, in order of appearance. */
  function Representatives<T>(spec: T -> GroupSpec, rows: seq<T>): seq<T> {
    if rows == [] then []
    else
      var before, last := rows[..|rows| - 1], rows[|rows| - 1];
      var firsts := Representatives(spec, before);
      if spec(last) in Groups(spec, before) then firsts else firsts + [last]
  }

  function FoldedAll<T>(stats: seq<StatsColumn<T>>, rows: seq<T>): seq<Aggregator> {
    seq(|stats|, i requires 0 <= i < |stats| => Folded(stats[i], rows))
  }

  function OutputAll<T>(stats: seq<StatsColumn<T>>, aggregators: seq<Aggregator>): seq<Shown>
    requires |aggregators| == |stats|
  {
    seq(|stats|, i requires 0 <= i < |stats| => Output(stats[i], aggregators[i]))
  }

  /** The lines of a grouped Stats: query for a page of representatives: each group's fold over exactly its own rows. */
  function GroupLines<T>(spec: T -> GroupSpec, stats: seq<StatsColumn<T>>, rows: seq<T>, page: seq<T>): seq<StatsLine> {
    seq(|page|, i requires 0 <= i < |page| =>
      StatsLine(spec(page[i]), OutputAll(stats, FoldedAll(stats, RowsOf(spec, rows, spec(page[i]))))))
  }

  /** Each value is the statistic of its header. */
  ghost predicate ShowsStats<T>(stats: seq<StatsColumn<T>>, rows: seq<T>, values: seq<Shown>) {
    |values| == |stats| && forall i | 0 <= i < |stats| :: IsStatistic(stats[i], rows, values[i])
  }

  /** Each line names the group of a row of the page, and shows the statistics of exactly the rows of that group. */
  ghost predicate ShowsGroups<T>(spec: T -> GroupSpec, stats: seq<StatsColumn<T>>, rows: seq<T>, page: seq<T>,
                                 lines: seq<StatsLine>)
  {
    |lines| == |page| &&
    forall i | 0 <= i < |page| ::
      && lines[i].group == spec(page[i])
      && ShowsStats(stats, Filtered(row => spec(row) == spec(page[i]), rows), lines[i].values)
  }

  /** The lines are those of a page of the groups, sorted by their first rows. */
  ghost predicate ShowsGroupPage<T(!new)>(columns: seq<SortColumn<T>>, spec: T -> GroupSpec,
                                          stats: seq<StatsColumn<T>>, rows: seq<T>, limit: int, offset: nat,
                                          lines: seq<StatsLine>)
  {
    exists page :: IsAnswerPage(columns, Representatives(spec, rows), limit, offset, page) &&
                   ShowsGroups(spec, stats, rows, page, lines)
  }

  /** Without groups there is one line about all rows. */
  ghost predicate ShowsTotals<T>(stats: seq<StatsColumn<T>>, rows: seq<T>, lines: seq<StatsLine>) {
    |lines| == 1 && lines[0].group == [] && ShowsStats(stats, rows, lines[0].values)
  }

  lemma OutputShowsStats<T>(stats: seq<StatsColumn<T>>, rows: seq<T>)
    ensures ShowsStats(stats, rows, OutputAll(stats, FoldedAll(stats, rows)))
  {
    forall i | 0 <= i < |stats|
      ensures IsStatistic(stats[i], rows, Output(stats[i], Folded(stats[i], rows)))
    {
      OutputIsStatistic(stats[i], rows);
    }
  }

  lemma GroupLinesShow<T>(spec: T -> GroupSpec, stats: seq<StatsColumn<T>>, rows: seq<T>, page: seq<T>)
    ensures ShowsGroups(spec, stats, rows, page, GroupLines(spec, stats, rows, page))
  {
    forall i | 0 <= i < |page|
      ensures ShowsStats(stats, RowsOf(spec, rows, spec(page[i])), GroupLines(spec, stats, rows, page)[i].values)
    {
      OutputShowsStats(stats, RowsOf(spec, rows, spec(page[i])));
    }
  }

  function TotalGroupSize<T>(spec: T -> GroupSpec, rows: seq<T>, representatives: seq<T>): nat {
    if representatives == [] then 0
    else
      var n := |representatives| - 1;
      TotalGroupSize(spec, rows, representatives[..n]) + |RowsOf(spec, rows, spec(representatives[n]))|
  }

  predicate DistinctGroups<T>(spec: T -> GroupSpec, rows: seq<T>) {
    rows == [] ||
    (DistinctGroups(spec, rows[..|rows| - 1]) && spec(rows[|rows| - 1]) !in Groups(spec, rows[..|rows| - 1]))
  }

  lemma {:induction false} GroupOfRow<T>(spec: T -> GroupSpec, rows: seq<T>, row: T)
    requires row in rows
    ensures spec(row) in Groups(spec, rows)
  {
    if row != rows[|rows| - 1] {
      GroupOfRow(spec, rows[..|rows| - 1], row);
    }
  }

  /** Row i is the first one of its group. */
  ghost predicate IsFirst<T>(spec: T -> GroupSpec, rows: seq<T>, i: nat) {
    i < |rows| && forall j | 0 <= j < i :: spec(rows[j]) != spec(rows[i])
  }

  lemma {:induction false} GroupHasRow<T>(spec: T -> GroupSpec, rows: seq<T>, group: GroupSpec)
    ensures group in Groups(spec, rows) <==> exists i :: 0 <= i < |rows| && spec(rows[i]) == group
  {
    if rows != [] {
      GroupHasRow(spec, rows[..|rows| - 1], group);
    }
  }

  /** The given rows are those that are the first ones of their groups, in their order; `at` says where they are. */
  ghost predicate AreFirstRows<T>(spec: T -> GroupSpec, rows: seq<T>, at: seq<nat>, firsts: seq<T>) {
    && |at| == |firsts| && (forall k | 0 <= k < |at| :: at[k] < |rows| && firsts[k] == rows[at[k]])
    && (forall i, j | 0 <= i < j < |at| :: at[i] < at[j])
    && forall i: nat :: i in at <==> IsFirst(spec, rows, i)
  }

  lemma FirstStays<T>(spec: T -> GroupSpec, rows: seq<T>, last: T, i: nat)
    requires i < |rows|
    ensures IsFirst(spec, rows + [last], i) <==> IsFirst(spec, rows, i)
  {
    assert forall j | 0 <= j < |rows| :: (rows + [last])[j] == rows[j];
  }

  lemma LastIsFirst<T>(spec: T -> GroupSpec, rows: seq<T>, last: T)
    ensures IsFirst(spec, rows + [last], |rows|) <==> spec(last) !in Groups(spec, rows)
  {
    GroupHasRow(spec, rows, spec(last));
    assert forall j | 0 <= j < |rows| :: (rows + [last])[j] == rows[j];
  }

  lemma NextFirstRows<T>(spec: T -> GroupSpec, rows: seq<T>, last: T, at: seq<nat>, firsts: seq<T>)
    requires AreFirstRows(spec, rows, at, firsts)
    ensures if spec(last) in Groups(spec, rows) then AreFirstRows(spec, rows + [last], at, firsts)
            else AreFirstRows(spec, rows + [last], at + [|rows|], firsts + [last])
  {
    var all := rows + [last];
    LastIsFirst(spec, rows, last);
    forall i: nat
      ensures IsFirst(spec, all, i) <==> IsFirst(spec, rows, i) || (i == |rows| && spec(last) !in Groups(spec, rows))
    {
      if i < |rows| {
        FirstStays(spec, rows, last, i);
      }
    }
    forall k | 0 <= k < |at|
      ensures at[k] < |rows| && all[at[k]] == rows[at[k]]
    {
    }
  }

  /** The representatives are the first rows of all groups, in the order of their appearance. */
  lemma {:induction false} RepresentativesAreFirst<T>(spec: T -> GroupSpec, rows: seq<T>) returns (at: seq<nat>)
    ensures AreFirstRows(spec, rows, at, Representatives(spec, rows))
  {
    at := [];
    if rows != [] {
      var n := |rows| - 1;
      at := RepresentativesAreFirst(spec, rows[..n]);
      NextFirstRows(spec, rows[..n], rows[n], at, Representatives(spec, rows[..n]));
      assert rows[..n] + [rows[n]] == rows;
      if spec(rows[n]) !in Groups(spec, rows[..n]) {
        at := at + [n];
      }
    }
  }

  lemma {:induction false} RepresentativesDistinct<T>(spec: T -> GroupSpec, rows: seq<T>)
    ensures DistinctGroups(spec, Representatives(spec, rows))
    ensures Groups(spec, Representatives(spec, rows)) == Groups(spec, rows)
  {
    if rows != [] {
      var before, last := rows[..|rows| - 1], rows[|rows| - 1];
      RepresentativesDistinct(spec, before);
      var earlier := Representatives(spec, before);
      assert (earlier + [last])[..|earlier|] == earlier;
    }
  }

  lemma {:induction false} OneMoreRow<T>(spec: T -> GroupSpec, rows: seq<T>, row: T, representatives: seq<T>)
    requires DistinctGroups(spec, representatives)
    ensures TotalGroupSize(spec, rows + [row], representatives) ==
            TotalGroupSize(spec, rows, representatives) + if spec(row) in Groups(spec, representatives) then 1 else 0
  {
    if representatives != [] {
      OneMoreRow(spec, rows, row, representatives[..|representatives| - 1]);
      assert (rows + [row])[..|rows|] == rows;
    }
  }

  lemma {:induction false} NoRowsOf<T>(spec: T -> GroupSpec, rows: seq<T>, group: GroupSpec)
    requires group !in Groups(spec, rows)
    ensures RowsOf(spec, rows, group) == []
  {
    if rows != [] {
      NoRowsOf(spec, rows[..|rows| - 1], group);
    }
  }

  /** The groups partition the rows: no two groups share a name, and their sizes add up to the number of rows. */
  lemma {:induction false} GroupsPartitionRows<T>(spec: T -> GroupSpec, rows: seq<T>)
    ensures DistinctGroups(spec, Representatives(spec, rows))
    ensures TotalGroupSize(spec, rows, Representatives(spec, rows)) == |rows|
  {
    RepresentativesDistinct(spec, rows);
    if rows != [] {
      var before, last := rows[..|rows| - 1], rows[|rows| - 1];
      var earlier := Representatives(spec, before);
      GroupsPartitionRows(spec, before);
      RepresentativesDistinct(spec, before);
      OneMoreRow(spec, before, last, earlier);
      assert rows == before + [last];
      assert spec(last) in Groups(spec, earlier) <==> spec(last) in Groups(spec, before);
      if spec(last) !in Groups(spec, before) {
        NoRowsOf(spec, before, spec(last));
        assert (earlier + [last])[..|earlier|] == earlier;
      }
    }
  }

  /** Each group's aggregators are the folds over exactly its own rows. */
  ghost predicate GroupsAreFolds<T>(spec: T -> GroupSpec, stats: seq<StatsColumn<T>>, rows: seq<T>,
                                    groups: map<GroupSpec, seq<Aggregator>>)
  {
    && groups.Keys == Groups(spec, rows)
    && forall g | g in groups :: groups[g] == FoldedAll(stats, RowsOf(spec, rows, g))
  }

  lemma GroupsGrow<T>(spec: T -> GroupSpec, stats: seq<StatsColumn<T>>, rows: seq<T>, row: T,
                      groups: map<GroupSpec, seq<Aggregator>>)
    requires GroupsAreFolds(spec, stats, rows, groups)
    ensures var group := spec(row);
            var own := RowsOf(spec, rows, group);
            && (group !in groups ==> own == [])
            && GroupsAreFolds(spec, stats, rows + [row], groups[group := FoldedAll(stats, own + [row])])
            && Representatives(spec, rows + [row]) ==
               if group in groups then Representatives(spec, rows) else Representatives(spec, rows) + [row]
  {
    assert (rows + [row])[..|rows|] == rows;
    if spec(row) !in groups {
      NoRowsOf(spec, rows, spec(row));
    }
    var grown := groups[spec(row) := FoldedAll(stats, RowsOf(spec, rows, spec(row)) + [row])];
    forall g | g in grown
      ensures grown[g] == FoldedAll(stats, RowsOf(spec, rows + [row], g))
    {
    }
  }

  // ---------- The sorter ----------

  /** The heap holds the best rows of those inserted, `dropped` the others. */
  ghost predicate HoldsBest<T>(columns: seq<SortColumn<T>>, heap: seq<T>, dropped: seq<T>, inserted: seq<T>,
                               limit: int, offset: nat)
  {
    && multiset(heap) + multiset(dropped) == multiset(inserted)
    && AllNotAbove(columns, heap, dropped)
    && |heap| == KeptRows(limit, offset, |inserted|)
  }

  /** One more insertion keeps the best rows in the heap. */
  lemma InsertHoldsBest<T(!new)>(columns: seq<SortColumn<T>>, heap: seq<T>, dropped: seq<T>, inserted: seq<T>,
                                 limit: int, offset: nat, row: T, heap': seq<T>, now: seq<T>)
    requires AreOrders(columns) && HoldsBest(columns, heap, dropped, inserted, limit, offset)
    requires multiset(heap') + multiset(now) == multiset(heap) + multiset{row}
    requires |now| == if limit + offset > 0 && |heap| + 1 > limit + offset then 1 else 0
    requires AllNotAbove(columns, heap', now)
    ensures HoldsBest(columns, heap', dropped + now, inserted + [row], limit, offset)
  {
    assert |multiset(heap) + multiset(dropped)| == |multiset(inserted)|;
    assert |multiset(heap') + multiset(now)| == |multiset(heap) + multiset{row}|;
    assert |multiset(heap')| + |multiset(now)| == |multiset(heap)| + 1;
    assert multiset(dropped + now) == multiset(dropped) + multiset(now);
    assert multiset(inserted + [row]) == multiset(inserted) + multiset{row};
    assert multiset(heap') + (multiset(dropped) + multiset(now)) == (multiset(heap') + multiset(now)) +
           multiset(dropped);
    if now == [] {
      assert dropped == [];
    } else {
      assert now == [now[0]];
      InsertNotAboveDropped(columns, heap, dropped, row, heap', now[0]);
    }
    forall i, j | 0 <= i < |heap'| && 0 <= j < |dropped + now|
      ensures NotAbove(columns, heap'[i], (dropped + now)[j])
    {
    }
  }

  lemma SameAfterRemoval<T>(a: multiset<T>, b: multiset<T>, x: T)
    requires a + multiset{x} == b + multiset{x}
    ensures a == b
  {
    assert a == (a + multiset{x}) - multiset{x};
    assert b == (b + multiset{x}) - multiset{x};
  }

  lemma InsertNotAboveDropped<T(!new)>(columns: seq<SortColumn<T>>, heap: seq<T>, dropped: seq<T>, row: T,
                                       heap': seq<T>, out: T)
    requires AreOrders(columns) && AllNotAbove(columns, heap, dropped)
    requires multiset(heap') + multiset{out} == multiset(heap) + multiset{row}
    requires AllNotAbove(columns, heap', [out])
    ensures AllNotAbove(columns, heap', dropped)
  {
    forall i, j | 0 <= i < |heap'| && 0 <= j < |dropped|
      ensures NotAbove(columns, heap'[i], dropped[j])
    {
      assert heap'[i] in multiset(heap');
      if out == row {
        SameAfterRemoval(multiset(heap'), multiset(heap), row);
        assert heap'[i] in heap;
      } else {
        assert out in multiset(heap) + multiset{row};
        assert out in heap && NotAbove(columns, out, dropped[j]);
        assert [out][0] == out && NotAbove(columns, heap'[i], out);
        NotAboveTransitive(columns, heap'[i], out, dropped[j]);
      }
    }
  }

  /** Before the first row. */
  lemma NothingYet<T(!new)>(columns: seq<SortColumn<T>>, spec: T -> GroupSpec, stats: seq<StatsColumn<T>>, limit: int,
                               offset: nat)
    requires limit >= -1
    ensures HoldsBest(columns, [], [], [], limit, offset) && GroupsAreFolds(spec, stats, [], map[])
    ensures Representatives(spec, []) == [] && FoldedAll(stats, []) == seq(|stats|, i => START)
    ensures RequestedSlice(limit, offset, 0) == Slice(0, 0)
  {
  }

  // ---------- The query ----------

  class Query<T(!new)> {
    /** The filter together with the authorization test. */
    const accepts: T -> bool
    const limit: int
    const offset: nat
    const sorting: bool
    const wrappedJson: bool
    const stats: seq<StatsColumn<T>>
    /** Whether there are Columns: headers, which group the statistics, and the group they put a row into. */
    const grouped: bool
    const groupSpec: T -> GroupSpec
    const sorter: RowSortedSet<T>

    var currentLine: nat
    var groups: map<GroupSpec, seq<Aggregator>>
    var totals: seq<Aggregator>
    var printed: seq<T>
    var printedStats: seq<StatsLine>
    var error: bool

    ghost var accepted: seq<T>
    ghost var dropped: seq<T>

    ghost function Inserted(): seq<T>
      reads this
    {
      if stats == [] then accepted else Representatives(groupSpec, accepted)
    }

    ghost predicate Sorts() {
      if stats == [] then sorting else grouped
    }

    ghost predicate Valid()
      reads this, sorter
    {
      && limit >= -1 && sorter.Valid()
      && (Sorts() ==>
            && currentLine == |Inserted()|
            && HoldsBest(sorter.sortColumns, sorter.heap, dropped, Inserted(), limit, offset))
      && (stats != [] && grouped ==> GroupsAreFolds(groupSpec, stats, accepted, groups))
      && (stats != [] && !grouped ==> currentLine == 1 && totals == FoldedAll(stats, accepted))
      && (stats == [] && !sorting ==> currentLine == |accepted| && printed == PageOf(accepted))
    }

    ghost function PageOf(rows: seq<T>): seq<T> {
      rows[RequestedSlice(limit, offset, |rows|).lo..RequestedSlice(limit, offset, |rows|).hi]
    }

    constructor (accepts: T -> bool, limit: int, offset: nat, columns: seq<SortColumn<T>>, sorting: bool,
                 wrappedJson: bool, stats: seq<StatsColumn<T>>, grouped: bool, groupSpec: T -> GroupSpec)
      requires limit >= -1 && AreOrders(columns)
      ensures Valid() && fresh(sorter) && !error && accepted == [] && printed == [] && printedStats == []
      ensures this.accepts == accepts && this.limit == limit && this.offset == offset && this.sorting == sorting
      ensures this.wrappedJson == wrappedJson && this.stats == stats && this.grouped == grouped
      ensures this.groupSpec == groupSpec && sorter.sortColumns == columns
    {
      this.accepts, this.limit, this.offset := accepts, limit, offset;
      this.sorting, this.wrappedJson, this.stats := sorting, wrappedJson, stats;
      this.grouped, this.groupSpec := grouped, groupSpec;
      sorter := new RowSortedSet(columns);
      currentLine := if stats != [] && !grouped then 1 else 0;
      groups := map[];
      totals := seq(|stats|, i => START);
      printed, printedStats, error := [], [], false;
      accepted, dropped := [], [];
      new;
      NothingYet(columns, groupSpec, stats, limit, offset);
    }

    ghost predicate LimitReached()
      reads this
    {
      stats == [] && !sorting && !wrappedJson && limit >= 0 && |accepted| > offset + limit
    }

    /** Handles one row; false stops the table's loop. `interrupted`: a size, time or termination check fires. */
    method ProcessDataset(data: T, interrupted: bool) returns (more: bool)
      requires Valid() && !error
      modifies this, sorter
      ensures error == interrupted && sorter.sortColumns == old(sorter.sortColumns)
      ensures interrupted ==> !more
      ensures !interrupted ==> Valid() && accepted == old(accepted) + Filtered(accepts, [data])
      ensures !interrupted ==> (more <==> !(accepts(data) && LimitReached()))
      ensures printedStats == old(printedStats) && (Sorts() ==> printed == old(printed))
    {
      if interrupted {
        error := true;
        return false;
      }
      if !accepts(data) {
        return true;
      }
      assert Filtered(accepts, [data]) == [data];
      if stats == [] {
        more := ProcessRow(data);
      } else {
        ProcessStats(data);
        more := true;
      }
    }

    /** The branch of `processDataset` without Stats: headers. */
    method ProcessRow(data: T) returns (more: bool)
      requires Valid() && stats == [] && accepts(data)
      modifies this`currentLine, this`printed, this`accepted, this`dropped, sorter
      ensures Valid() && sorter.sortColumns == old(sorter.sortColumns)
      ensures accepted == old(accepted) + [data]
      ensures more <==> !LimitReached()
      ensures sorting ==> printed == old(printed)
    {
      ghost var before := accepted;
      accepted := accepted + [data];
      currentLine := currentLine + 1;
      if sorting {
        InsertIntoSorter(data, before);
        return true;
      }
      if limit >= 0 && currentLine > offset + limit {
        return wrappedJson;
      }
      if currentLine > offset {
        printed := printed + [data];
      }
      more := true;
    }

    /** The branch of `processDataset` with Stats: headers. */
    method ProcessStats(data: T)
      requires Valid() && stats != [] && accepts(data)
      modifies this`currentLine, this`groups, this`totals, this`accepted, this`dropped, sorter
      ensures Valid() && sorter.sortColumns == old(sorter.sortColumns)
      ensures accepted == old(accepted) + [data]
    {
      if grouped {
        ProcessGroup(data);
      } else {
        totals := ConsumeAll(totals, data, accepted);
      }
      accepted := accepted + [data];
    }

    /** Fetches or creates the aggregators of the row's group; the first row of a group goes to the sorter. */
    method ProcessGroup(data: T)
      requires limit >= -1 && sorter.Valid() && GroupsAreFolds(groupSpec, stats, accepted, groups)
      requires currentLine == |Representatives(groupSpec, accepted)|
      requires HoldsBest(sorter.sortColumns, sorter.heap, dropped, Representatives(groupSpec, accepted), limit, offset)
      modifies this`currentLine, this`groups, this`dropped, sorter
      ensures sorter.Valid() && sorter.sortColumns == old(sorter.sortColumns)
      ensures GroupsAreFolds(groupSpec, stats, accepted + [data], groups)
      ensures currentLine == |Representatives(groupSpec, accepted + [data])|
      ensures HoldsBest(sorter.sortColumns, sorter.heap, dropped, Representatives(groupSpec, accepted + [data]), limit,
                        offset)
    {
      GroupsGrow(groupSpec, stats, accepted, data, groups);
      var spec := groupSpec(data);
      ghost var own := RowsOf(groupSpec, accepted, spec);
      var aggregators := seq(|stats|, i => START);
      assert own == [] ==> aggregators == FoldedAll(stats, own);
      if spec in groups {
        aggregators := groups[spec];
      } else {
        currentLine := currentLine + 1;
        InsertIntoSorter(data, Representatives(groupSpec, accepted));
      }
      var consumed := ConsumeAll(aggregators, data, own);
      groups := groups[spec := consumed];
    }

    method InsertIntoSorter(data: T, ghost inserted: seq<T>)
      requires limit >= -1 && sorter.Valid()
      requires HoldsBest(sorter.sortColumns, sorter.heap, dropped, inserted, limit, offset)
      modifies this`dropped, sorter
      ensures sorter.Valid() && sorter.sortColumns == old(sorter.sortColumns)
      ensures HoldsBest(sorter.sortColumns, sorter.heap, dropped, inserted + [data], limit, offset)
    {
      ghost var heap := sorter.heap;
      ghost var now := sorter.Insert(data, limit + offset);
      InsertHoldsBest(sorter.sortColumns, heap, dropped, inserted, limit, offset, data, sorter.heap, now);
      dropped := dropped + now;
    }

    /** The loop that lets every aggregator of a group consume the row. */
    method ConsumeAll(aggregators: seq<Aggregator>, data: T, ghost rows: seq<T>) returns (consumed: seq<Aggregator>)
      requires aggregators == FoldedAll(stats, rows)
      ensures consumed == FoldedAll(stats, rows + [data])
    {
      consumed := [];
      assert (rows + [data])[..|rows|] == rows;
      for i := 0 to |stats|
        invariant consumed == FoldedAll(stats, rows + [data])[..i]
      {
        consumed := consumed + [Consumed(stats[i], aggregators[i], data)];
      }
    }

    /** The first loop of `finish`: takes the greatest rows out of the sorter, and one more that is not printed. */
    method DrainSorter() returns (outbuf: seq<T>, ghost rest: seq<T>)
      requires limit >= -1 && sorter.Valid()
      modifies sorter
      ensures sorter.Valid() && sorter.sortColumns == old(sorter.sortColumns)
      ensures multiset(rest) + multiset(outbuf) == multiset(old(sorter.heap))
      ensures AllNotAbove(sorter.sortColumns, rest, outbuf) && Descending(sorter.sortColumns, outbuf)
      ensures var kept := |old(sorter.heap)|;
              var take := RowsToTake(limit, offset, kept);
              |outbuf| == if take < 0 then kept else Least(take, kept)
    {
      ghost var kept := |sorter.heap|;
      var numelems := limit;
      if limit + offset > |sorter.heap| {
        numelems := |sorter.heap| - offset;
        if numelems < 0 {
          numelems := 0;
        }
      }
      ghost var take := numelems;
      outbuf, rest := [], [];
      while true
        invariant sorter.Valid() && sorter.sortColumns == old(sorter.sortColumns)
        invariant multiset(sorter.heap) + multiset(outbuf) == multiset(old(sorter.heap))
        invariant |sorter.heap| + |outbuf| == kept
        invariant AllNotAbove(sorter.sortColumns, sorter.heap, outbuf) && Descending(sorter.sortColumns, outbuf)
        invariant numelems == take - |outbuf| && (take >= 0 ==> |outbuf| <= take)
        decreases |sorter.heap|
      {
        ghost var left := sorter.heap;
        var data := sorter.Extract();
        if data == Nothing {
          rest := [];
          break;
        }
        TakeStep(sorter.sortColumns, left, sorter.heap, outbuf, data.value);
        if numelems == 0 {
          rest := sorter.heap + [data.value];
          break;
        }
        numelems := numelems - 1;
        outbuf := outbuf + [data.value];
      }
    }

    /** The part of `finish` that empties the sorter and turns its descending rows into an ascending page. */
    method TakePage(ghost inserted: seq<T>) returns (page: seq<T>)
      requires limit >= -1 && sorter.Valid()
      requires HoldsBest(sorter.sortColumns, sorter.heap, dropped, inserted, limit, offset)
      modifies sorter
      ensures sorter.Valid() && sorter.sortColumns == old(sorter.sortColumns)
      ensures IsPage(sorter.sortColumns, inserted, PrintedSlice(limit, offset, |inserted|), page)
    {
      ghost var heap := sorter.heap;
      var outbuf, rest := DrainSorter();
      page := ReverseOutbuf(sorter.sortColumns, outbuf);
      PageOfDrained(sorter.sortColumns, inserted, dropped, limit, offset, heap, rest, outbuf, page);
    }

    /** The lines of the groups whose representatives are on the page. */
    method PrintGroups(page: seq<T>) returns (lines: seq<StatsLine>)
      requires stats != [] && grouped && GroupsAreFolds(groupSpec, stats, accepted, groups)
      requires forall i | 0 <= i < |page| :: groupSpec(page[i]) in groups
      ensures ShowsGroups(groupSpec, stats, accepted, page, lines)
    {
      GroupLinesShow(groupSpec, stats, accepted, page);
      lines := [];
      for i := 0 to |page|
        invariant lines == GroupLines(groupSpec, stats, accepted, page)[..i]
      {
        var spec := groupSpec(page[i]);
        lines := lines + [StatsLine(spec, OutputAll(stats, groups[spec]))];
      }
    }

    /** `finish` for grouped statistics. */
    method FinishGroups(ghost inserted: seq<T>) returns (ghost page: seq<T>)
      requires Valid() && stats != [] && grouped && inserted == Inserted()
      modifies this`printedStats, sorter
      ensures sorter.sortColumns == old(sorter.sortColumns)
      ensures IsAnswerPage(sorter.sortColumns, inserted, limit, offset, page)
      ensures ShowsGroups(groupSpec, stats, accepted, page, printedStats)
    {
      var rows := TakePage(inserted);
      PageRowsAreInserted(sorter.sortColumns, inserted, PrintedSlice(limit, offset, |inserted|), rows);
      RepresentativesDistinct(groupSpec, accepted);
      forall i | 0 <= i < |rows|
        ensures groupSpec(rows[i]) in groups
      {
        GroupOfRow(groupSpec, inserted, rows[i]);
      }
      PrintedPageIsRequested(sorter.sortColumns, inserted, limit, offset, rows);
      printedStats := PrintGroups(rows);
      page := rows;
    }

    /**
     What the answer is about these rows: their cut, or the page of them in the wanted order; or the statistics of the
     groups on such a page, or of all rows.
     */
    ghost predicate IsAnswer(rows: seq<T>, totalCount: nat)
      reads this, sorter
    {
      if stats == [] then
        && (if sorting then IsAnswerPage(sorter.sortColumns, rows, limit, offset, printed)
            else IsCut(rows, limit, offset, printed))
        && (sorting || wrappedJson ==> totalCount == |rows|)
      else if grouped then
        && ShowsGroupPage(sorter.sortColumns, groupSpec, stats, rows, limit, offset, printedStats)
        && totalCount == |Representatives(groupSpec, rows)|
      else ShowsTotals(stats, rows, printedStats) && totalCount == 1
    }

    /** `finish`: prints what was postponed until the last row. */
    method Finish() returns (totalCount: nat)
      requires Valid() && !error && printedStats == [] && (Sorts() ==> printed == [])
      modifies this`printed, this`printedStats, sorter
      ensures totalCount == currentLine && !error
      ensures stats != [] || sorting ==> IsAnswer(accepted, totalCount)
      ensures stats == [] && !sorting ==> printed == old(printed)
      ensures sorter.sortColumns == old(sorter.sortColumns)
    {
      if stats != [] && grouped {
        ghost var page := FinishGroups(Inserted());
      } else if stats != [] {
        OutputShowsStats(stats, accepted);
        printedStats := [StatsLine([], OutputAll(stats, totals))];
      } else if sorting {
        var page := TakePage(accepted);
        PrintedPageIsRequested(sorter.sortColumns, accepted, limit, offset, page);
        printed := page;
      }
      totalCount := currentLine;
    }

    /** A table's loop over its rows. */
    method ProcessAll(rows: seq<T>, interrupted: nat -> bool)
      requires Valid() && !error && accepted == [] && printed == [] && printedStats == []
      modifies this, sorter
      ensures sorter.sortColumns == old(sorter.sortColumns)
      ensures !error ==> Valid() && printedStats == [] && (Sorts() ==> printed == [])
      ensures !error ==> accepted <= Filtered(accepts, rows) && (LimitReached() || accepted == Filtered(accepts, rows))
      ensures error ==> exists i :: 0 <= i < |rows| && interrupted(i)
    {
      var i, more := 0, true;
      while i < |rows| && more
        invariant 0 <= i <= |rows| && Valid() && !error && printedStats == []
        invariant accepted == Filtered(accepts, rows[..i])
        invariant Sorts() ==> printed == []
        invariant sorter.sortColumns == old(sorter.sortColumns)
        invariant more || LimitReached()
      {
        more := ProcessDataset(rows[i], interrupted(i));
        if error {
          return;
        }
        FilteredNext(accepts, rows, i);
        i := i + 1;
      }
      FilteredAppend(accepts, rows[..i], rows[i..]);
      assert rows[..i] + rows[i..] == rows;
    }

    /** Behind a reached limit there is nothing to print, and nobody counts. */
    lemma LimitHidesRest(all: seq<T>)
      requires Valid() && accepted <= all && (LimitReached() || accepted == all)
      ensures stats == [] && !sorting ==> printed == PageOf(all) && IsCut(all, limit, offset, printed)
      ensures stats != [] || sorting || wrappedJson ==> accepted == all
    {
      RequestedIsCut(all, limit, offset);
    }

    /** A table's loop over its rows followed by `finish`, as in src/TableContacts.cc and src/Store.cc. */
    method Answer(rows: seq<T>, interrupted: nat -> bool) returns (totalCount: nat)
      requires Valid() && !error && accepted == [] && printed == [] && printedStats == []
      modifies this, sorter
      ensures !error ==> IsAnswer(Filtered(accepts, rows), totalCount)
      ensures error ==> exists i :: 0 <= i < |rows| && interrupted(i)
    {
      totalCount := 0;
      ProcessAll(rows, interrupted);
      if !error {
        ghost var all := Filtered(accepts, rows);
        LimitHidesRest(all);
        ghost var streamed := printed;
        totalCount := Finish();
        if stats == [] && !sorting {
          assert printed == streamed && IsAnswer(all, totalCount);
        } else {
          assert accepted == all;
        }
      }
    }
  }

  ghost predicate Descending<T>(columns: seq<SortColumn<T>>, s: seq<T>) {
    forall i, j | 0 <= i < j < |s| :: NotAbove(columns, s[j], s[i])
  }

  lemma TakeStep<T>(columns: seq<SortColumn<T>>, heap: seq<T>, heap': seq<T>, outbuf: seq<T>, x: T)
    requires AllNotAbove(columns, heap, outbuf) && Descending(columns, outbuf)
    requires multiset(heap') + multiset{x} == multiset(heap) && AllNotAbove(columns, heap', [x])
    ensures AllNotAbove(columns, heap', outbuf + [x]) && Descending(columns, outbuf + [x])
    ensures AllNotAbove(columns, heap' + [x], outbuf) && |heap'| == |heap| - 1
  {
    assert |multiset(heap') + multiset{x}| == |multiset(heap)|;
    assert multiset(heap' + [x]) == multiset(heap);
    AllNotAboveParts(columns, heap, outbuf, heap' + [x], outbuf);
    assert (heap' + [x])[|heap'|] == x;
    forall i, j | 0 <= i < |heap'| && 0 <= j < |outbuf| + 1
      ensures NotAbove(columns, heap'[i], (outbuf + [x])[j])
    {
      assert (heap' + [x])[i] == heap'[i] && [x][0] == x;
    }
  }

  lemma PageOfDrained<T(!new)>(columns: seq<SortColumn<T>>, inserted: seq<T>, dropped: seq<T>, limit: int, offset: nat,
                               heap: seq<T>, rest: seq<T>, outbuf: seq<T>, page: seq<T>)
    requires AreOrders(columns) && limit >= -1 && HoldsBest(columns, heap, dropped, inserted, limit, offset)
    requires multiset(rest) + multiset(outbuf) == multiset(heap) && AllNotAbove(columns, rest, outbuf)
    requires var take := RowsToTake(limit, offset, |heap|); |outbuf| == if take < 0 then |heap| else Least(take, |heap|)
    requires IsSorted(columns, page) && multiset(page) == multiset(outbuf)
    ensures IsPage(columns, inserted, PrintedSlice(limit, offset, |inserted|), page)
  {
    assert |multiset(page)| == |multiset(outbuf)|;
    assert |multiset(rest) + multiset(outbuf)| == |multiset(heap)|;
    assert multiset(rest + page) == multiset(heap);
    AllNotAboveParts(columns, rest, outbuf, rest, page);
    AllNotAboveParts(columns, heap, dropped, rest + page, dropped);
    PageOfParts(columns, inserted, rest, page, dropped);
    assert PrintedSlice(limit, offset, |inserted|) == Slice(|rest|, |rest| + |page|);
  }

  /** The second loop: rows leave the back of `outbuf` and are printed. */
  method ReverseOutbuf<T(!new)>(ghost columns: seq<SortColumn<T>>, rows: seq<T>) returns (page: seq<T>)
    requires Descending(columns, rows)
    ensures IsSorted(columns, page) && multiset(page) == multiset(rows)
  {
    var outbuf := rows;
    page := [];
    while outbuf != []
      invariant outbuf <= rows && |page| == |rows| - |outbuf|
      invariant forall i | 0 <= i < |page| :: page[i] == rows[|rows| - 1 - i]
      invariant multiset(page) + multiset(outbuf) == multiset(rows)
    {
      assert outbuf == outbuf[..|outbuf| - 1] + [outbuf[|outbuf| - 1]];
      page := page + [outbuf[|outbuf| - 1]];
      outbuf := outbuf[..|outbuf| - 1];
    }
  }

  lemma PageRowsAreInserted<T(!new)>(columns: seq<SortColumn<T>>, rows: seq<T>, slice: Slice, page: seq<T>)
    requires IsPage(columns, rows, slice, page)
    ensures forall i | 0 <= i < |page| :: page[i] in rows
  {
    var s: seq<T> :| IsSorted(columns, s) && multiset(s) == multiset(rows) && slice.lo <= slice.hi <= |s| &&
                     page == s[slice.lo..slice.hi];
    forall i | 0 <= i < |page|
      ensures page[i] in rows
    {
      assert page[i] == s[slice.lo + i];
      assert s[slice.lo + i] in multiset(s);
    }
  }
}
