/** The bounded binary max-heap that keeps the rows of a sorted query (src/RowSortedSet.cc). */
module RowSortedSets {
  /** A Sort: column: the column's own comparison and the direction. */
  datatype SortColumn<!T> = SortColumn(compare: (T, T) -> int, desc: bool)

  /** What a column comparison promises: the sign is antisymmetric, and "not above" is transitive. */
  ghost predicate IsOrder<T(!new)>(compare: (T, T) -> int) {
    && (forall a, b :: compare(a, b) > 0 <==> compare(b, a) < 0)
    && (forall a, b, c :: compare(a, b) <= 0 && compare(b, c) <= 0 ==> compare(a, c) <= 0)
  }

  ghost predicate AreOrders<T(!new)>(columns: seq<SortColumn<T>>) {
    forall c | c in columns :: IsOrder(c.compare)
  }

  /** RowSortedSet::compare: the first column that tells the rows apart decides. */
  function Compare<T>(columns: seq<SortColumn<T>>, a: T, b: T): int {
    if columns == [] then 0
    else
      var diff := columns[0].compare(a, b);
      var directed := if columns[0].desc then -diff else diff;
      if directed != 0 then directed else Compare(columns[1..], a, b)
  }

  predicate NotAbove<T>(columns: seq<SortColumn<T>>, a: T, b: T) {
    Compare(columns, a, b) <= 0
  }

  lemma {:induction false} CompareSign<T(!new)>(columns: seq<SortColumn<T>>, a: T, b: T)
    requires AreOrders(columns)
    ensures Compare(columns, a, b) > 0 <==> Compare(columns, b, a) < 0
  {
    if columns != [] {
      assert columns[0] in columns;
      CompareSign(columns[1..], a, b);
    }
  }

  lemma {:induction false} NotAboveTransitive<T(!new)>(columns: seq<SortColumn<T>>, a: T, b: T, c: T)
    requires AreOrders(columns)
    requires NotAbove(columns, a, b) && NotAbove(columns, b, c)
    ensures NotAbove(columns, a, c)
  {
    if columns != [] {
      assert columns[0] in columns;
      if columns[0].compare(a, b) == 0 == columns[0].compare(b, c) {
        NotAboveTransitive(columns[1..], a, b, c);
      }
    }
  }

  /** The comparison of a whole Sort: header list is again an order. */
  lemma CompareIsOrder<T(!new)>(columns: seq<SortColumn<T>>)
    requires AreOrders(columns)
    ensures forall a, b :: Compare(columns, a, b) > 0 <==> Compare(columns, b, a) < 0
    ensures forall a, b :: NotAbove(columns, a, b) || NotAbove(columns, b, a)
    ensures forall a, b, c :: NotAbove(columns, a, b) && NotAbove(columns, b, c) ==> NotAbove(columns, a, c)
  {
    forall a, b
      ensures Compare(columns, a, b) > 0 <==> Compare(columns, b, a) < 0
    {
      CompareSign(columns, a, b);
    }
    forall a, b, c | NotAbove(columns, a, b) && NotAbove(columns, b, c)
      ensures NotAbove(columns, a, c)
    {
      NotAboveTransitive(columns, a, b, c);
    }
  }

  /** Column k is the first whose own comparison tells the rows apart. */
  predicate Decides<T>(columns: seq<SortColumn<T>>, a: T, b: T, k: nat) {
    && k < |columns| && columns[k].compare(a, b) != 0
    && forall j | 0 <= j < k :: columns[j].compare(a, b) == 0
  }

  /** Row a may stand before b: the column that decides, if any, has them in its own direction. */
  ghost predicate MayPrecede<T>(columns: seq<SortColumn<T>>, a: T, b: T) {
    forall k: nat | Decides(columns, a, b, k) :: if columns[k].desc then columns[k].compare(a, b) > 0
                                            else columns[k].compare(a, b) < 0
  }

  /** Ascending columns sort by their comparison, descending ones against it, and the first one that decides counts. */
  lemma {:induction false} NotAboveMeans<T>(columns: seq<SortColumn<T>>, a: T, b: T)
    ensures NotAbove(columns, a, b) <==> MayPrecede(columns, a, b)
  {
    if columns != [] {
      var rest := columns[1..];
      NotAboveMeans(rest, a, b);
      if columns[0].compare(a, b) != 0 {
        forall k: nat | Decides(columns, a, b, k)
          ensures k == 0
        {
        }
        assert Decides(columns, a, b, 0);
      } else {
        forall k: nat
          ensures Decides(columns, a, b, k + 1) <==> Decides(rest, a, b, k)
        {
          assert k < |rest| ==> rest[k] == columns[k + 1];
          if Decides(columns, a, b, k + 1) {
            assert forall j | 0 <= j < k :: rest[j] == columns[j + 1];
          }
          if Decides(rest, a, b, k) {
            assert forall j | 0 < j < k + 1 :: columns[j] == rest[j - 1];
          }
        }
        MayPrecedeRest(columns, a, b);
      }
    }
  }

  lemma MayPrecedeRest<T>(columns: seq<SortColumn<T>>, a: T, b: T)
    requires columns != [] && columns[0].compare(a, b) == 0
    requires forall k: nat :: Decides(columns, a, b, k + 1) <==> Decides(columns[1..], a, b, k)
    ensures MayPrecede(columns, a, b) <==> MayPrecede(columns[1..], a, b)
  {
    if MayPrecede(columns[1..], a, b) {
      forall k: nat | Decides(columns, a, b, k)
        ensures if columns[k].desc then columns[k].compare(a, b) > 0 else columns[k].compare(a, b) < 0
      {
        assert k > 0 && Decides(columns[1..], a, b, k - 1);
      }
    }
    if MayPrecede(columns, a, b) {
      forall k: nat | Decides(columns[1..], a, b, k)
        ensures if columns[1..][k].desc then columns[1..][k].compare(a, b) > 0 else columns[1..][k].compare(a, b) < 0
      {
        assert Decides(columns, a, b, k + 1);
      }
    }
  }

  predicate IsChild(i: nat, parent: nat) {
    i == 2 * parent + 1 || i == 2 * parent + 2
  }

  /** The heap property, except possibly between position `above` and its children and `below` and its parent. */
  ghost predicate IsHeapExcept<T>(columns: seq<SortColumn<T>>, heap: seq<T>, above: int, below: int) {
    forall i, p | 0 <= p < i < |heap| && IsChild(i, p) && p != above && i != below ::
      NotAbove(columns, heap[i], heap[p])
  }

  ghost predicate IsHeap<T>(columns: seq<SortColumn<T>>, heap: seq<T>) {
    IsHeapExcept(columns, heap, -1, -1)
  }

  /** The parent of `hole` is not below any child of `hole`. */
  ghost predicate BridgesHole<T>(columns: seq<SortColumn<T>>, heap: seq<T>, hole: nat) {
    forall i, p | 0 <= p < hole < i < |heap| && IsChild(hole, p) && IsChild(i, hole) ::
      NotAbove(columns, heap[i], heap[p])
  }

  ghost predicate AllNotAbove<T>(columns: seq<SortColumn<T>>, low: seq<T>, high: seq<T>) {
    forall i, j | 0 <= i < |low| && 0 <= j < |high| :: NotAbove(columns, low[i], high[j])
  }

  lemma {:induction false} RootIsMaximum<T(!new)>(columns: seq<SortColumn<T>>, heap: seq<T>, i: nat)
    requires AreOrders(columns) && IsHeap(columns, heap) && i < |heap|
    ensures NotAbove(columns, heap[i], heap[0])
  {
    CompareIsOrder(columns);
    if i > 0 {
      assert IsChild(i, (i - 1) / 2);
      RootIsMaximum(columns, heap, (i - 1) / 2);
    }
  }

  lemma {:induction false} RootIsAbove<T(!new)>(columns: seq<SortColumn<T>>, heap: seq<T>)
    requires AreOrders(columns) && IsHeap(columns, heap) && heap != []
    ensures AllNotAbove(columns, heap, [heap[0]])
  {
    forall i | 0 <= i < |heap|
      ensures NotAbove(columns, heap[i], heap[0])
    {
      RootIsMaximum(columns, heap, i);
    }
  }

  function Swapped<T>(s: seq<T>, i: nat, j: nat): (r: seq<T>)
    requires i < |s| && j < |s|
    ensures multiset(r) == multiset(s)
  {
    s[i := s[j]][j := s[i]]
  }

  /** Moving the hole: copying the other entry into the hole and refilling is a swap. */
  lemma HoleMoves<T>(heap: seq<T>, hole: nat, to: nat, data: T)
    requires hole < |heap| && to < |heap| && hole != to
    ensures Swapped(heap[hole := data], hole, to) == heap[hole := heap[to]][to := data]
  {
  }

  lemma SiftUpStep<T(!new)>(columns: seq<SortColumn<T>>, h: seq<T>, hole: nat, parent: nat)
    requires AreOrders(columns) && hole < |h| && IsChild(hole, parent)
    requires IsHeapExcept(columns, h, -1, hole) && BridgesHole(columns, h, hole)
    requires Compare(columns, h[parent], h[hole]) < 0
    ensures IsHeapExcept(columns, Swapped(h, hole, parent), -1, parent)
    ensures BridgesHole(columns, Swapped(h, hole, parent), parent)
  {
    CompareIsOrder(columns);
    var s := Swapped(h, hole, parent);
    forall i, p | 0 <= p < i < |s| && IsChild(i, p) && i != parent
      ensures NotAbove(columns, s[i], s[p])
    {
      if p == parent && i != hole {
        NotAboveTransitive(columns, h[i], h[parent], h[hole]);
      }
    }
    forall i, p | 0 <= p < parent < i < |s| && IsChild(parent, p) && IsChild(i, parent)
      ensures NotAbove(columns, s[i], s[p])
    {
      assert NotAbove(columns, h[parent], h[p]);
      if i != hole {
        NotAboveTransitive(columns, h[i], h[parent], h[p]);
      }
    }
  }

  lemma SiftUpEnd<T(!new)>(columns: seq<SortColumn<T>>, h: seq<T>, hole: nat)
    requires AreOrders(columns) && hole < |h| && IsHeapExcept(columns, h, -1, hole)
    requires hole == 0 || NotAbove(columns, h[hole], h[(hole - 1) / 2])
    ensures IsHeap(columns, h)
  {
  }

  lemma SiftDownStep<T(!new)>(columns: seq<SortColumn<T>>, h: seq<T>, hole: nat, child: nat)
    requires AreOrders(columns) && child < |h| && IsChild(child, hole)
    requires IsHeapExcept(columns, h, hole, -1) && BridgesHole(columns, h, hole)
    requires Compare(columns, h[child], h[hole]) > 0
    requires forall i | hole < i < |h| && IsChild(i, hole) :: NotAbove(columns, h[i], h[child])
    ensures IsHeapExcept(columns, Swapped(h, hole, child), child, -1)
    ensures BridgesHole(columns, Swapped(h, hole, child), child)
  {
    CompareIsOrder(columns);
  }

  lemma SiftDownEnd<T(!new)>(columns: seq<SortColumn<T>>, h: seq<T>, hole: nat, child: nat)
    requires AreOrders(columns) && IsHeapExcept(columns, h, hole, -1) && hole < |h|
    requires child < |h| ==> NotAbove(columns, h[child], h[hole])
    requires forall i | hole < i < |h| && IsChild(i, hole) :: child < |h| && NotAbove(columns, h[i], h[child])
    ensures IsHeap(columns, h)
  {
    forall i | hole < i < |h| && IsChild(i, hole)
      ensures NotAbove(columns, h[i], h[hole])
    {
      NotAboveTransitive(columns, h[i], h[child], h[hole]);
    }
  }

  lemma SiftDownLeaf<T(!new)>(columns: seq<SortColumn<T>>, h: seq<T>, hole: nat)
    requires AreOrders(columns) && hole < |h|
    requires IsHeap(columns, h) || (IsHeapExcept(columns, h, hole, -1) && |h| <= 2 * hole + 1)
    ensures IsHeap(columns, h)
  {
  }

  lemma LargerChild<T(!new)>(columns: seq<SortColumn<T>>, h: seq<T>, hole: nat, child: nat)
    requires AreOrders(columns)
    requires var left := 2 * hole + 1;
             left < |h| &&
             child == if left + 1 < |h| && Compare(columns, h[left + 1], h[left]) > 0 then left + 1 else left
    ensures forall i | hole < i < |h| && IsChild(i, hole) :: NotAbove(columns, h[i], h[child])
  {
    CompareIsOrder(columns);
  }

  lemma AllNotAboveElements<T>(columns: seq<SortColumn<T>>, low: seq<T>, high: seq<T>, part: seq<T>)
    requires AllNotAbove(columns, low, high) && multiset(part) <= multiset(low)
    ensures AllNotAbove(columns, part, high)
  {
    forall i, j | 0 <= i < |part| && 0 <= j < |high|
      ensures NotAbove(columns, part[i], high[j])
    {
      assert part[i] in multiset(part);
      assert part[i] in low;
    }
  }

  /** The rows of `all`, with a hole that is the only place where the heap property may fail. */
  ghost predicate HoleAt<T>(columns: seq<SortColumn<T>>, h: seq<T>, hole: nat, all: seq<T>) {
    multiset(h) == multiset(all) && IsHeapExcept(columns, h, hole, -1) && BridgesHole(columns, h, hole)
  }

  /** One turn of the loop: the greater child moves up, and the hole down. */
  lemma HoleSinks<T(!new)>(columns: seq<SortColumn<T>>, heap: seq<T>, h: seq<T>, hole: nat, child: nat, last: T,
                           all: seq<T>)
    requires AreOrders(columns) && hole < |heap| && h == heap[hole := last] && HoleAt(columns, h, hole, all)
    requires child < |h| && IsChild(child, hole) && Compare(columns, h[child], last) > 0
    requires forall i | hole < i < |h| && IsChild(i, hole) :: NotAbove(columns, h[i], h[child])
    ensures HoleAt(columns, Swapped(h, hole, child), child, all)
    ensures Swapped(h, hole, child) == heap[hole := heap[child]][child := last]
  {
    SiftDownStep(columns, h, hole, child);
    HoleMoves(heap, hole, child, last);
  }

  lemma RootReplaced<T>(heap: seq<T>)
    requires |heap| > 1
    ensures var n := |heap| - 1; multiset(heap[..n][0 := heap[n]]) + multiset{heap[0]} == multiset(heap)
  {
    var n := |heap| - 1;
    assert heap == heap[..n] + [heap[n]];
  }

  class RowSortedSet<T(!new)> {
    var sortColumns: seq<SortColumn<T>>
    var heap: seq<T>

    ghost predicate Valid()
      reads this
    {
      AreOrders(sortColumns) && IsHeap(sortColumns, heap)
    }

    constructor (columns: seq<SortColumn<T>>)
      requires AreOrders(columns)
      ensures Valid() && sortColumns == columns && heap == []
    {
      sortColumns, heap := columns, [];
    }

    /** Adds a row; with a positive limit a row that is then too many is dropped, and none that stays is above it. */
    method Insert(data: T, limit: int) returns (ghost dropped: seq<T>)
      requires Valid()
      modifies this
      ensures Valid() && sortColumns == old(sortColumns)
      ensures multiset(heap) + multiset(dropped) == multiset(old(heap)) + multiset{data}
      ensures |dropped| == if limit > 0 && |old(heap)| + 1 > limit then 1 else 0
      ensures AllNotAbove(sortColumns, heap, dropped)
    {
      heap := heap + [data];
      ghost var h := heap; // the heap with `data` in the hole
      var cur := |heap| - 1;
      while cur != 0 && Compare(sortColumns, heap[(cur - 1) / 2], data) < 0
        invariant 0 <= cur < |heap| && sortColumns == old(sortColumns)
        invariant h == heap[cur := data] && multiset(h) == multiset(old(heap)) + multiset{data}
        invariant IsHeapExcept(sortColumns, h, -1, cur) && BridgesHole(sortColumns, h, cur)
      {
        var parent := (cur - 1) / 2;
        SiftUpStep(sortColumns, h, cur, parent);
        HoleMoves(heap, cur, parent, data);
        h := Swapped(h, cur, parent);
        heap := heap[cur := heap[parent]];
        cur := parent;
      }
      heap := heap[cur := data];
      if cur != 0 {
        CompareSign(sortColumns, data, heap[(cur - 1) / 2]);
      }
      SiftUpEnd(sortColumns, heap, cur);
      dropped := [];
      if limit > 0 && |heap| > limit {
        var top := Extract();
        dropped := [top.value];
      }
    }

    /** The loop of `extract`: walks the hole at the root down and fills it with `last`. */
    method FillRoot(last: T)
      requires AreOrders(sortColumns) && heap != [] && IsHeapExcept(sortColumns, heap[0 := last], 0, -1)
      modifies this`heap
      ensures Valid() && multiset(heap) == multiset(old(heap)[0 := last])
    {
      ghost var h := heap[0 := last]; // the heap with `last` in the hole
      var cur := 0;
      while 2 * cur + 1 < |heap|
        invariant 0 <= cur < |heap| && h == heap[cur := last]
        invariant HoleAt(sortColumns, h, cur, old(heap)[0 := last])
      {
        var child := 2 * cur + 1;
        if child + 1 < |heap| && Compare(sortColumns, heap[child + 1], heap[child]) > 0 {
          child := child + 1;
        }
        LargerChild(sortColumns, h, cur, child);
        if Compare(sortColumns, heap[child], last) > 0 {
          HoleSinks(sortColumns, heap, h, cur, child, last, old(heap)[0 := last]);
          h := Swapped(h, cur, child);
          heap := heap[cur := heap[child]];
        } else {
          SiftDownEnd(sortColumns, h, cur, child);
          break;
        }
        cur := child;
      }
      heap := heap[cur := last];
      SiftDownLeaf(sortColumns, heap, cur);
    }

    /** Takes a greatest row out; nothing comes out of an empty heap. */
    method Extract() returns (data: Extracted<T>)
      requires Valid()
      modifies this
      ensures Valid() && sortColumns == old(sortColumns)
      ensures data == Nothing <==> old(heap) == []
      ensures data == Nothing ==> heap == []
      ensures data.Row? ==> multiset(heap) + multiset{data.value} == multiset(old(heap))
      ensures data.Row? ==> AllNotAbove(sortColumns, heap, [data.value])
    {
      if heap == [] {
        return Nothing;
      }
      RootIsAbove(sortColumns, heap);
      data := Row(heap[0]);
      if |heap| == 1 {
        heap := [];
        return;
      }
      var last := heap[|heap| - 1];
      heap := heap[..|heap| - 1];
      RootReplaced(old(heap));
      FillRoot(last);
      assert multiset(heap) <= multiset(old(heap));
      AllNotAboveElements(sortColumns, old(heap), [data.value], heap);
    }
  }

  /** The result of `extract`: a row, or the null pointer of an empty heap. */
  datatype Extracted<T> = Nothing | Row(value: T)
}
