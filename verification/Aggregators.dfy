/** The Stats: aggregators over integer columns and filters (src/IntAggregator.cc, src/CountAggregator.cc). */
module Aggregators {
  datatype StatsOp = Sum | Min | Max | Avg | Std

  /** A Stats: header: count the rows a filter accepts, or aggregate an integer column. */
  datatype StatsColumn<!T> = CountColumn(filter: T -> bool) | IntColumn(op: StatsOp, value: T -> int)

  datatype Aggregator = Aggregator(count: nat, aggr: int, sumq: real)

  const START := Aggregator(0, 0, 0.0)

  function Consumed<T>(c: StatsColumn<T>, a: Aggregator, row: T): Aggregator {
    match c
    case CountColumn(filter) => if filter(row) then a.(count := a.count + 1) else a
    case IntColumn(op, value) => ConsumedValue(op, a, value(row))
  }

  function ConsumedValue(op: StatsOp, a: Aggregator, v: int): Aggregator {
    match op
    case Sum => Aggregator(a.count + 1, a.aggr + v, a.sumq)
    case Avg => Aggregator(a.count + 1, a.aggr + v, a.sumq)
    case Min => Aggregator(a.count + 1, if a.count == 0 || v < a.aggr then v else a.aggr, a.sumq)
    case Max => Aggregator(a.count + 1, if a.count == 0 || v > a.aggr then v else a.aggr, a.sumq)
    case Std => Aggregator(a.count + 1, a.aggr + v, a.sumq + (v * v) as real)
  }

  function Folded<T>(c: StatsColumn<T>, rows: seq<T>): Aggregator {
    if rows == [] then START
    else Consumed(c, Folded(c, rows[..|rows| - 1]), rows[|rows| - 1])
  }

  /** What an aggregator prints: a whole number, a quotient, a square root, or the quotient 0/0. */
  datatype Shown = Whole(number: int) | Quotient(value: real) | RootOf(radicand: real) | NotANumber

  function Ratio(a: real, b: real): real
    requires b != 0.0
  {
    a / b
  }

  function Output<T>(c: StatsColumn<T>, a: Aggregator): Shown {
    if c.CountColumn? then Whole(a.count)
    else match c.op
      case Avg => if a.count == 0 then NotANumber else Quotient(Ratio(a.aggr as real, a.count as real))
      case Std => if a.count <= 1 then Quotient(0.0) else RootOf(Radicand(a.count, a.aggr as real, a.sumq))
      case _ => Whole(a.aggr)
  }

  function Radicand(count: nat, aggr: real, sumq: real): real
    requires count > 1
  {
    Ratio(sumq - Ratio(aggr * aggr, count as real), (count - 1) as real)
  }

  /** IntAggregator: the running values are fields that `consume` updates. */
  class IntAggregator {
    const op: StatsOp
    var count: nat
    var aggr: int
    var sumq: real

    function State(): Aggregator
      reads this
    {
      Aggregator(count, aggr, sumq)
    }

    constructor (op: StatsOp)
      ensures this.op == op && State() == START
    {
      this.op := op;
      count, aggr, sumq := 0, 0, 0.0;
    }

    method Consume(value: int)
      modifies this
      ensures State() == ConsumedValue(op, old(State()), value)
    {
      count := count + 1;
      match op
      case Sum => aggr := aggr + value;
      case Avg => aggr := aggr + value;
      case Min =>
        if count == 1 {
          aggr := value;
        } else if value < aggr {
          aggr := value;
        }
      case Max =>
        if count == 1 {
          aggr := value;
        } else if value > aggr {
          aggr := value;
        }
      case Std =>
        aggr := aggr + value;
        sumq := sumq + (value * value) as real;
    }
  }

  // ---------- Arrival order does not matter ----------

  lemma ConsumedCommutes<T>(c: StatsColumn<T>, a: Aggregator, x: T, y: T)
    ensures Consumed(c, Consumed(c, a, x), y) == Consumed(c, Consumed(c, a, y), x)
  {
  }

  /** Consuming a row first or last makes no difference. */
  lemma FoldedNext<T>(c: StatsColumn<T>, rows: seq<T>, x: T)
    ensures Folded(c, rows + [x]) == Consumed(c, Folded(c, rows), x)
  {
    assert (rows + [x])[..|rows|] == rows;
  }

  lemma {:induction false} FoldedMovesToEnd<T>(c: StatsColumn<T>, before: seq<T>, x: T, after: seq<T>)
    ensures Folded(c, before + [x] + after) == Consumed(c, Folded(c, before + after), x)
  {
    if after == [] {
      assert before + [x] + after == before + [x];
      assert before + after == before;
      FoldedNext(c, before, x);
    } else {
      var last, rest := after[|after| - 1], after[..|after| - 1];
      FoldedMovesToEnd(c, before, x, rest);
      assert before + [x] + after == (before + [x] + rest) + [last];
      assert before + after == (before + rest) + [last];
      FoldedNext(c, before + [x] + rest, last);
      FoldedNext(c, before + rest, last);
      ConsumedCommutes(c, Folded(c, before + rest), x, last);
    }
  }

  lemma OneRemoved<T>(s: seq<T>, i: nat)
    requires i < |s|
    ensures s == s[..i] + [s[i]] + s[i + 1..]
    ensures multiset(s[..i] + s[i + 1..]) == multiset(s) - multiset{s[i]}
  {
    assert s == s[..i] + [s[i]] + s[i + 1..];
    assert multiset(s) == multiset(s[..i]) + multiset{s[i]} + multiset(s[i + 1..]);
  }

  lemma {:induction false} FoldedOrderIrrelevant<T>(c: StatsColumn<T>, rows: seq<T>, other: seq<T>)
    requires multiset(rows) == multiset(other)
    ensures Folded(c, rows) == Folded(c, other)
    decreases |rows|
  {
    if rows == [] {
      assert |multiset(other)| == 0;
    } else {
      var x, rest := rows[|rows| - 1], rows[..|rows| - 1];
      assert rows == rest + [x];
      assert x in multiset(other);
      var i :| 0 <= i < |other| && other[i] == x;
      OneRemoved(other, i);
      assert multiset(rest) == multiset(rows) - multiset{x};
      FoldedMovesToEnd(c, other[..i], x, other[i + 1..]);
      FoldedOrderIrrelevant(c, rest, other[..i] + other[i + 1..]);
    }
  }

  // ---------- What the printed values mean ----------

  function Total(values: seq<int>): int {
    if values == [] then 0 else Total(values[..|values| - 1]) + values[|values| - 1]
  }

  function SumOfSquares(values: seq<int>): real {
    if values == [] then 0.0
    else SumOfSquares(values[..|values| - 1]) + (values[|values| - 1] * values[|values| - 1]) as real
  }

  /** The sum of the squared distances from `mean`. */
  function Scatter(values: seq<int>, mean: real): real {
    if values == [] then 0.0
    else
      var d := values[|values| - 1] as real - mean;
      Scatter(values[..|values| - 1], mean) + d * d
  }

  function Values<T>(value: T -> int, rows: seq<T>): seq<int> {
    seq(|rows|, i requires 0 <= i < |rows| => value(rows[i]))
  }

  ghost function Hits<T>(filter: T -> bool, rows: seq<T>): set<nat> {
    set i: nat | i < |rows| && filter(rows[i])
  }

  lemma HitsNext<T>(filter: T -> bool, rows: seq<T>)
    requires rows != []
    ensures var n := |rows| - 1; var before := Hits(filter, rows[..n]);
            n !in before && Hits(filter, rows) == if filter(rows[n]) then before + {n} else before
  {
  }

  /** A counting header counts the rows that its filter accepts. */
  lemma {:induction false} FoldedCounts<T>(filter: T -> bool, rows: seq<T>)
    ensures Folded(CountColumn(filter), rows).count == |Hits(filter, rows)|
  {
    if rows == [] {
      assert Hits(filter, rows) == {};
    } else {
      FoldedCounts(filter, rows[..|rows| - 1]);
      HitsNext(filter, rows);
    }
  }

  lemma ValuesNext<T>(value: T -> int, rows: seq<T>)
    requires rows != []
    ensures var n := |rows| - 1;
            && Values(value, rows) == Values(value, rows[..n]) + [value(rows[n])]
            && Values(value, rows)[..n] == Values(value, rows[..n])
            && Values(value, rows)[n] == value(rows[n])
  {
  }

  lemma {:induction false} FoldedSums<T>(op: StatsOp, value: T -> int, rows: seq<T>)
    requires op in {Sum, Avg, Std}
    ensures var a := Folded(IntColumn(op, value), rows);
            && a.count == |rows| && a.aggr == Total(Values(value, rows))
            && (op == Std ==> a.sumq == SumOfSquares(Values(value, rows)))
  {
    if rows != [] {
      FoldedSums(op, value, rows[..|rows| - 1]);
      ValuesNext(value, rows);
    }
  }

  /** The smallest or the greatest of some values. */
  predicate IsExtreme(smallest: bool, a: int, values: seq<int>) {
    a in values && forall v | v in values :: if smallest then a <= v else v <= a
  }

  lemma ExtremeNext(smallest: bool, a: int, values: seq<int>, v: int)
    requires values == [] || IsExtreme(smallest, a, values)
    ensures IsExtreme(smallest, if values == [] || (if smallest then v < a else v > a) then v else a, values + [v])
  {
  }

  lemma {:induction false} FoldedExtreme<T>(op: StatsOp, value: T -> int, rows: seq<T>)
    requires op in {Min, Max}
    ensures var a := Folded(IntColumn(op, value), rows);
            a.count == |rows| && (rows != [] ==> IsExtreme(op == Min, a.aggr, Values(value, rows)))
  {
    if rows != [] {
      var n := |rows| - 1;
      FoldedExtreme(op, value, rows[..n]);
      ValuesNext(value, rows);
      ExtremeNext(op == Min, Folded(IntColumn(op, value), rows[..n]).aggr, Values(value, rows[..n]), value(rows[n]));
    }
  }

  lemma FoldedMeaning<T>(op: StatsOp, value: T -> int, rows: seq<T>)
    ensures var a := Folded(IntColumn(op, value), rows);
            var values := Values(value, rows);
            && a.count == |rows|
            && (op in {Sum, Avg, Std} ==> a.aggr == Total(values))
            && (op == Std ==> a.sumq == SumOfSquares(values))
            && (op in {Min, Max} && rows != [] ==> IsExtreme(op == Min, a.aggr, values))
  {
    if op in {Sum, Avg, Std} {
      FoldedSums(op, value, rows);
    } else {
      FoldedExtreme(op, value, rows);
    }
  }

  lemma Distributes(a: real, b: real, c: real)
    ensures a * (b + c) == a * b + a * c && (b + c) * a == b * a + c * a
  {
  }

  lemma SquareOfDifference(x: real, m: real)
    ensures (x - m) * (x - m) == x * x - 2.0 * (m * x) + m * m
    ensures (x - m) * (x - m) >= 0.0
  {
    Distributes(x - m, x, -m);
    Distributes(x, x, -m);
    Distributes(m, x, -m);
  }

  lemma SquareAsReal(v: int)
    ensures (v * v) as real == v as real * v as real
  {
  }

  /** The scatter about m of n values with sum t and sum of squares q. */
  function Expanded(q: real, t: real, n: real, m: real): real {
    q - 2.0 * (m * t) + n * (m * m)
  }

  lemma ScatterStep(q: real, t: real, n: real, m: real, x: real)
    ensures Expanded(q, t, n, m) + (x - m) * (x - m) == Expanded(q + x * x, t + x, n + 1.0, m)
  {
    SquareOfDifference(x, m);
    Distributes(m, t, x);
    Distributes(m * m, n, 1.0);
  }

  lemma {:induction false} ScatterExpands(values: seq<int>, mean: real)
    ensures Scatter(values, mean) == Expanded(SumOfSquares(values), Total(values) as real, |values| as real, mean)
  {
    if values != [] {
      var before, last := values[..|values| - 1], values[|values| - 1];
      ScatterExpands(before, mean);
      SquareAsReal(last);
      ScatterStep(SumOfSquares(before), Total(before) as real, |before| as real, mean, last as real);
    }
  }

  lemma {:induction false} ScatterNonNegative(values: seq<int>, mean: real)
    ensures Scatter(values, mean) >= 0.0
  {
    if values != [] {
      ScatterNonNegative(values[..|values| - 1], mean);
      SquareOfDifference(values[|values| - 1] as real, mean);
    }
  }

  /** The one-pass formula under the root is the sample variance, and it is never negative. */
  lemma StdIsSampleVariance<T>(value: T -> int, rows: seq<T>)
    requires |rows| >= 2
    ensures var values := Values(value, rows);
            var mean := Ratio(Total(values) as real, |rows| as real);
            var shown := Output(IntColumn(Std, value), Folded(IntColumn(Std, value), rows));
            && shown.RootOf?
            && shown.radicand == Ratio(Scatter(values, mean), (|rows| - 1) as real)
            && shown.radicand >= 0.0
  {
    FoldedMeaning(Std, value, rows);
    RadicandIsVariance(Values(value, rows));
  }

  lemma RadicandIsVariance(values: seq<int>)
    requires |values| >= 2
    ensures var mean := Ratio(Total(values) as real, |values| as real);
            var radicand := Radicand(|values|, Total(values) as real, SumOfSquares(values));
            radicand == Ratio(Scatter(values, mean), (|values| - 1) as real) && radicand >= 0.0
  {
    var n, t := |values| as real, Total(values) as real;
    var mean := Ratio(t, n);
    ScatterExpands(values, mean);
    ScatterNonNegative(values, mean);
    OnePassScatter(SumOfSquares(values), t, n);
    NonNegativeRatio(Scatter(values, mean), (|values| - 1) as real);
  }

  lemma OnePassScatter(q: real, t: real, n: real)
    requires n > 0.0
    ensures Expanded(q, t, n, Ratio(t, n)) == q - Ratio(t * t, n)
  {
    var m := Ratio(t, n);
    assert m * n == t;
    ProductsWithMean(m, n, t);
    RatioIs(t * t, n, m * t);
  }

  lemma ProductsWithMean(m: real, n: real, t: real)
    requires m * n == t
    ensures n * (m * m) == m * t && (m * t) * n == t * t
  {
    assert n * (m * m) == (m * n) * m;
    assert (m * t) * n == (m * n) * t;
  }

  lemma RatioIs(a: real, n: real, q: real)
    requires n > 0.0 && q * n == a
    ensures Ratio(a, n) == q
  {
  }

  lemma NonNegativeRatio(x: real, n: real)
    requires x >= 0.0 && n > 0.0
    ensures Ratio(x, n) >= 0.0
  {
  }

  // ---------- What is printed ----------

  /** The sample variance: times n - 1 it is the scatter about the mean, which times n is the total. */
  ghost predicate IsVariance(variance: real, values: seq<int>) {
    exists mean: real ::
      && mean * |values| as real == Total(values) as real
      && variance * (|values| - 1) as real == Scatter(values, mean)
  }

  /**
   What a Stats: header shows about some rows: how many its filter accepts; the total, the smallest or the greatest
   value of its column; the value that times the number of rows is the total; or the root of the sample variance.
   */
  ghost predicate IsStatistic<T>(c: StatsColumn<T>, rows: seq<T>, shown: Shown) {
    match c
    case CountColumn(filter) => shown == Whole(|set i: nat | i < |rows| && filter(rows[i])|)
    case IntColumn(op, value) =>
      var values := seq(|rows|, i requires 0 <= i < |rows| => value(rows[i]));
      match op
      case Sum => shown == Whole(Total(values))
      case Min =>
        shown.Whole? && if rows == [] then shown.number == 0 else
          shown.number in values && forall v | v in values :: shown.number <= v
      case Max =>
        shown.Whole? && if rows == [] then shown.number == 0 else
          shown.number in values && forall v | v in values :: shown.number >= v
      case Avg =>
        if rows == [] then shown == NotANumber
        else shown.Quotient? && shown.value * |rows| as real == Total(values) as real
      case Std =>
        if |rows| <= 1 then shown == Quotient(0.0)
        else shown.RootOf? && shown.radicand >= 0.0 && IsVariance(shown.radicand, values)
  }

  lemma RatioTimes(a: real, b: real)
    requires b != 0.0
    ensures Ratio(a, b) * b == a
  {
  }

  lemma CountIsStatistic<T>(filter: T -> bool, rows: seq<T>)
    ensures IsStatistic(CountColumn(filter), rows, Output(CountColumn(filter), Folded(CountColumn(filter), rows)))
  {
    FoldedCounts(filter, rows);
  }

  lemma QuotientIsVariance(values: seq<int>, variance: real)
    requires |values| >= 2
    requires variance == Ratio(Scatter(values, Ratio(Total(values) as real, |values| as real)), (|values| - 1) as real)
    ensures IsVariance(variance, values)
  {
    var mean := Ratio(Total(values) as real, |values| as real);
    RatioTimes(Total(values) as real, |values| as real);
    RatioTimes(Scatter(values, mean), (|values| - 1) as real);
  }

  lemma StdIsStatistic<T>(value: T -> int, rows: seq<T>)
    ensures var c := IntColumn(Std, value); IsStatistic(c, rows, Output(c, Folded(c, rows)))
  {
    FoldedMeaning(Std, value, rows);
    if |rows| >= 2 {
      StdIsSampleVariance(value, rows);
      var shown := Output(IntColumn(Std, value), Folded(IntColumn(Std, value), rows));
      QuotientIsVariance(Values(value, rows), shown.radicand);
    }
  }

  /** Every header shows its statistic of the rows that were folded. */
  lemma OutputIsStatistic<T>(c: StatsColumn<T>, rows: seq<T>)
    ensures IsStatistic(c, rows, Output(c, Folded(c, rows)))
  {
    match c
    case CountColumn(filter) => CountIsStatistic(filter, rows);
    case IntColumn(op, value) =>
      FoldedMeaning(op, value, rows);
      if op == Std {
        StdIsStatistic(value, rows);
      } else if op == Avg && rows != [] {
        RatioTimes(Total(Values(value, rows)) as real, |rows| as real);
      }
  }
}
