/**
 Filter trees (src/AndingFilter.cc, src/OringFilter.cc, src/NegatingFilter.h, src/IntColumnFilter.cc,
 src/TimeColumnFilter.cc) and the two walks that narrow a log query before any line is read: the time window and the
 class mask.
 */
module Filters {
  import opened Bitmask

  /** One table row, seen through its columns. `matches` gives the verdicts of all filters of other column types. */
  datatype Row = Row(ints: string -> int, times: string -> int, matches: nat -> bool)

  /** The operators of src/opids.h; integer and time columns implement only three of them. */
  datatype Operator = Equal | Greater | Less | Unsupported

  datatype Filter =
    | IntFilter(column: string, op: Operator, negate: bool, ref: int)
    | TimeFilter(column: string, op: Operator, negate: bool, ref: int)
    | ForeignFilter(id: nat)
    | AndingFilter(subs: seq<Filter>)
    | OringFilter(subs: seq<Filter>)
    | NegatingFilter(sub: Filter)

  predicate Compares(op: Operator, value: int, ref: int) {
    match op
    case Equal => value == ref
    case Greater => value > ref
    case Less => value < ref
    case Unsupported => true
  }

  predicate Accepts(f: Filter, row: Row) {
    match f
    case IntFilter(column, op, negate, ref) => Compares(op, row.ints(column), ref) != negate
    case TimeFilter(column, op, negate, ref) => Compares(op, row.times(column), ref) != negate
    case ForeignFilter(id) => row.matches(id)
    case AndingFilter(_) => forall s | s in f.subs :: Accepts(s, row)
    case OringFilter(_) => exists s | s in f.subs :: Accepts(s, row)
    case NegatingFilter(sub) => !Accepts(sub, row)
  }

  /** What an operator says about two numbers; without an operator, yes. */
  predicate Holds(op: Operator, value: int, ref: int) {
    (op == Equal ==> value == ref) && (op == Greater ==> value > ref) && (op == Less ==> value < ref)
  }

  /** The verdict of a tree, by the values of its columns and the verdicts of its subtrees. */
  ghost predicate DecidesBy(f: Filter, row: Row, pass: bool) {
    match f
    case IntFilter(column, op, negate, ref) => pass == if negate then !Holds(op, row.ints(column), ref)
                                               else Holds(op, row.ints(column), ref)
    case TimeFilter(column, op, negate, ref) => pass == if negate then !Holds(op, row.times(column), ref)
                                                else Holds(op, row.times(column), ref)
    case ForeignFilter(id) => pass == row.matches(id)
    case AndingFilter(subs) => if pass then forall s | s in subs :: DecidesBy(s, row, true)
                               else exists s | s in subs :: DecidesBy(s, row, false)
    case OringFilter(subs) => if pass then exists s | s in subs :: DecidesBy(s, row, true)
                              else forall s | s in subs :: DecidesBy(s, row, false)
    case NegatingFilter(sub) => DecidesBy(sub, row, !pass)
  }

  /** Exactly one verdict is right, for every tree and row: an And is all of its filters, an Or one of them. */
  lemma {:induction false} AcceptsMeans(f: Filter, row: Row, pass: bool)
    ensures DecidesBy(f, row, pass) <==> pass == Accepts(f, row)
    decreases f
  {
    match f
    case AndingFilter(subs) => AllMean(subs, row);
    case OringFilter(subs) => AllMean(subs, row);
    case NegatingFilter(sub) => AcceptsMeans(sub, row, !pass);
    case _ =>
  }

  lemma {:induction false} AllMean(subs: seq<Filter>, row: Row)
    ensures forall s, pass | s in subs :: DecidesBy(s, row, pass) <==> pass == Accepts(s, row)
    decreases subs
  {
    forall s, pass | s in subs
      ensures DecidesBy(s, row, pass) <==> pass == Accepts(s, row)
    {
      AcceptsMeans(s, row, pass);
    }
  }

  /** `accepts`: the And and Or nodes stop at the first subfilter that decides. */
  method Evaluate(f: Filter, row: Row) returns (pass: bool)
    ensures pass == Accepts(f, row) && DecidesBy(f, row, pass)
    decreases f
  {
    AcceptsMeans(f, row, Accepts(f, row));
    match f
    case IntFilter(_, _, _, _) => pass := Compares(f.op, row.ints(f.column), f.ref) != f.negate;
    case TimeFilter(_, _, _, _) => pass := Compares(f.op, row.times(f.column), f.ref) != f.negate;
    case ForeignFilter(id) => pass := row.matches(id);
    case NegatingFilter(sub) =>
      var inner := Evaluate(sub, row);
      pass := !inner;
    case AndingFilter(subs) =>
      for i := 0 to |subs|
        invariant forall k | 0 <= k < i :: Accepts(subs[k], row)
      {
        var inner := Evaluate(subs[i], row);
        if !inner {
          assert subs[i] in subs;
          return false;
        }
      }
      return true;
    case OringFilter(subs) =>
      for i := 0 to |subs|
        invariant forall k | 0 <= k < i :: !Accepts(subs[k], row)
      {
        var inner := Evaluate(subs[i], row);
        if inner {
          assert subs[i] in subs;
          return true;
        }
      }
      return false;
  }

  // ---------- The time window ----------

  /** The half-open interval [lower, upper). */
  datatype Window = Window(lower: int, upper: int) {
    predicate Contains(t: int) { lower <= t < upper }
  }

  /** TimeColumnFilter::findTimeLimits for a filter on the wanted column. */
  function NarrowLeaf(op: Operator, negate: bool, ref: int, w: Window): Window {
    if w.lower >= w.upper then w
    else match (op, negate)
      case (Equal, false) =>
        if w.lower <= ref < w.upper then Window(ref, ref + 1) else w.(lower := w.upper)
      case (Equal, true) =>
        if ref == w.lower then w.(lower := w.lower + 1)
        else if ref == w.upper - 1 then w.(upper := w.upper - 1)
        else w
      case (Greater, false) => if ref >= w.lower then w.(lower := ref + 1) else w
      case (Less, false) => if ref < w.upper then w.(upper := ref) else w
      case (Greater, true) => if ref < w.upper - 1 then w.(upper := ref + 1) else w
      case (Less, true) => if ref > w.lower then w.(lower := ref) else w
      case (Unsupported, _) => w
  }

  /** The walk: an Or node inherits the And node's version, a Negate node keeps the default that does nothing. */
  function Narrow(f: Filter, column: string, w: Window): Window
    decreases f, 1
  {
    match f
    case TimeFilter(c, op, negate, ref) => if c == column then NarrowLeaf(op, negate, ref, w) else w
    case AndingFilter(subs) => NarrowAll(subs, column, w)
    case OringFilter(subs) => NarrowAll(subs, column, w)
    case _ => w
  }

  function NarrowAll(subs: seq<Filter>, column: string, w: Window): Window
    decreases subs, 0
  {
    if subs == [] then w else NarrowAll(subs[1..], column, Narrow(subs[0], column, w))
  }

  method FindTimeLimits(f: Filter, column: string, lower: int, upper: int) returns (lower': int, upper': int)
    ensures Window(lower', upper') == Narrow(f, column, Window(lower, upper))
    decreases f
  {
    lower', upper' := lower, upper;
    match f
    case TimeFilter(c, op, negate, ref) =>
      if c != column || lower >= upper {
        return;
      }
      match (op, negate) {
        case (Equal, false) =>
          if ref >= lower && ref < upper {
            lower', upper' := ref, ref + 1;
          } else {
            lower' := upper;
          }
        case (Equal, true) =>
          if ref == lower {
            lower' := lower + 1;
          } else if ref == upper - 1 {
            upper' := upper - 1;
          }
        case (Greater, false) =>
          if ref >= lower {
            lower' := ref + 1;
          }
        case (Less, false) =>
          if ref < upper {
            upper' := ref;
          }
        case (Greater, true) =>
          if ref < upper - 1 {
            upper' := ref + 1;
          }
        case (Less, true) =>
          if ref > lower {
            lower' := ref;
          }
        case (Unsupported, _) =>
      }
    case AndingFilter(subs) =>
      lower', upper' := FindTimeLimitsInAll(subs, column, lower, upper);
    case OringFilter(subs) =>
      lower', upper' := FindTimeLimitsInAll(subs, column, lower, upper);
    case _ =>
  }

  /** AndingFilter::findTimeLimits: the loop over the subfilters. */
  method FindTimeLimitsInAll(subs: seq<Filter>, column: string, lower: int, upper: int)
    returns (lower': int, upper': int)
    ensures Window(lower', upper') == NarrowAll(subs, column, Window(lower, upper))
    decreases subs
  {
    lower', upper' := lower, upper;
    for i := 0 to |subs|
      invariant NarrowAll(subs[i..], column, Window(lower', upper')) == NarrowAll(subs, column, Window(lower, upper))
    {
      lower', upper' := FindTimeLimits(subs[i], column, lower', upper');
    }
  }

  /**
   What one filter on the column leaves of a window: the times for which it holds, except that a != filter takes away
   no time that is strictly inside.
   */
  lemma LeafLeaves(column: string, op: Operator, negate: bool, ref: int, w: Window, t: int)
    ensures Narrow(TimeFilter(column, op, negate, ref), column, w).Contains(t) <==>
            w.lower <= t < w.upper &&
            (Holds(op, t, ref) != negate || op == Unsupported || (op == Equal && negate && w.lower < ref < w.upper - 1))
  {
  }

  /** The walk comes to this filter: through And and Or nodes, but not through Negate nodes. */
  predicate ComesTo(f: Filter, leaf: Filter) {
    match f
    case AndingFilter(_) => exists s | s in f.subs :: ComesTo(s, leaf)
    case OringFilter(_) => exists s | s in f.subs :: ComesTo(s, leaf)
    case _ => f == leaf
  }

  /** A filter on this time column holds at a time. */
  predicate HoldsAt(leaf: Filter, t: int) {
    leaf.TimeFilter? && (leaf.op == Unsupported || Holds(leaf.op, t, leaf.ref) != leaf.negate)
  }

  /** The walk comes to no != filter on this column. */
  predicate WithoutUnequal(f: Filter, column: string) {
    match f
    case TimeFilter(c, op, negate, _) => !(c == column && op == Equal && negate)
    case AndingFilter(_) => forall s | s in f.subs :: WithoutUnequal(s, column)
    case OringFilter(_) => forall s | s in f.subs :: WithoutUnequal(s, column)
    case _ => true
  }

  ghost predicate AllHoldAt(f: Filter, column: string, t: int) {
    forall leaf: Filter | ComesTo(f, leaf) && leaf.TimeFilter? && leaf.column == column :: HoldsAt(leaf, t)
  }

  /**
   For every tree without !=: the window that the walk leaves holds the times at which all the filters on the column
   hold that it comes to, be it through And or through Or nodes, and whatever is negated.
   */
  lemma {:induction false} NarrowedByAll(f: Filter, column: string, w: Window, t: int)
    requires WithoutUnequal(f, column)
    ensures Narrow(f, column, w).Contains(t) <==> w.lower <= t < w.upper && AllHoldAt(f, column, t)
    decreases f, 1
  {
    match f
    case TimeFilter(c, op, negate, ref) =>
      assert ComesTo(f, f);
    case AndingFilter(subs) =>
      AllHoldInParts(f, column, t);
      EachNarrows(subs, column, w, t);
    case OringFilter(subs) =>
      AllHoldInParts(f, column, t);
      EachNarrows(subs, column, w, t);
    case _ =>
  }

  lemma AllHoldInParts(f: Filter, column: string, t: int)
    requires f.AndingFilter? || f.OringFilter?
    ensures AllHoldAt(f, column, t) <==> forall s | s in f.subs :: AllHoldAt(s, column, t)
  {
    if AllHoldAt(f, column, t) {
      forall s, leaf: Filter | s in f.subs && ComesTo(s, leaf) && leaf.TimeFilter? && leaf.column == column
        ensures HoldsAt(leaf, t)
      {
        assert ComesTo(f, leaf);
      }
    }
  }

  lemma {:induction false} EachNarrows(subs: seq<Filter>, column: string, w: Window, t: int)
    requires forall s | s in subs :: WithoutUnequal(s, column)
    ensures NarrowAll(subs, column, w).Contains(t) <==>
            w.lower <= t < w.upper && forall s | s in subs :: AllHoldAt(s, column, t)
    decreases subs, 0
  {
    if subs != [] {
      NarrowedByAll(subs[0], column, w, t);
      EachNarrows(subs[1..], column, Narrow(subs[0], column, w), t);
      assert forall s | s in subs :: s == subs[0] || s in subs[1..];
    }
  }

  /** Narrowing never widens the window. */
  lemma {:induction false} NarrowNeverWidens(f: Filter, column: string, w: Window)
    ensures w.lower <= Narrow(f, column, w).lower && Narrow(f, column, w).upper <= w.upper
    decreases f, 1
  {
    match f
    case AndingFilter(subs) => NarrowAllNeverWidens(subs, column, w);
    case OringFilter(subs) => NarrowAllNeverWidens(subs, column, w);
    case _ =>
  }

  lemma {:induction false} NarrowAllNeverWidens(subs: seq<Filter>, column: string, w: Window)
    ensures w.lower <= NarrowAll(subs, column, w).lower && NarrowAll(subs, column, w).upper <= w.upper
    decreases subs, 0
  {
    if subs != [] {
      NarrowNeverWidens(subs[0], column, w);
      NarrowAllNeverWidens(subs[1..], column, Narrow(subs[0], column, w));
    }
  }

  /** The walk meets a filter on this time column. */
  predicate Reaches(f: Filter, column: string) {
    match f
    case TimeFilter(c, _, _, _) => c == column
    case AndingFilter(_) => exists s | s in f.subs :: Reaches(s, column)
    case OringFilter(_) => exists s | s in f.subs :: Reaches(s, column)
    case _ => false
  }

  /** No Or node that the walk enters holds a filter on this time column. */
  predicate OrFree(f: Filter, column: string) {
    match f
    case AndingFilter(_) => forall s | s in f.subs :: OrFree(s, column)
    case OringFilter(subs) => !Reaches(f, column)
    case _ => true
  }

  lemma {:induction false} NarrowUnreached(f: Filter, column: string, w: Window)
    requires !Reaches(f, column)
    ensures Narrow(f, column, w) == w
    decreases f, 1
  {
    match f
    case AndingFilter(subs) => NarrowAllUnreached(subs, column, w);
    case OringFilter(subs) => NarrowAllUnreached(subs, column, w);
    case _ =>
  }

  lemma {:induction false} NarrowAllUnreached(subs: seq<Filter>, column: string, w: Window)
    requires forall s | s in subs :: !Reaches(s, column)
    ensures NarrowAll(subs, column, w) == w
    decreases subs, 0
  {
    if subs != [] {
      NarrowUnreached(subs[0], column, w);
      NarrowAllUnreached(subs[1..], column, w);
    }
  }

  /** A row the tree accepts keeps its time inside the narrowed window. */
  lemma {:induction false} NarrowSound(f: Filter, column: string, w: Window, row: Row)
    requires OrFree(f, column)
    requires Accepts(f, row) && w.Contains(row.times(column))
    ensures Narrow(f, column, w).Contains(row.times(column))
    decreases f, 1
  {
    match f
    case AndingFilter(subs) => NarrowAllSound(subs, column, w, row);
    case OringFilter(subs) => NarrowUnreached(f, column, w);
    case _ =>
  }

  lemma {:induction false} NarrowAllSound(subs: seq<Filter>, column: string, w: Window, row: Row)
    requires forall s | s in subs :: OrFree(s, column) && Accepts(s, row)
    requires w.Contains(row.times(column))
    ensures NarrowAll(subs, column, w).Contains(row.times(column))
    decreases subs, 0
  {
    if subs != [] {
      NarrowSound(subs[0], column, w, row);
      NarrowAllSound(subs[1..], column, Narrow(subs[0], column, w), row);
    }
  }

  /** A conjunction of =, <, >, <= and >= filters on this time column. */
  predicate PureConjunction(f: Filter, column: string) {
    match f
    case TimeFilter(c, op, negate, _) => c == column && op != Unsupported && !(op == Equal && negate)
    case AndingFilter(_) => forall s | s in f.subs :: PureConjunction(s, column)
    case _ => false
  }

  /** For pure conjunctions the narrowed window is exactly the set of accepted times of the initial window. */
  lemma {:induction false} NarrowExact(f: Filter, column: string, w: Window, row: Row)
    requires PureConjunction(f, column)
    ensures Narrow(f, column, w).Contains(row.times(column)) <==> w.Contains(row.times(column)) && Accepts(f, row)
    decreases f, 1
  {
    match f
    case TimeFilter(_, _, _, _) =>
    case AndingFilter(subs) => NarrowAllExact(subs, column, w, row);
  }

  lemma {:induction false} NarrowAllExact(subs: seq<Filter>, column: string, w: Window, row: Row)
    requires forall s | s in subs :: PureConjunction(s, column)
    ensures NarrowAll(subs, column, w).Contains(row.times(column)) <==>
            w.Contains(row.times(column)) && forall s | s in subs :: Accepts(s, row)
    decreases subs, 0
  {
    if subs != [] {
      NarrowExact(subs[0], column, w, row);
      NarrowAllExact(subs[1..], column, Narrow(subs[0], column, w), row);
      assert forall s | s in subs :: s == subs[0] || s in subs[1..];
    }
  }

  function RowAt(column: string, t: int): Row {
    Row(_ => 0, c => if c == column then t else 0, _ => false)
  }

  ghost predicate SameTimes(a: Window, b: Window) {
    forall t :: a.Contains(t) <==> b.Contains(t)
  }

  /** The order of the filters in a pure conjunction does not matter. */
  lemma NarrowOrderIrrelevant(fs: seq<Filter>, gs: seq<Filter>, column: string, w: Window)
    requires forall f :: f in fs <==> f in gs
    requires forall f | f in fs :: PureConjunction(f, column)
    ensures SameTimes(NarrowAll(fs, column, w), NarrowAll(gs, column, w))
  {
    forall t
      ensures NarrowAll(fs, column, w).Contains(t) <==> NarrowAll(gs, column, w).Contains(t)
    {
      NarrowAllExact(fs, column, w, RowAt(column, t));
      NarrowAllExact(gs, column, w, RowAt(column, t));
    }
  }

  /** Every row that the filter accepts inside the window stays inside the narrowed window. */
  ghost predicate WindowKeepsAccepted(f: Filter, column: string, w: Window) {
    forall row :: Accepts(f, row) && w.Contains(row.times(column)) ==> Narrow(f, column, w).Contains(row.times(column))
  }

  /** An Or of two time filters loses rows: the inherited walk intersects the alternatives. */
  lemma OrLosesAcceptedTimes()
    ensures !WindowKeepsAccepted(OringFilter([TimeFilter("time", Less, false, 10),
                                              TimeFilter("time", Greater, false, 20)]), "time", Window(0, 100))
  {
    var early, late := TimeFilter("time", Less, false, 10), TimeFilter("time", Greater, false, 20);
    var row := RowAt("time", 5);
    assert Accepts(early, row) && early in [early, late];
    assert Accepts(OringFilter([early, late]), row);
    NarrowAllNeverWidens([early, late], "time", Window(0, 100));
    assert [early, late][1..] == [late];
    assert NarrowAll([late], "time", Narrow(early, "time", Window(0, 100))) == Window(21, 10);
  }

  /** Exactly when an Or of pure conjunctions loses no accepted time: each alternative alone gives the same window. */
  lemma OrKeepsAcceptedExactly(subs: seq<Filter>, column: string, w: Window)
    requires forall s | s in subs :: PureConjunction(s, column)
    ensures WindowKeepsAccepted(OringFilter(subs), column, w) <==>
            forall a, b | a in subs && b in subs :: SameTimes(Narrow(a, column, w), Narrow(b, column, w))
  {
    var f := OringFilter(subs);
    if forall a, b | a in subs && b in subs :: SameTimes(Narrow(a, column, w), Narrow(b, column, w)) {
      forall row | Accepts(f, row) && w.Contains(row.times(column))
        ensures Narrow(f, column, w).Contains(row.times(column))
      {
        var a :| a in subs && Accepts(a, row);
        NarrowExact(a, column, w, row);
        forall b | b in subs
          ensures Accepts(b, row)
        {
          NarrowExact(b, column, w, row);
        }
        NarrowAllExact(subs, column, w, row);
      }
    }
    if WindowKeepsAccepted(f, column, w) {
      forall a, b, t | a in subs && b in subs && Narrow(a, column, w).Contains(t)
        ensures Narrow(b, column, w).Contains(t)
      {
        var row := RowAt(column, t);
        assert row.times(column) == t;
        NarrowExact(a, column, w, row);
        NarrowExact(b, column, w, row);
        assert Accepts(f, row);
        NarrowAllExact(subs, column, w, row);
      }
    }
  }

  /** Some row with this time is accepted. */
  ghost predicate AcceptsAt(f: Filter, column: string, t: int) {
    exists row :: Accepts(f, row) && row.times(column) == t
  }

  /**
   Exactly when a tree loses no accepted time although it accepts rows of every time in the window, as an Or does that
   has a filter on another column among its alternatives: the walk must not narrow the window at all.
   */
  lemma UnboundedKeepsAcceptedExactly(f: Filter, column: string, w: Window)
    requires forall t | w.Contains(t) :: AcceptsAt(f, column, t)
    ensures WindowKeepsAccepted(f, column, w) <==> SameTimes(Narrow(f, column, w), w)
  {
    NarrowNeverWidens(f, column, w);
    if WindowKeepsAccepted(f, column, w) {
      forall t | w.Contains(t)
        ensures Narrow(f, column, w).Contains(t)
      {
        var row :| Accepts(f, row) && row.times(column) == t;
      }
    }
  }

  /** An Or of a time filter and a filter on another column loses rows, also inside an And. */
  lemma MixedOrLosesAcceptedTimes()
    ensures var either := OringFilter([TimeFilter("time", Less, false, 10), IntFilter("class", Equal, false, 1)]);
            && !WindowKeepsAccepted(either, "time", Window(0, 100))
            && !WindowKeepsAccepted(AndingFilter([either]), "time", Window(0, 100))
  {
    var early, alert := TimeFilter("time", Less, false, 10), IntFilter("class", Equal, false, 1);
    var either := OringFilter([early, alert]);
    var row := Row(c => 1, c => 50, n => false);
    assert alert in [early, alert] && Accepts(alert, row);
    assert Accepts(either, row) && Accepts(AndingFilter([either]), row);
    assert [early, alert][1..] == [alert] && [alert][1..] == [] && [either][1..] == [];
    NarrowAllUnreached([alert], "time", Window(0, 10));
    assert Narrow(early, "time", Window(0, 100)) == Window(0, 10);
    assert Narrow(either, "time", Window(0, 100)) == NarrowAll([alert], "time", Window(0, 10));
    assert Narrow(AndingFilter([either]), "time", Window(0, 100)) == NarrowAll([], "time", Window(0, 10));
  }

  // ---------- The bit mask ----------

  /** A mask, and whether a filter for the wanted column has been met. */
  datatype Masked = Masked(optimized: bool, mask: Word)

  /** IntColumnFilter::optimizeBitmask for a filter on the wanted column. */
  function MaskLeaf(op: Operator, negate: bool, ref: int, mask: Word): Masked {
    if ref < 0 || ref > 31 then Masked(true, mask)
    else match (op, negate)
      case (Equal, false) => Masked(true, And(mask, Bit(ref)))
      case (Equal, true) => Masked(true, And(mask, Not(Bit(ref))))
      case (Less, true) => Masked(true, Without(mask, 0, ref))
      case (Greater, false) => Masked(true, Without(mask, 0, ref + 1))
      case (Greater, true) => Masked(true, Without(mask, ref + 1, 32))
      case (Less, false) => Masked(true, Without(mask, ref, 32))
      case (Unsupported, _) => Masked(false, mask)
  }

  /** The walk over the tree. */
  function Mask(f: Filter, column: string, mask: Word): Masked
    decreases f, 1
  {
    match f
    case IntFilter(c, op, negate, ref) => if c == column then MaskLeaf(op, negate, ref, mask) else Masked(false, mask)
    case AndingFilter(subs) => MaskAll(subs, column, Masked(false, mask))
    case OringFilter(subs) =>
      var union := MaskAny(subs, column, Zero());
      if union.optimized then Masked(true, And(mask, union.mask)) else Masked(false, mask)
    case _ => Masked(false, mask)
  }

  function MaskAll(subs: seq<Filter>, column: string, sofar: Masked): Masked
    decreases subs, 0
  {
    if subs == [] then sofar
    else
      var m := Mask(subs[0], column, sofar.mask);
      MaskAll(subs[1..], column, Masked(sofar.optimized || m.optimized, m.mask))
  }

  function MaskAny(subs: seq<Filter>, column: string, union: Word): Masked
    decreases subs, 0
  {
    if subs == [] then Masked(true, union)
    else
      var m := Mask(subs[0], column, AllBits());
      if m.optimized then MaskAny(subs[1..], column, Or(union, m.mask)) else Masked(false, union)
  }

  /** IntColumnFilter::optimizeBitmask behind the test of the column. */
  method OptimizeLeaf(op: Operator, negate: bool, ref: int, mask: Word) returns (optimized: bool, mask': Word)
    ensures Masked(optimized, mask') == MaskLeaf(op, negate, ref, mask)
  {
    if ref < 0 || ref > 31 {
      return true, mask;
    }
    optimized, mask' := true, mask;
    var bit := Bit(ref);
    match (op, negate) {
      case (Equal, false) => mask' := And(mask, bit);
      case (Equal, true) => mask' := And(mask, Not(bit));
      case (Less, true) =>
        bit := ShiftDown(bit);
        assert ref > 0 ==> bit == Bit(ref - 1);
        mask' := ClearDownwards(mask, bit, ref);
      case (Greater, false) =>
        mask' := ClearDownwards(mask, bit, ref + 1);
      case (Greater, true) =>
        if ref == 31 {
          assert mask == Without(mask, 32, 32);
          return;
        }
        bit := ShiftUp(bit);
        mask' := ClearUpwards(mask, bit, ref + 1);
      case (Less, false) =>
        mask' := ClearUpwards(mask, bit, ref);
      case (Unsupported, _) => optimized := false;
    }
  }

  method OptimizeBitmask(f: Filter, column: string, mask: Word) returns (optimized: bool, mask': Word)
    ensures Masked(optimized, mask') == Mask(f, column, mask)
    decreases f
  {
    optimized, mask' := false, mask;
    match f
    case IntFilter(c, op, negate, ref) =>
      if c == column {
        optimized, mask' := OptimizeLeaf(op, negate, ref, mask);
      }
    case AndingFilter(subs) => optimized, mask' := OptimizeInAll(subs, column, mask);
    case OringFilter(subs) => optimized, mask' := OptimizeInAny(subs, column, mask);
    case _ =>
  }

  /** The loop of AndingFilter::optimizeBitmask. */
  method OptimizeInAll(subs: seq<Filter>, column: string, mask: Word) returns (optimized: bool, mask': Word)
    ensures Masked(optimized, mask') == MaskAll(subs, column, Masked(false, mask))
    decreases subs
  {
    optimized, mask' := false, mask;
    for i := 0 to |subs|
      invariant MaskAll(subs[i..], column, Masked(optimized, mask')) == MaskAll(subs, column, Masked(false, mask))
    {
      var hit, narrowed := OptimizeBitmask(subs[i], column, mask');
      mask' := narrowed;
      if hit {
        optimized := true;
      }
    }
  }

  /** The loop of OringFilter::optimizeBitmask. */
  method OptimizeInAny(subs: seq<Filter>, column: string, mask: Word) returns (optimized: bool, mask': Word)
    ensures Masked(optimized, mask') ==
            var union := MaskAny(subs, column, Zero());
            if union.optimized then Masked(true, And(mask, union.mask)) else Masked(false, mask)
    decreases subs
  {
    var m := Zero();
    for i := 0 to |subs|
      invariant MaskAny(subs[i..], column, m) == MaskAny(subs, column, Zero())
    {
      var hit, mm := OptimizeBitmask(subs[i], column, AllBits());
      if !hit {
        return false, mask;
      }
      m := Or(m, mm);
    }
    return true, And(mask, m);
  }

  /** The walk finds something to do: an Or only if all of its filters do. */
  predicate Optimizable(f: Filter, column: string) {
    match f
    case IntFilter(c, op, _, ref) => c == column && (op != Unsupported || ref < 0 || ref > 31)
    case AndingFilter(_) => exists s | s in f.subs :: Optimizable(s, column)
    case OringFilter(_) => forall s | s in f.subs :: Optimizable(s, column)
    case _ => false
  }

  /** The value gets past the walk; comparisons with other numbers than 0..31 stop nothing. */
  predicate Passes(f: Filter, column: string, value: int) {
    match f
    case IntFilter(c, op, negate, ref) =>
      c == column && op != Unsupported && 0 <= ref <= 31 ==> Holds(op, value, ref) != negate
    case AndingFilter(_) => forall s | s in f.subs :: Passes(s, column, value)
    case OringFilter(_) => Optimizable(f, column) ==> exists s | s in f.subs :: Passes(s, column, value)
    case _ => true
  }

  /** For every tree, what the walk returns and which bits it leaves. */
  lemma {:induction false} MaskMeans(f: Filter, column: string, mask: Word, k: nat)
    requires k < 32
    ensures Mask(f, column, mask).optimized <==> Optimizable(f, column)
    ensures Mask(f, column, mask).mask[k] <==> mask[k] && Passes(f, column, k)
    decreases f, 1
  {
    match f
    case AndingFilter(subs) => MaskOfAll(subs, column, Masked(false, mask), k);
    case OringFilter(subs) => MaskOfAny(subs, column, Zero(), k);
    case _ =>
  }

  lemma {:induction false} MaskOfAll(subs: seq<Filter>, column: string, sofar: Masked, k: nat)
    requires k < 32
    ensures var all := MaskAll(subs, column, sofar);
            && (all.optimized <==> sofar.optimized || exists s | s in subs :: Optimizable(s, column))
            && (all.mask[k] <==> sofar.mask[k] && forall s | s in subs :: Passes(s, column, k))
    decreases subs, 0
  {
    if subs != [] {
      MaskMeans(subs[0], column, sofar.mask, k);
      var m := Mask(subs[0], column, sofar.mask);
      MaskOfAll(subs[1..], column, Masked(sofar.optimized || m.optimized, m.mask), k);
      assert forall s | s in subs :: s == subs[0] || s in subs[1..];
    }
  }

  lemma {:induction false} MaskOfAny(subs: seq<Filter>, column: string, union: Word, k: nat)
    requires k < 32
    ensures var any := MaskAny(subs, column, union);
            && (any.optimized <==> forall s | s in subs :: Optimizable(s, column))
            && (any.optimized ==> (any.mask[k] <==> union[k] || exists s | s in subs :: Passes(s, column, k)))
    decreases subs, 0
  {
    if subs != [] {
      MaskMeans(subs[0], column, AllBits(), k);
      MaskOfAny(subs[1..], column, Or(union, Mask(subs[0], column, AllBits()).mask), k);
      assert forall s | s in subs :: s == subs[0] || s in subs[1..];
    }
  }

  /** A row the tree accepts keeps the bit of its column value, whatever the tree. */
  lemma {:induction false} MaskSound(f: Filter, column: string, mask: Word, row: Row)
    requires 0 <= row.ints(column) < 32
    requires Accepts(f, row) && mask[row.ints(column)]
    ensures Mask(f, column, mask).mask[row.ints(column)]
    decreases f, 1
  {
    match f
    case AndingFilter(subs) => MaskAllSound(subs, column, Masked(false, mask), row);
    case OringFilter(subs) =>
      var s :| s in subs && Accepts(s, row);
      MaskAnySound(subs, column, Zero(), row);
    case _ =>
  }

  lemma {:induction false} MaskAllSound(subs: seq<Filter>, column: string, sofar: Masked, row: Row)
    requires 0 <= row.ints(column) < 32 && sofar.mask[row.ints(column)]
    requires forall s | s in subs :: Accepts(s, row)
    ensures MaskAll(subs, column, sofar).mask[row.ints(column)]
    decreases subs, 0
  {
    if subs != [] {
      MaskSound(subs[0], column, sofar.mask, row);
      var m := Mask(subs[0], column, sofar.mask);
      MaskAllSound(subs[1..], column, Masked(sofar.optimized || m.optimized, m.mask), row);
    }
  }

  lemma {:induction false} MaskAnySound(subs: seq<Filter>, column: string, union: Word, row: Row)
    requires 0 <= row.ints(column) < 32
    requires union[row.ints(column)] || exists s | s in subs :: Accepts(s, row)
    ensures MaskAny(subs, column, union).optimized ==> MaskAny(subs, column, union).mask[row.ints(column)]
    decreases subs, 0
  {
    if subs != [] && MaskAny(subs, column, union).optimized {
      if Accepts(subs[0], row) {
        MaskSound(subs[0], column, AllBits(), row);
      }
      MaskAnySound(subs[1..], column, Or(union, Mask(subs[0], column, AllBits()).mask), row);
    }
  }

  /** And/Or trees made only of comparisons of this column with 0..31, without an empty And node. */
  predicate PureComparison(f: Filter, column: string) {
    match f
    case IntFilter(c, op, _, ref) => c == column && op != Unsupported && 0 <= ref <= 31
    case AndingFilter(_) => f.subs != [] && forall s | s in f.subs :: PureComparison(s, column)
    case OringFilter(_) => forall s | s in f.subs :: PureComparison(s, column)
    case _ => false
  }

  /** For those trees a bit survives exactly when its value is accepted. */
  lemma {:induction false} MaskExact(f: Filter, column: string, mask: Word, row: Row)
    requires PureComparison(f, column) && 0 <= row.ints(column) < 32
    ensures Mask(f, column, mask).optimized
    ensures Mask(f, column, mask).mask[row.ints(column)] <==> mask[row.ints(column)] && Accepts(f, row)
    decreases f, 1
  {
    match f
    case IntFilter(_, _, _, _) =>
    case AndingFilter(subs) => MaskAllExact(subs, column, Masked(false, mask), row);
    case OringFilter(subs) => MaskAnyExact(subs, column, Zero(), row);
  }

  lemma {:induction false} MaskAllExact(subs: seq<Filter>, column: string, sofar: Masked, row: Row)
    requires 0 <= row.ints(column) < 32
    requires forall s | s in subs :: PureComparison(s, column)
    ensures MaskAll(subs, column, sofar).optimized <==> sofar.optimized || subs != []
    ensures MaskAll(subs, column, sofar).mask[row.ints(column)] <==>
            sofar.mask[row.ints(column)] && forall s | s in subs :: Accepts(s, row)
    decreases subs, 0
  {
    if subs != [] {
      MaskExact(subs[0], column, sofar.mask, row);
      var m := Mask(subs[0], column, sofar.mask);
      MaskAllExact(subs[1..], column, Masked(sofar.optimized || m.optimized, m.mask), row);
      assert forall s | s in subs :: s == subs[0] || s in subs[1..];
    }
  }

  lemma {:induction false} MaskAnyExact(subs: seq<Filter>, column: string, union: Word, row: Row)
    requires 0 <= row.ints(column) < 32
    requires forall s | s in subs :: PureComparison(s, column)
    ensures MaskAny(subs, column, union).optimized
    ensures MaskAny(subs, column, union).mask[row.ints(column)] <==>
            union[row.ints(column)] || exists s | s in subs :: Accepts(s, row)
    decreases subs, 0
  {
    if subs != [] {
      MaskExact(subs[0], column, AllBits(), row);
      MaskAnyExact(subs[1..], column, Or(union, Mask(subs[0], column, AllBits()).mask), row);
      assert forall s | s in subs :: s == subs[0] || s in subs[1..];
    }
  }
}
