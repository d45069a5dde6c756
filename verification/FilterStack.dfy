/**
 The Filter:, And:, Or: and Negate: headers of a query: each header works on the stack of filters that the query's
 topmost And node holds (src/Query.cc, src/AndingFilter.cc).
 */
module FilterStacks {
  import opened Basics
  import opened Filters

  datatype Header =
    | FilterLine(filter: Filter)
    | AndLine(count: int)
    | OrLine(count: int)
    | NegateLine

  /** What one header does to the stack; None for a header that is answered with an error. */
  function Step(stack: seq<Filter>, h: Header): Option<seq<Filter>> {
    match h
    case FilterLine(f) => Some(stack + [f])
    case NegateLine =>
      if stack == [] then None
      else Some(stack[..|stack| - 1] + [NegatingFilter(stack[|stack| - 1])])
    case AndLine(n) =>
      if 0 <= n <= |stack| then Some(stack[..|stack| - n] + [AndingFilter(Reversed(stack[|stack| - n..]))]) else None
    case OrLine(n) =>
      if 0 <= n <= |stack| then Some(stack[..|stack| - n] + [OringFilter(Reversed(stack[|stack| - n..]))]) else None
  }

  function Compile(stack: seq<Filter>, headers: seq<Header>): Option<seq<Filter>>
    decreases |headers|
  {
    if headers == [] then Some(stack)
    else match Step(stack, headers[0])
      case None => None
      case Some(next) => Compile(next, headers[1..])
  }

  /** The filters below stay, and the last `count` are one node, the last of them first. */
  ghost predicate IsCombined(stack: seq<Filter>, count: nat, conjunction: bool, after: seq<Filter>) {
    && count <= |stack| && |after| == |stack| - count + 1
    && (forall i | 0 <= i < |stack| - count :: after[i] == stack[i])
    && var node := after[|stack| - count];
    && (if conjunction then node.AndingFilter? else node.OringFilter?)
    && |node.subs| == count && forall i | 0 <= i < count :: node.subs[i] == stack[|stack| - 1 - i]
  }

  lemma {:induction false} ReversedAt<T>(s: seq<T>, i: nat)
    requires i < |s|
    ensures |Reversed(s)| == |s| && Reversed(s)[i] == s[|s| - 1 - i]
  {
    if |s| > 1 {
      ReversedAt(s[..|s| - 1], if i > 0 then i - 1 else 0);
    }
  }

  lemma StepCombines(stack: seq<Filter>, count: nat, conjunction: bool)
    requires count <= |stack|
    ensures var after := Step(stack, if conjunction then AndLine(count) else OrLine(count));
            after.Some? && IsCombined(stack, count, conjunction, after.value)
  {
    var moved := stack[|stack| - count..];
    assert |Reversed(moved)| == count by {
      if count > 0 {
        ReversedAt(moved, 0);
      }
    }
    forall i | 0 <= i < count
      ensures Reversed(moved)[i] == stack[|stack| - 1 - i]
    {
      ReversedAt(moved, i);
    }
  }

  /** The query's own And node while the headers are read. */
  class FilterStack {
    var subfilters: seq<Filter>
    var error: bool

    constructor ()
      ensures subfilters == [] && !error
    {
      subfilters, error := [], false;
    }

    method AddSubfilter(f: Filter)
      modifies this
      ensures subfilters == old(subfilters) + [f] && error == old(error)
    {
      subfilters := subfilters + [f];
    }

    method StealLastSubfilter() returns (last: Option<Filter>)
      modifies this
      ensures error == old(error)
      ensures old(subfilters) == [] ==> last == None && subfilters == []
      ensures old(subfilters) != [] ==> last.Some? && subfilters + [last.value] == old(subfilters)
    {
      if subfilters == [] {
        return None;
      }
      last := Some(subfilters[|subfilters| - 1]);
      subfilters := subfilters[..|subfilters| - 1];
    }

    /** Pops `count` filters into a new node. A count larger than the stack is an error and changes nothing. */
    method CombineFilters(count: nat, conjunction: bool)
      modifies this
      ensures count <= |old(subfilters)| ==> IsCombined(old(subfilters), count, conjunction, subfilters)
      ensures var after := Step(old(subfilters), if conjunction then AndLine(count) else OrLine(count));
              if after.Some? then subfilters == after.value && error == old(error)
              else subfilters == old(subfilters) && error
    {
      if count > |subfilters| {
        error := true;
        return;
      }
      ghost var keep := |subfilters| - count;
      ghost var moved := subfilters[keep..];
      assert moved[..count] == moved;
      var left := count;
      var combined: seq<Filter> := [];
      while left != 0
        invariant 0 <= left <= count && error == old(error)
        invariant subfilters == old(subfilters)[..keep + left]
        invariant combined + Reversed(moved[..left]) == Reversed(moved)
      {
        left := left - 1;
        assert moved[..left + 1][..left] == moved[..left];
        combined := combined + [subfilters[|subfilters| - 1]];
        subfilters := subfilters[..|subfilters| - 1];
      }
      assert combined == Reversed(moved);
      AddSubfilter(if conjunction then AndingFilter(combined) else OringFilter(combined));
      StepCombines(old(subfilters), count, conjunction);
    }

    method ParseAndOrLine(count: int, conjunction: bool)
      modifies this
      ensures var after := Step(old(subfilters), if conjunction then AndLine(count) else OrLine(count));
              if after.Some? then subfilters == after.value && error == old(error)
              else subfilters == old(subfilters) && error
    {
      if count < 0 {
        error := true;
        return;
      }
      CombineFilters(count, conjunction);
    }

    method ParseNegateLine()
      modifies this
      ensures var after := Step(old(subfilters), NegateLine);
              if after.Some? then subfilters == after.value && error == old(error)
              else subfilters == old(subfilters) && error
    {
      var last := StealLastSubfilter();
      if last == None {
        error := true;
        return;
      }
      AddSubfilter(NegatingFilter(last.value));
    }

    /** The header loop of the Query constructor, for the filter headers; it reads on after an error. */
    method ParseHeaders(headers: seq<Header>)
      modifies this
      ensures !error ==> !old(error) && Compile(old(subfilters), headers) == Some(subfilters)
      ensures error ==> old(error) || Compile(old(subfilters), headers) == None
    {
      for i := 0 to |headers|
        invariant !error ==> !old(error) && Compile(subfilters, headers[i..]) == Compile(old(subfilters), headers)
        invariant error ==> old(error) || Compile(old(subfilters), headers) == None
      {
        match headers[i]
        case FilterLine(f) => AddSubfilter(f);
        case AndLine(n) => ParseAndOrLine(n, true);
        case OrLine(n) => ParseAndOrLine(n, false);
        case NegateLine => ParseNegateLine();
      }
    }
  }

  // ---------- What the headers mean ----------

  /** Postfix evaluation of one header on a stack of truth values. */
  function Evaluated(stack: seq<bool>, h: Header, row: Row): Option<seq<bool>> {
    match h
    case FilterLine(f) => Some(stack + [Accepts(f, row)])
    case NegateLine => if stack == [] then None else Some(stack[..|stack| - 1] + [!stack[|stack| - 1]])
    case AndLine(n) =>
      if 0 <= n <= |stack| then Some(stack[..|stack| - n] + [false !in stack[|stack| - n..]]) else None
    case OrLine(n) =>
      if 0 <= n <= |stack| then Some(stack[..|stack| - n] + [true in stack[|stack| - n..]]) else None
  }

  function Postfix(stack: seq<bool>, headers: seq<Header>, row: Row): Option<seq<bool>>
    decreases |headers|
  {
    if headers == [] then Some(stack)
    else match Evaluated(stack, headers[0], row)
      case None => None
      case Some(next) => Postfix(next, headers[1..], row)
  }

  function Verdicts(stack: seq<Filter>, row: Row): seq<bool> {
    seq(|stack|, i requires 0 <= i < |stack| => Accepts(stack[i], row))
  }

  lemma VerdictsOfNode(stack: seq<Filter>, row: Row)
    ensures false !in Verdicts(stack, row) <==> Accepts(AndingFilter(Reversed(stack)), row)
    ensures true in Verdicts(stack, row) <==> Accepts(OringFilter(Reversed(stack)), row)
  {
    ReversedElements(stack);
    var verdicts := Verdicts(stack, row);
    forall f | f in stack
      ensures Accepts(f, row) in verdicts
    {
      var i :| 0 <= i < |stack| && stack[i] == f;
      assert verdicts[i] == Accepts(f, row);
    }
    forall b | b in verdicts
      ensures exists f :: f in stack && Accepts(f, row) == b
    {
      var i :| 0 <= i < |stack| && verdicts[i] == b;
      assert stack[i] in stack;
    }
  }

  lemma StepMeaning(stack: seq<Filter>, h: Header, row: Row)
    ensures Step(stack, h).Some? <==> Evaluated(Verdicts(stack, row), h, row).Some?
    ensures Step(stack, h).Some? ==>
              Evaluated(Verdicts(stack, row), h, row) == Some(Verdicts(Step(stack, h).value, row))
  {
    if (h.AndLine? || h.OrLine?) && 0 <= h.count <= |stack| {
      var keep := |stack| - h.count;
      VerdictsOfNode(stack[keep..], row);
      assert Verdicts(stack, row)[keep..] == Verdicts(stack[keep..], row);
      var node := if h.AndLine? then AndingFilter(Reversed(stack[keep..])) else OringFilter(Reversed(stack[keep..]));
      assert Verdicts(stack[..keep] + [node], row) == Verdicts(stack, row)[..keep] + [Accepts(node, row)];
    } else if h.NegateLine? && stack != [] {
      var keep := |stack| - 1;
      var node := NegatingFilter(stack[keep]);
      assert Verdicts(stack[..keep] + [node], row) == Verdicts(stack, row)[..keep] + [Accepts(node, row)];
    } else if h.FilterLine? {
      assert Verdicts(stack + [h.filter], row) == Verdicts(stack, row) + [Accepts(h.filter, row)];
    }
  }

  /**
   The compiled stack has, filter by filter, the verdicts of the postfix
   evaluation, and the same headers are errors.
   */
  lemma {:induction false} CompileMeaning(stack: seq<Filter>, headers: seq<Header>, row: Row)
    ensures Compile(stack, headers).Some? <==> Postfix(Verdicts(stack, row), headers, row).Some?
    ensures Compile(stack, headers).Some? ==>
              Postfix(Verdicts(stack, row), headers, row) == Some(Verdicts(Compile(stack, headers).value, row))
    decreases |headers|
  {
    if headers != [] {
      StepMeaning(stack, headers[0], row);
      if Step(stack, headers[0]).Some? {
        CompileMeaning(Step(stack, headers[0]).value, headers[1..], row);
      }
    }
  }

  /** The query's filter accepts a row exactly when the postfix evaluation of its headers leaves no false value. */
  lemma QueryFilterMeaning(headers: seq<Header>, row: Row)
    requires Compile([], headers).Some?
    ensures Postfix([], headers, row).Some?
    ensures Accepts(AndingFilter(Compile([], headers).value), row) <==> false !in Postfix([], headers, row).value
  {
    CompileMeaning([], headers, row);
    assert Verdicts([], row) == [];
    var stack := Compile([], headers).value;
    forall i | 0 <= i < |stack|
      ensures Verdicts(stack, row)[i] == Accepts(stack[i], row) && stack[i] in stack
    {
    }
  }
}
