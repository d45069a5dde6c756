/** What several modules share. */
module Basics {
  type Byte = b: int | 0 <= b < 256

  datatype Option<T> = None | Some(value: T)

  function Reversed<T>(s: seq<T>): seq<T> {
    if s == [] then [] else [s[|s| - 1]] + Reversed(s[..|s| - 1])
  }

  lemma {:induction false} ReversedElements<T>(s: seq<T>)
    ensures |Reversed(s)| == |s| && forall x :: x in Reversed(s) <==> x in s
  {
    if s != [] {
      ReversedElements(s[..|s| - 1]);
      assert s == s[..|s| - 1] + [s[|s| - 1]];
    }
  }

  ghost predicate NoDuplicates<T(!new)>(s: seq<T>) {
    forall i, j | 0 <= i < j < |s| :: s[i] != s[j]
  }

  /** The rows that are accepted, in their order. */
  function Filtered<T>(accepts: T -> bool, rows: seq<T>): seq<T> {
    if rows == [] then []
    else
      var before, last := Filtered(accepts, rows[..|rows| - 1]), rows[|rows| - 1];
      if accepts(last) then before + [last] else before
  }

  lemma {:induction false} FilteredElements<T>(accepts: T -> bool, rows: seq<T>)
    ensures forall r :: r in Filtered(accepts, rows) <==> r in rows && accepts(r)
    ensures |Filtered(accepts, rows)| <= |rows|
  {
    if rows != [] {
      FilteredElements(accepts, rows[..|rows| - 1]);
      assert rows == rows[..|rows| - 1] + [rows[|rows| - 1]];
    }
  }

  lemma {:induction false} FilteredAppend<T>(accepts: T -> bool, rows: seq<T>, more: seq<T>)
    ensures Filtered(accepts, rows + more) == Filtered(accepts, rows) + Filtered(accepts, more)
  {
    if more == [] {
      assert rows + more == rows;
    } else {
      FilteredAppend(accepts, rows, more[..|more| - 1]);
      assert (rows + more)[..|rows| + |more| - 1] == rows + more[..|more| - 1];
    }
  }

  lemma {:induction false} NoneFiltered<T>(accepts: T -> bool, rows: seq<T>)
    requires forall r | r in rows :: !accepts(r)
    ensures Filtered(accepts, rows) == []
  {
    if rows != [] {
      assert rows[|rows| - 1] in rows;
      NoneFiltered(accepts, rows[..|rows| - 1]);
    }
  }

  lemma {:induction false} AllFiltered<T>(accepts: T -> bool, rows: seq<T>)
    requires forall r | r in rows :: accepts(r)
    ensures Filtered(accepts, rows) == rows
  {
    if rows != [] {
      assert rows[|rows| - 1] in rows;
      AllFiltered(accepts, rows[..|rows| - 1]);
    }
  }

  lemma Associative<T>(a: seq<T>, b: seq<T>, c: seq<T>)
    ensures (a + b) + c == a + (b + c)
  {
  }

  lemma NothingAdded<T>(a: seq<T>)
    ensures a + [] == a
  {
  }
}
