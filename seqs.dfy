/** Sequences without repetitions, and Python's `list(a_set)`. */
module Seqs {

  predicate Distinct<T(==)>(s: seq<T>) {
    forall i, j :: 0 <= i < j < |s| ==> s[i] != s[j]
  }

  function Elems<T>(s: seq<T>): set<T> {
    set x | x in s
  }

  lemma DistinctSnoc<T>(xs: seq<T>, x: T)
    requires Distinct(xs) && x !in xs
    ensures Distinct(xs + [x])
  {
  }

  /** Appending `x` unless it is already there, as `some_set.add(x)` does for the set's contents. */
  function AddOnce<T(==)>(xs: seq<T>, x: T): (r: seq<T>)
    requires Distinct(xs)
    ensures Distinct(r) && Elems(r) == Elems(xs) + {x}
    ensures x in xs ==> r == xs
  {
    if x in xs then xs else DistinctSnoc(xs, x); xs + [x]
  }

  /**
   * Python `list(s)` for a set `s`: every element exactly once. Python's
   * iteration order over a set is an implementation detail, and so the
   * order chosen here is left open.
   */
  method SetToList<T(==)>(s: set<T>) returns (xs: seq<T>)
    ensures Distinct(xs) && Elems(xs) == s && |xs| == |s|
  {
    xs := [];
    var rest := s;
    while rest != {}
      invariant Distinct(xs)
      invariant Elems(xs) + rest == s && Elems(xs) !! rest
      invariant |xs| + |rest| == |s|
      decreases |rest|
    {
      var x :| x in rest;
      DistinctSnoc(xs, x);
      xs := xs + [x];
      rest := rest - {x};
    }
  }

  lemma ConcatAssoc<T>(a: seq<T>, b: seq<T>, c: seq<T>)
    ensures a + (b + c) == (a + b) + c
  {
  }
}
