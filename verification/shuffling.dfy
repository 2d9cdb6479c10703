/**
 * List shuffling and the conversions around it. A shuffle swaps, from the last
 * position down, each element with one at a position chosen freely below it,
 * so its outcome is an arbitrary permutation; which one is left open.
 */
module Shuffling {

  /** Shuffles `a` in place: the result is a permutation of the input. */
  method Shuffle<T>(a: array<T>)
    modifies a
    ensures multiset(a[..]) == old(multiset(a[..]))
  {
    var i := a.Length;
    while i > 1
      invariant 0 <= i <= a.Length
      invariant multiset(a[..]) == old(multiset(a[..]))
    {
      var j :| 0 <= j < i;
      a[i - 1], a[j] := a[j], a[i - 1];
      i := i - 1;
    }
  }

  /** A fresh array holding `xs`. */
  method ArrayOf<T>(xs: seq<T>) returns (a: array<T>)
    ensures fresh(a) && a[..] == xs
  {
    a := new T[|xs|](i requires 0 <= i < |xs| => xs[i]);
  }

  /** The elements of a set, each once, in an order left open. */
  method ListOf<T>(s: set<T>) returns (xs: seq<T>)
    ensures multiset(xs) == multiset(s)
  {
    xs := [];
    var rest := s;
    while rest != {}
      invariant rest <= s
      invariant multiset(xs) + multiset(rest) == multiset(s)
      decreases rest
    {
      var x :| x in rest;
      assert multiset(rest) == multiset(rest - {x}) + multiset{x};
      xs := xs + [x];
      rest := rest - {x};
    }
  }
}
