/**
 * Sequence helpers shared by the query and job models: mapping, filtering and
 * the multiset facts the jobs' proofs rest on.
 */
module Seqs {

  function Min(a: int, b: int): int {
    if a <= b then a else b
  }

  /** Applies `f` to every element, keeping the order. */
  function Map<A, B>(f: A -> B, xs: seq<A>): (r: seq<B>)
    ensures |r| == |xs|
    ensures forall i :: 0 <= i < |xs| ==> r[i] == f(xs[i])
  {
    if xs == [] then [] else [f(xs[0])] + Map(f, xs[1..])
  }

  /** The elements satisfying `p`, in their original order. */
  function Filter<T(!new)>(p: T -> bool, xs: seq<T>): (r: seq<T>)
    ensures forall x :: multiset(r)[x] == if p(x) then multiset(xs)[x] else 0
    ensures |r| <= |xs|
  {
    if xs == [] then []
    else
      assert xs == [xs[0]] + xs[1..];
      (if p(xs[0]) then [xs[0]] else []) + Filter(p, xs[1..])
  }

  lemma {:induction false} FilterConcat<T(!new)>(p: T -> bool, xs: seq<T>, ys: seq<T>)
    ensures Filter(p, xs + ys) == Filter(p, xs) + Filter(p, ys)
  {
    if xs == [] {
      assert xs + ys == ys;
    } else {
      assert (xs + ys)[1..] == xs[1..] + ys;
      FilterConcat(p, xs[1..], ys);
    }
  }

  /** The first element adds one to the filtered length exactly when it passes. */
  lemma FilterLengthStep<T(!new)>(p: T -> bool, xs: seq<T>)
    requires xs != []
    ensures |Filter(p, xs)| == (if p(xs[0]) then 1 else 0) + |Filter(p, xs[1..])|
  {
  }

  /** Filtering keeps a sequence whose every element passes. */
  lemma {:induction false} FilterKeepsAll<T(!new)>(p: T -> bool, xs: seq<T>)
    requires forall i :: 0 <= i < |xs| ==> p(xs[i])
    ensures Filter(p, xs) == xs
  {
    if xs != [] {
      FilterKeepsAll(p, xs[1..]);
    }
  }

  /** Filtering empties a sequence whose every element fails. */
  lemma {:induction false} FilterDropsAll<T(!new)>(p: T -> bool, xs: seq<T>)
    requires forall i :: 0 <= i < |xs| ==> !p(xs[i])
    ensures Filter(p, xs) == []
  {
    if xs != [] {
      FilterDropsAll(p, xs[1..]);
    }
  }

  lemma {:induction false} MapConcat<A, B>(f: A -> B, xs: seq<A>, ys: seq<A>)
    ensures Map(f, xs + ys) == Map(f, xs) + Map(f, ys)
  {
    if xs != [] {
      assert (xs + ys)[1..] == xs[1..] + ys;
      MapConcat(f, xs[1..], ys);
    }
  }

  /** A sub-multiset of the inputs maps to a sub-multiset of the outputs. */
  lemma {:induction false} MapSubMultiset<A, B>(f: A -> B, xs: seq<A>, ys: seq<A>)
    requires multiset(xs) <= multiset(ys)
    ensures multiset(Map(f, xs)) <= multiset(Map(f, ys))
  {
    if xs != [] {
      var x := xs[0];
      assert x in multiset(ys);
      var i :| 0 <= i < |ys| && ys[i] == x;
      var rest := ys[..i] + ys[i + 1..];
      assert ys == ys[..i] + [x] + ys[i + 1..];
      assert xs == [x] + xs[1..];
      assert multiset(ys) == multiset(rest) + multiset{x};
      assert multiset(xs) == multiset{x} + multiset(xs[1..]);
      assert multiset(xs[1..]) <= multiset(rest) by {
        forall z ensures multiset(xs[1..])[z] <= multiset(rest)[z] {
          assert multiset(xs)[z] <= multiset(ys)[z];
        }
      }
      MapSubMultiset(f, xs[1..], rest);
      MapConcat(f, ys[..i] + [x], ys[i + 1..]);
      MapConcat(f, ys[..i], [x]);
      MapConcat(f, ys[..i], ys[i + 1..]);
      assert Map(f, [x]) == [f(x)];
      assert Map(f, ys) == Map(f, ys[..i]) + [f(x)] + Map(f, ys[i + 1..]);
    }
  }

  /** Under an injective `f`, `f(x)` occurs in the image as often as `x` in the input. */
  lemma {:induction false} MapInjectiveCount<A, B>(f: A -> B, xs: seq<A>, x: A)
    requires forall a, b :: f(a) == f(b) ==> a == b
    ensures multiset(Map(f, xs))[f(x)] == multiset(xs)[x]
  {
    if xs != [] {
      assert xs == [xs[0]] + xs[1..];
      assert Map(f, xs) == [f(xs[0])] + Map(f, xs[1..]);
      MapInjectiveCount(f, xs[1..], x);
    }
  }

  /** Regrouping a concatenation; stated as a lemma so a caller can hand it to the solver as one fact. */
  lemma AppendAssociative<T>(a: seq<T>, b: seq<T>, c: seq<T>)
    ensures a + b + c == a + (b + c)
  {
  }

  /** A sub-multiset as large as the whole is the whole. */
  lemma SubMultisetSameSize<T>(a: multiset<T>, b: multiset<T>)
    requires a <= b && |a| == |b|
    ensures a == b
  {
    var d := b - a;
    assert b == a + d;
    assert |d| == 0;
  }
}
