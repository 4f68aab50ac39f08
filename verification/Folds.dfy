/** Left folds, and when their result does not depend on the order of the elements. */
module Folds {
  function Fold<S, E>(f: (S, E) -> S, s: S, es: seq<E>): S {
    if es == [] then s else f(Fold(f, s, es[..|es| - 1]), es[|es| - 1])
  }

  ghost predicate Commutes<S(!new), E(!new)>(f: (S, E) -> S) {
    forall s, a, b :: f(f(s, a), b) == f(f(s, b), a)
  }

  function Without<E>(es: seq<E>, j: nat): seq<E>
    requires j < |es|
  {
    es[..j] + es[j + 1..]
  }

  /** Any element may come last. */
  lemma {:induction false} MoveToEnd<S(!new), E(!new)>(f: (S, E) -> S, s: S, es: seq<E>, j: nat)
    requires Commutes(f) && j < |es|
    ensures Fold(f, s, es) == f(Fold(f, s, Without(es, j)), es[j])
    decreases |es|
  {
    var n := |es| - 1;
    if j == n {
      assert Without(es, j) == es[..n];
    } else {
      MoveToEnd(f, s, es[..n], j);
      assert Without(es, j)[..n - 1] == Without(es[..n], j);
    }
  }

  lemma MultisetWithout<E(!new)>(es: seq<E>, j: nat)
    requires j < |es|
    ensures multiset(Without(es, j)) == multiset(es) - multiset{es[j]}
  {
    var x := [es[j]];
    assert es == es[..j] + x + es[j + 1..];
    assert multiset(es) == multiset(es[..j]) + multiset(x) + multiset(es[j + 1..]);
  }

  /** Two orders of the same elements fold to the same result. */
  lemma {:induction false} OrderDoesNotMatter<S(!new), E(!new)>(f: (S, E) -> S, s: S, a: seq<E>, b: seq<E>)
    requires Commutes(f) && multiset(a) == multiset(b)
    ensures Fold(f, s, a) == Fold(f, s, b)
    decreases |a|
  {
    assert |a| == |multiset(a)| == |b|;
    if a != [] {
      var n := |a| - 1;
      var x := a[n];
      assert x in multiset(b);
      var j :| 0 <= j < |b| && b[j] == x;
      MoveToEnd(f, s, b, j);
      MultisetWithout(a, n);
      MultisetWithout(b, j);
      assert Without(a, n) == a[..n];
      OrderDoesNotMatter(f, s, a[..n], Without(b, j));
    }
  }
}
