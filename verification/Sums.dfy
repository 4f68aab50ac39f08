/** Sums over the entries of a map, for the additive columns of the overview. */
module Sums {
  datatype Tally = Tally(requests: int, success: int, failure: int, tokens: int, input: int, output: int, cached: int,
                         reasoning: int, cost: real)

  const NONE: Tally := Tally(0, 0, 0, 0, 0, 0, 0, 0, 0.0)

  function Plus(a: Tally, b: Tally): Tally {
    Tally(a.requests + b.requests, a.success + b.success, a.failure + b.failure, a.tokens + b.tokens, a.input + b.input,
          a.output + b.output, a.cached + b.cached, a.reasoning + b.reasoning, a.cost + b.cost)
  }

  lemma PlusLaws(a: Tally, b: Tally, c: Tally)
    ensures Plus(a, b) == Plus(b, a) && Plus(Plus(a, b), c) == Plus(a, Plus(b, c)) && Plus(a, NONE) == a
  {
  }

  lemma PlusRight(a: Tally, b: Tally, c: Tally)
    ensures Plus(Plus(a, b), c) == Plus(Plus(a, c), b)
  {
  }

  ghost function Sum<K(!new), V(!new)>(m: map<K, V>, f: V -> Tally): Tally
    decreases |m|
  {
    if m == map[] then NONE
    else
      var k :| k in m;
      Plus(Sum(m - {k}, f), f(m[k]))
  }

  /** Any key may be taken out first. */
  lemma {:induction false} SumWithout<K(!new), V(!new)>(m: map<K, V>, f: V -> Tally, k: K)
    requires k in m
    ensures Sum(m, f) == Plus(Sum(m - {k}, f), f(m[k]))
    decreases |m|
  {
    var j :| j in m && Sum(m, f) == Plus(Sum(m - {j}, f), f(m[j]));
    if j != k {
      SumWithout(m - {j}, f, k);
      SumWithout(m - {k}, f, j);
      assert m - {j} - {k} == m - {k} - {j};
      PlusRight(Sum(m - {j} - {k}, f), f(m[k]), f(m[j]));
    }
  }

  /** Raising one entry by d, or adding it with value d, raises the sum by d. */
  lemma SumGrows<K(!new), V(!new)>(m: map<K, V>, f: V -> Tally, k: K, v: V, d: Tally)
    requires f(v) == Plus(if k in m then f(m[k]) else NONE, d)
    ensures Sum(m[k := v], f) == Plus(Sum(m, f), d)
  {
    var rest := m - {k};
    SumWithout(m[k := v], f, k);
    assert m[k := v] - {k} == rest;
    if k in m {
      SumWithout(m, f, k);
      PlusLaws(Sum(rest, f), f(m[k]), d);
    } else {
      assert rest == m;
      PlusLaws(d, NONE, d);
    }
  }
}
