/** Sums over sequences, and that their order does not matter. */
module Sums {

  function SumBy<T>(xs: seq<T>, f: T -> int): int {
    if xs == [] then 0 else SumBy(xs[..|xs| - 1], f) + f(xs[|xs| - 1])
  }

  lemma {:induction false} SumConcat<T>(xs: seq<T>, ys: seq<T>, f: T -> int)
    ensures SumBy(xs + ys, f) == SumBy(xs, f) + SumBy(ys, f)
    decreases ys
  {
    if ys == [] {
      assert xs + ys == xs;
    } else {
      assert (xs + ys)[..|xs + ys| - 1] == xs + ys[..|ys| - 1];
      SumConcat(xs, ys[..|ys| - 1], f);
    }
  }

  lemma SumMiddle<T>(a: seq<T>, x: T, b: seq<T>, f: T -> int)
    ensures SumBy(a + [x] + b, f) == SumBy(a + b, f) + f(x)
  {
    SumConcat(a + [x], b, f);
    SumConcat(a, b, f);
    assert (a + [x])[..|a|] == a;
  }

  /** An element of one sequence, found in a permutation of it. */
  lemma Found<T>(rest: seq<T>, x: T, ys: seq<T>) returns (a: seq<T>, b: seq<T>)
    requires multiset(rest + [x]) == multiset(ys)
    ensures ys == a + [x] + b && multiset(rest) == multiset(a + b)
  {
    assert x in multiset(rest + [x]);
    assert x in multiset(ys);
    var i :| 0 <= i < |ys| && ys[i] == x;
    a, b := ys[..i], ys[i + 1..];
    assert ys == a + [x] + b;
    assert multiset(rest) == multiset(rest + [x]) - multiset{x};
    assert multiset(a + b) == multiset(a + [x] + b) - multiset{x};
  }

  lemma {:induction false} SumPermutation<T>(xs: seq<T>, ys: seq<T>, f: T -> int)
    requires multiset(xs) == multiset(ys)
    ensures SumBy(xs, f) == SumBy(ys, f)
    decreases xs
  {
    if xs == [] {
      assert |multiset(ys)| == 0;
    } else {
      var x, rest := xs[|xs| - 1], xs[..|xs| - 1];
      assert xs == rest + [x];
      var a, b := Found(rest, x, ys);
      SumMiddle(a, x, b, f);
      SumPermutation(rest, a + b, f);
    }
  }

  lemma {:induction false} SumPlus<T>(xs: seq<T>, f: T -> int, g: T -> int, h: T -> int)
    requires forall i | 0 <= i < |xs| :: h(xs[i]) == f(xs[i]) + g(xs[i])
    ensures SumBy(xs, h) == SumBy(xs, f) + SumBy(xs, g)
  {
    if xs != [] {
      SumPlus(xs[..|xs| - 1], f, g, h);
    }
  }

  lemma {:induction false} SumSame<T>(xs: seq<T>, f: T -> int, g: T -> int)
    requires forall i | 0 <= i < |xs| :: f(xs[i]) == g(xs[i])
    ensures SumBy(xs, f) == SumBy(xs, g)
  {
    if xs != [] {
      SumSame(xs[..|xs| - 1], f, g);
    }
  }

  lemma {:induction false} SumZero<T>(xs: seq<T>, f: T -> int)
    requires forall i | 0 <= i < |xs| :: f(xs[i]) == 0
    ensures SumBy(xs, f) == 0
  {
    if xs != [] {
      SumZero(xs[..|xs| - 1], f);
    }
  }
}
