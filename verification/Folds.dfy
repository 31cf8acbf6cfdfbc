/** Folding a list with an associative, commutative operation: the order of the list does not matter. */
module Folds {

  ghost predicate IsMonoid<T(!new)>(f: (T, T) -> T, unit: T) {
    && (forall a :: f(unit, a) == a)
    && (forall a, b :: f(a, b) == f(b, a))
    && (forall a, b, c :: f(f(a, b), c) == f(a, f(b, c)))
  }

  function Fold<T>(f: (T, T) -> T, unit: T, xs: seq<T>): T {
    if xs == [] then unit else f(Fold(f, unit, xs[..|xs| - 1]), xs[|xs| - 1])
  }

  lemma Laws<T(!new)>(f: (T, T) -> T, unit: T, a: T, b: T, c: T)
    requires IsMonoid(f, unit)
    ensures f(unit, a) == a && f(a, unit) == a
    ensures f(f(a, b), c) == f(a, f(b, c)) == f(f(a, c), b)
  {
    assert f(a, unit) == f(unit, a);
    assert f(f(a, b), c) == f(a, f(b, c)) == f(a, f(c, b)) == f(f(a, c), b);
  }

  lemma {:induction false} FoldAppend<T(!new)>(f: (T, T) -> T, unit: T, xs: seq<T>, ys: seq<T>)
    requires IsMonoid(f, unit)
    ensures Fold(f, unit, xs + ys) == f(Fold(f, unit, xs), Fold(f, unit, ys))
    decreases |ys|
  {
    hide IsMonoid;
    if ys == [] {
      assert xs + ys == xs;
      Laws(f, unit, Fold(f, unit, xs), unit, unit);
    } else {
      var init, y := ys[..|ys| - 1], ys[|ys| - 1];
      FoldAppend(f, unit, xs, init);
      assert (xs + ys)[..|xs + ys| - 1] == xs + init;
      Laws(f, unit, Fold(f, unit, xs), Fold(f, unit, init), y);
    }
  }

  lemma FoldOne<T(!new)>(f: (T, T) -> T, unit: T, x: T)
    requires IsMonoid(f, unit)
    ensures Fold(f, unit, [x]) == x
  {
    assert [x][..0] == [];
  }

  /** Where the last element of a list stands in a permutation of it. */
  lemma TakeOut<T>(xs: seq<T>, ys: seq<T>) returns (k: nat)
    requires multiset(xs) == multiset(ys) && xs != []
    ensures k < |ys| && ys[k] == xs[|xs| - 1]
    ensures multiset(xs[..|xs| - 1]) == multiset(ys[..k] + ys[k + 1..])
  {
    var x := xs[|xs| - 1];
    assert xs == xs[..|xs| - 1] + [x];
    assert x in multiset(ys);
    k :| 0 <= k < |ys| && ys[k] == x;
    assert ys == ys[..k] + [x] + ys[k + 1..];
    var init, before, after := multiset(xs[..|xs| - 1]), multiset(ys[..k]), multiset(ys[k + 1..]);
    assert init + multiset{x} == multiset(xs) == multiset(ys) == before + multiset{x} + after;
    assert init == init + multiset{x} - multiset{x} == before + after;
  }

  /** Permutations fold to the same value. */
  lemma {:induction false} FoldPermutation<T(!new)>(f: (T, T) -> T, unit: T, xs: seq<T>, ys: seq<T>)
    requires IsMonoid(f, unit) && multiset(xs) == multiset(ys)
    ensures Fold(f, unit, xs) == Fold(f, unit, ys)
    decreases |xs|
  {
    hide IsMonoid;
    if xs == [] {
      assert |multiset(ys)| == 0;
    } else {
      var k := TakeOut(xs, ys);
      var before, after, x := ys[..k], ys[k + 1..], ys[k];
      FoldPermutation(f, unit, xs[..|xs| - 1], before + after);
      FoldAppend(f, unit, before, after);
      assert ys == before + [x] + after;
      FoldAppend(f, unit, before + [x], after);
      FoldAppend(f, unit, before, [x]);
      FoldOne(f, unit, x);
      Laws(f, unit, Fold(f, unit, before), x, Fold(f, unit, after));
    }
  }

  // ---- Measures: a value of each element, folded ----

  function Map<T, U>(f: T -> U, xs: seq<T>): seq<U> { seq(|xs|, i requires 0 <= i < |xs| => f(xs[i])) }

  function Measure<T, U>(m: T -> U, f: (U, U) -> U, unit: U, xs: seq<T>): U { Fold(f, unit, Map(m, xs)) }

  lemma MeasureLast<T, U>(m: T -> U, f: (U, U) -> U, unit: U, xs: seq<T>)
    requires xs != []
    ensures Measure(m, f, unit, xs) == f(Measure(m, f, unit, xs[..|xs| - 1]), m(xs[|xs| - 1]))
  {
    assert Map(m, xs)[..|xs| - 1] == Map(m, xs[..|xs| - 1]);
  }

  lemma MultisetLast<T>(xs: seq<T>)
    requires xs != []
    ensures multiset(xs) == multiset(xs[..|xs| - 1]) + multiset{xs[|xs| - 1]}
  {
    assert xs == xs[..|xs| - 1] + [xs[|xs| - 1]];
  }

  lemma MeasureAppend<T, U(!new)>(m: T -> U, f: (U, U) -> U, unit: U, xs: seq<T>, ys: seq<T>)
    requires IsMonoid(f, unit)
    ensures Measure(m, f, unit, xs + ys) == f(Measure(m, f, unit, xs), Measure(m, f, unit, ys))
  {
    hide IsMonoid;
    assert Map(m, xs + ys) == Map(m, xs) + Map(m, ys);
    FoldAppend(f, unit, Map(m, xs), Map(m, ys));
  }

  lemma {:induction false} MapPermutation<T, U>(m: T -> U, xs: seq<T>, ys: seq<T>)
    requires multiset(xs) == multiset(ys)
    ensures multiset(Map(m, xs)) == multiset(Map(m, ys))
    decreases |xs|
  {
    if xs == [] {
      assert |multiset(ys)| == 0;
    } else {
      var k := TakeOut(xs, ys);
      var rest := ys[..k] + ys[k + 1..];
      MapPermutation(m, xs[..|xs| - 1], rest);
      assert Map(m, xs) == Map(m, xs[..|xs| - 1]) + [m(ys[k])];
      assert Map(m, ys) == Map(m, ys[..k]) + [m(ys[k])] + Map(m, ys[k + 1..]);
      assert Map(m, rest) == Map(m, ys[..k]) + Map(m, ys[k + 1..]);
    }
  }

  lemma MeasurePermutation<T, U(!new)>(m: T -> U, f: (U, U) -> U, unit: U, xs: seq<T>, ys: seq<T>)
    requires IsMonoid(f, unit) && multiset(xs) == multiset(ys)
    ensures Measure(m, f, unit, xs) == Measure(m, f, unit, ys)
  {
    hide IsMonoid, Fold;
    MapPermutation(m, xs, ys);
    FoldPermutation(f, unit, Map(m, xs), Map(m, ys));
  }
}
