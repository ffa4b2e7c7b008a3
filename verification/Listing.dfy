/** Query results: a sequence that lists the items of a set, in no stated order. */
module Listing {
  function Elems<T>(xs: seq<T>): set<T> {
    set x | x in xs
  }

  // The sequence names every item of the set once.
  ghost predicate Lists<T>(xs: seq<T>, items: set<T>) {
    Elems(xs) == items && |xs| == |items|
  }

  lemma ElemsOfConcat<T>(xs: seq<T>, ys: seq<T>)
    ensures Elems(xs + ys) == Elems(xs) + Elems(ys)
  {
  }

  lemma {:induction false} ElemsSize<T>(xs: seq<T>)
    ensures |Elems(xs)| <= |xs|
  {
    if xs != [] {
      ElemsSize(xs[1..]);
      assert xs == [xs[0]] + xs[1..];
      ElemsOfConcat([xs[0]], xs[1..]);
      assert Elems([xs[0]]) == {xs[0]};
    }
  }

  // Walking through a query result meets a row not met before, and in the end all of them.
  lemma ListsPrefix<T>(xs: seq<T>, items: set<T>, n: nat)
    requires Lists(xs, items) && n < |xs|
    ensures xs[n] in items && xs[n] !in Elems(xs[..n])
    ensures Elems(xs[..n + 1]) == Elems(xs[..n]) + {xs[n]}
  {
    assert xs[..n + 1] == xs[..n] + [xs[n]];
    assert xs == xs[..n + 1] + xs[n + 1..];
    ElemsOfConcat(xs[..n + 1], xs[n + 1..]);
    ElemsOfConcat(xs[..n], [xs[n]]);
    var a, x, b := Elems(xs[..n]), xs[n], Elems(xs[n + 1..]);
    ElemsSize(xs[..n]);
    ElemsSize(xs[n + 1..]);
    assert |a + b| < |items| && items == (a + {x}) + b;
    assert x in a ==> a + {x} == a;
  }

  lemma ListsDistinct<T>(xs: seq<T>, items: set<T>)
    requires Lists(xs, items)
    ensures forall i, j :: 0 <= i < j < |xs| ==> xs[i] != xs[j]
  {
    forall i, j | 0 <= i < j < |xs| ensures xs[i] != xs[j] {
      ListsPrefix(xs, items, j);
      assert xs[..j][i] in Elems(xs[..j]);
    }
  }

  lemma ListsSize<T>(xs: seq<T>, items: set<T>)
    requires Lists(xs, items)
    ensures Elems(xs) == items && |xs| == |items|
  {
  }

  lemma ListsConcat<T>(xs: seq<T>, items: set<T>, ys: seq<T>, others: set<T>)
    requires Lists(xs, items) && Lists(ys, others) && items !! others
    ensures Lists(xs + ys, items + others)
  {
    ElemsOfConcat(xs, ys);
  }
}
