/** Counting and summing over the entries of a finite map. */
module Counting {
  import opened Wrappers

  function Count<K, V>(m: map<K, V>, p: V -> bool): nat {
    |set k | k in m && p(m[k])|
  }

  // Replacing one entry moves a count by what that entry contributed.
  lemma CountUpdate<K, V>(m: map<K, V>, k: K, v: V, p: V -> bool)
    requires k in m
    ensures Count(m[k := v], p) == Count(m, p) - One(p(m[k])) + One(p(v))
  {
    var m' := m[k := v];
    var before, after := set x | x in m && p(m[x]), set x | x in m' && p(m'[x]);
    assert after - {k} == before - {k};
    assert |before| == |before - {k}| + One(p(m[k]));
    assert |after| == |after - {k}| + One(p(v));
  }

  lemma CountAll<K, V>(m: map<K, V>, p: V -> bool)
    requires forall k :: k in m ==> p(m[k])
    ensures Count(m, p) == |m|
  {
    assert (set k | k in m && p(m[k])) == m.Keys;
  }

  lemma CountNone<K, V>(m: map<K, V>, p: V -> bool)
    requires forall k :: k in m ==> !p(m[k])
    ensures Count(m, p) == 0
  {
    assert (set k | k in m && p(m[k])) == {};
  }

  lemma CountAtMost<K, V>(m: map<K, V>, p: V -> bool, q: V -> bool)
    requires forall k :: k in m && p(m[k]) ==> q(m[k])
    ensures Count(m, p) <= Count(m, q)
  {
    SubsetSize((set k | k in m && p(m[k])), (set k | k in m && q(m[k])));
  }

  lemma {:induction false} SubsetSize<T>(a: set<T>, b: set<T>)
    requires a <= b
    ensures |a| <= |b|
  {
    assert b == a + (b - a);
  }

  lemma CountSame<K, V>(m: map<K, V>, m': map<K, V>, p: V -> bool)
    requires m'.Keys == m.Keys && forall k :: k in m ==> (p(m'[k]) <==> p(m[k]))
    ensures Count(m', p) == Count(m, p)
  {
    assert (set k | k in m' && p(m'[k])) == (set k | k in m && p(m[k]));
  }

  lemma CountThrough<K, V, W>(m: map<K, V>, n: map<K, W>, p: V -> bool, q: W -> bool)
    requires m.Keys == n.Keys && forall k :: k in m ==> (p(m[k]) <==> q(n[k]))
    ensures Count(m, p) == Count(n, q)
  {
    assert (set k | k in m && p(m[k])) == (set k | k in n && q(n[k]));
  }

  lemma CountPositive<K, V>(m: map<K, V>, p: V -> bool) returns (k: K)
    requires Count(m, p) > 0
    ensures k in m && p(m[k])
  {
    k :| k in (set x | x in m && p(m[x]));
  }

  // A count splits along two predicates that never hold together.
  lemma CountSplit<K, V>(m: map<K, V>, whole: V -> bool, p: V -> bool, q: V -> bool)
    requires forall k :: k in m ==> (whole(m[k]) <==> p(m[k]) || q(m[k])) && !(p(m[k]) && q(m[k]))
    ensures Count(m, whole) == Count(m, p) + Count(m, q)
  {
    var a, b := set k | k in m && p(m[k]), set k | k in m && q(m[k]);
    assert (set k | k in m && whole(m[k])) == a + b;
    assert a !! b;
  }

  ghost function Sum<K, V>(m: map<K, V>, f: V -> nat): nat {
    if m == map[] then 0 else
      var k :| k in m;
      f(m[k]) + Sum(m - {k}, f)
  }

  // The order in which the entries are added does not matter.
  lemma {:induction false} SumPick<K, V>(m: map<K, V>, k: K, f: V -> nat)
    requires k in m
    ensures Sum(m, f) == f(m[k]) + Sum(m - {k}, f)
    decreases |m|
  {
    var first :| first in m && Sum(m, f) == f(m[first]) + Sum(m - {first}, f);
    if first != k {
      SumPick(m - {first}, k, f);
      SumPick(m - {k}, first, f);
      assert m - {first} - {k} == m - {k} - {first};
    }
  }

  lemma SumUpdate<K, V>(m: map<K, V>, k: K, v: V, f: V -> nat)
    requires k in m
    ensures Sum(m[k := v], f) == Sum(m, f) - f(m[k]) + f(v)
  {
    SumPick(m, k, f);
    SumPick(m[k := v], k, f);
    assert m[k := v] - {k} == m - {k};
  }

  lemma {:induction false} SumBounded<K, V>(m: map<K, V>, f: V -> nat, bound: nat)
    requires forall k :: k in m ==> f(m[k]) <= bound
    ensures Sum(m, f) <= |m| * bound
    decreases |m|
  {
    if m != map[] {
      var k :| k in m;
      SumPick(m, k, f);
      SumBounded(m - {k}, f, bound);
      OneMore(|m - {k}|, bound);
      assert |m| == |m - {k}| + 1;
    }
  }

  lemma OneMore(n: nat, bound: nat)
    ensures (n + 1) * bound == n * bound + bound
  {
  }

  lemma SumEmpty<K, V>(m: map<K, V>, f: V -> nat)
    requires m == map[]
    ensures Sum(m, f) == 0
  {
  }

  function Times(n: nat, factor: nat): nat {
    n * factor
  }

  lemma TimesSum(a: nat, b: nat, factor: nat)
    ensures Times(a + b, factor) == Times(a, factor) + Times(b, factor)
  {
  }

  // Entries that are at most a multiple of the other map's entries add up to at most that multiple.
  lemma {:induction false} SumOfMultiples<K, V, W>(m: map<K, V>, n: map<K, W>, f: V -> nat, g: W -> nat, factor: nat)
    requires m.Keys == n.Keys && forall k :: k in m ==> f(m[k]) <= Times(g(n[k]), factor)
    ensures Sum(m, f) <= Times(Sum(n, g), factor)
    decreases |m|
  {
    hide Times, Sum;
    if m == map[] {
      SumEmpty(m, f);
    } else {
      var k :| k in m;
      SumPick(m, k, f);
      SumPick(n, k, g);
      SumOfMultiples(m - {k}, n - {k}, f, g, factor);
      TimesSum(g(n[k]), Sum(n - {k}, g), factor);
    }
  }

  // Entries that exceed the other map's by at most an allowance add up to at most all allowances more.
  lemma {:induction false} SumOfAllowances<K, V, W>(m: map<K, V>, n: map<K, W>, f: V -> nat, g: W -> nat, each: nat)
    requires m.Keys == n.Keys && forall k :: k in m ==> f(m[k]) <= each + g(n[k])
    ensures Sum(m, f) <= |m| * each + Sum(n, g)
    decreases |m|
  {
    if m != map[] {
      var k :| k in m;
      SumPick(m, k, f);
      SumPick(n, k, g);
      SumOfAllowances(m - {k}, n - {k}, f, g, each);
      OneMore(|m - {k}|, each);
      assert |m| == |m - {k}| + 1;
    }
  }
}
