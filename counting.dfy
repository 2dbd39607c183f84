/**
 * Python's collections.Counter, read back through items(): the distinct
 * values in the order they were first seen, each with how often it occurs.
 */
module Counting {
  import opened Seqs

  function Keys<T>(g: seq<(T, nat)>): seq<T>
  {
    seq(|g|, i requires 0 <= i < |g| => g[i].0)
  }

  /** The index of the entry for x, or |g| when there is none. */
  function KeyIndex<T(==)>(g: seq<(T, nat)>, x: T): (i: nat)
    ensures i <= |g|
    ensures i < |g| ==> g[i].0 == x
    ensures forall k :: 0 <= k < i ==> g[k].0 != x
  {
    if g == [] || g[0].0 == x then 0 else 1 + KeyIndex(g[1..], x)
  }

  /** One more occurrence of x: its entry is incremented, or a new entry (x, 1) goes at the end. */
  function Bump<T(==)>(g: seq<(T, nat)>, x: T): (h: seq<(T, nat)>)
    ensures |g| <= |h| <= |g| + 1
    ensures exists i :: 0 <= i < |h| && h[i].0 == x
  {
    var i := KeyIndex(g, x);
    var h := if i < |g| then g[i := (x, g[i].1 + 1)] else g + [(x, 1)];
    assert h[i].0 == x;
    h
  }

  ghost predicate DistinctKeys<T>(g: seq<(T, nat)>)
  {
    forall i, j :: 0 <= i < j < |g| ==> g[i].0 != g[j].0
  }

  ghost predicate Tallies<T>(g: seq<(T, nat)>, xs: seq<T>)
  {
    forall i :: 0 <= i < |g| ==> g[i].1 == multiset(xs)[g[i].0] && g[i].1 >= 1
  }

  ghost predicate Covers<T>(g: seq<(T, nat)>, xs: seq<T>)
  {
    forall i :: 0 <= i < |xs| ==> xs[i] in Keys(g)
  }

  lemma BumpKeys<T>(g: seq<(T, nat)>, x: T)
    ensures Keys(Bump(g, x)) == if KeyIndex(g, x) < |g| then Keys(g) else Keys(g) + [x]
  {
  }

  lemma BumpDistinct<T>(g: seq<(T, nat)>, x: T)
    requires DistinctKeys(g)
    ensures DistinctKeys(Bump(g, x))
  {
    BumpKeys(g, x);
    var h := Bump(g, x);
    forall i, j | 0 <= i < j < |h|
      ensures h[i].0 != h[j].0
    {
      assert h[i].0 == Keys(h)[i] && h[j].0 == Keys(h)[j];
      assert i < |g| && Keys(h)[i] == Keys(g)[i];
      if j < |g| {
        assert Keys(h)[j] == Keys(g)[j];
      }
    }
  }

  lemma BumpTallies<T>(g: seq<(T, nat)>, prefix: seq<T>, x: T)
    requires DistinctKeys(g) && Tallies(g, prefix) && Covers(g, prefix)
    ensures Tallies(Bump(g, x), prefix + [x])
  {
    var h, m := Bump(g, x), multiset(prefix + [x]);
    var i := KeyIndex(g, x);
    assert m == multiset(prefix) + multiset{x};
    forall k | 0 <= k < |h|
      ensures h[k].1 == m[h[k].0] && h[k].1 >= 1
    {
      if k == i {
        assert h[k] == (x, if i < |g| then g[i].1 + 1 else 1);
        if i == |g| {
          forall j | 0 <= j < |prefix|
            ensures prefix[j] != x
          {
            assert prefix[j] in Keys(g);
          }
          assert multiset(prefix)[x] == 0;
        }
      } else {
        assert h[k] == g[k];
        if i < |g| && k > i {
          assert g[i].0 == x;
        }
      }
    }
  }

  lemma BumpCovers<T>(g: seq<(T, nat)>, prefix: seq<T>, x: T)
    requires Covers(g, prefix)
    ensures Covers(Bump(g, x), prefix + [x])
  {
    BumpKeys(g, x);
    var xs, h := prefix + [x], Bump(g, x);
    var i := KeyIndex(g, x);
    if i < |g| {
      assert Keys(g)[i] == x;
    } else {
      assert Keys(h)[|g|] == x;
    }
    forall k | 0 <= k < |xs|
      ensures xs[k] in Keys(h)
    {
      if k < |prefix| {
        assert xs[k] == prefix[k] && prefix[k] in Keys(g);
      }
    }
  }

  /** `Counter(xs).items()`. */
  function Count<T(==)>(xs: seq<T>): (g: seq<(T, nat)>)
    ensures forall i, j :: 0 <= i < j < |g| ==> g[i].0 != g[j].0
    ensures forall i :: 0 <= i < |g| ==> g[i].1 == multiset(xs)[g[i].0] && g[i].1 >= 1
    ensures forall i :: 0 <= i < |xs| ==> xs[i] in Keys(g)
  {
    if xs == [] then []
    else
      var g := Count(xs[..|xs| - 1]);
      SplitLast(xs);
      BumpDistinct(g, xs[|xs| - 1]);
      BumpTallies(g, xs[..|xs| - 1], xs[|xs| - 1]);
      BumpCovers(g, xs[..|xs| - 1], xs[|xs| - 1]);
      Bump(g, xs[|xs| - 1])
  }

  /** Sum of count * f(value) over the entries. */
  function WeightedSum<T>(g: seq<(T, nat)>, f: T -> int): int
  {
    if g == [] then 0 else WeightedSum(g[..|g| - 1], f) + g[|g| - 1].1 * f(g[|g| - 1].0)
  }

  /** Sum of f(x) over the list. */
  function SumOf<T>(xs: seq<T>, f: T -> int): int
  {
    if xs == [] then 0 else SumOf(xs[..|xs| - 1], f) + f(xs[|xs| - 1])
  }

  /** The multiset m taken c times. */
  function Times<U>(m: multiset<U>, c: int): multiset<U>
    decreases c
  {
    if c <= 0 then multiset{} else Times(m, c - 1) + m
  }

  /** x occurs c times as often in m taken c times. */
  lemma {:induction false} TimesCount<U>(m: multiset<U>, c: int, x: U)
    requires c >= 0
    ensures Times(m, c)[x] == c * m[x]
    decreases c
  {
    if c > 0 {
      TimesCount(m, c - 1, x);
      assert Times(m, c)[x] == Times(m, c - 1)[x] + m[x];
      assert (c - 1) * m[x] + m[x] == c * m[x];
    }
  }

  /** Union of count copies of f(value) over the entries. */
  function WeightedBag<T, U>(g: seq<(T, nat)>, f: T -> multiset<U>): multiset<U>
  {
    if g == [] then multiset{} else WeightedBag(g[..|g| - 1], f) + Times(f(g[|g| - 1].0), g[|g| - 1].1)
  }

  /** Union of f(x) over the list. */
  function BagOf<T, U>(xs: seq<T>, f: T -> multiset<U>): multiset<U>
  {
    if xs == [] then multiset{} else BagOf(xs[..|xs| - 1], f) + f(xs[|xs| - 1])
  }

  lemma {:induction false} WeightedSumBump<T>(g: seq<(T, nat)>, i: nat, f: T -> int)
    requires i < |g|
    ensures WeightedSum(g[i := (g[i].0, g[i].1 + 1)], f) == WeightedSum(g, f) + f(g[i].0)
  {
    var h := g[i := (g[i].0, g[i].1 + 1)];
    var n := |g| - 1;
    if i == n {
      assert h[..n] == g[..n];
      assert h[n].1 * f(h[n].0) == g[n].1 * f(g[n].0) + f(g[n].0);
    } else {
      WeightedSumBump(g[..n], i, f);
      assert h[..n] == g[..n][i := (g[i].0, g[i].1 + 1)];
      assert h[n] == g[n];
    }
  }

  lemma {:induction false} WeightedBagBump<T, U>(g: seq<(T, nat)>, i: nat, f: T -> multiset<U>)
    requires i < |g|
    ensures WeightedBag(g[i := (g[i].0, g[i].1 + 1)], f) == WeightedBag(g, f) + f(g[i].0)
  {
    var h := g[i := (g[i].0, g[i].1 + 1)];
    var n := |g| - 1;
    if i == n {
      assert h[..n] == g[..n];
      assert Times(f(g[n].0), g[n].1 + 1) == Times(f(g[n].0), g[n].1) + f(g[n].0);
    } else {
      WeightedBagBump(g[..n], i, f);
      assert h[..n] == g[..n][i := (g[i].0, g[i].1 + 1)];
      assert h[n] == g[n];
    }
  }

  lemma BumpWeightedSum<T>(g: seq<(T, nat)>, x: T, f: T -> int)
    ensures WeightedSum(Bump(g, x), f) == WeightedSum(g, f) + f(x)
  {
    var i := KeyIndex(g, x);
    if i < |g| {
      WeightedSumBump(g, i, f);
    } else {
      var h: seq<(T, nat)> := g + [(x, 1)];
      assert h[..|g|] == g;
      assert WeightedSum(h, f) == WeightedSum(g, f) + 1 * f(x);
    }
  }

  lemma BumpWeightedBag<T, U>(g: seq<(T, nat)>, x: T, f: T -> multiset<U>)
    ensures WeightedBag(Bump(g, x), f) == WeightedBag(g, f) + f(x)
  {
    var i := KeyIndex(g, x);
    if i < |g| {
      WeightedBagBump(g, i, f);
    } else {
      var h: seq<(T, nat)> := g + [(x, 1)];
      assert h[..|g|] == g;
      assert Times(f(x), 1) == f(x);
    }
  }

  /** Summing over the Counter's items with their counts is summing over the original list. */
  lemma {:induction false} CountWeightedSum<T>(xs: seq<T>, f: T -> int)
    ensures WeightedSum(Count(xs), f) == SumOf(xs, f)
  {
    if xs != [] {
      var prefix, x := xs[..|xs| - 1], xs[|xs| - 1];
      CountWeightedSum(prefix, f);
      BumpWeightedSum(Count(prefix), x, f);
      assert Count(xs) == Bump(Count(prefix), x);
    }
  }

  /** The multiset form of CountWeightedSum. */
  lemma {:induction false} CountWeightedBag<T, U>(xs: seq<T>, f: T -> multiset<U>)
    ensures WeightedBag(Count(xs), f) == BagOf(xs, f)
  {
    if xs != [] {
      var prefix, x := xs[..|xs| - 1], xs[|xs| - 1];
      CountWeightedBag(prefix, f);
      BumpWeightedBag(Count(prefix), x, f);
      assert Count(xs) == Bump(Count(prefix), x);
    }
  }

  lemma {:induction false} SumOfIdentity(xs: seq<int>)
    ensures SumOf(xs, Identity) == Sum(xs)
  {
    if xs != [] {
      SumOfIdentity(xs[..|xs| - 1]);
    }
  }

  lemma {:induction false} BagOfSingleton(xs: seq<int>)
    ensures BagOf(xs, Singleton) == multiset(xs)
  {
    if xs != [] {
      BagOfSingleton(xs[..|xs| - 1]);
      assert xs == xs[..|xs| - 1] + [xs[|xs| - 1]];
    }
  }

  lemma {:induction false} SumOfSums(xs: seq<seq<int>>)
    ensures SumOf(xs, Sum) == Sum(Flatten(xs))
  {
    if xs != [] {
      SumOfSums(xs[..|xs| - 1]);
      SumConcat(Flatten(xs[..|xs| - 1]), xs[|xs| - 1]);
    }
  }

  lemma {:induction false} BagOfBags(xs: seq<seq<int>>)
    ensures BagOf(xs, Bag) == multiset(Flatten(xs))
  {
    if xs != [] {
      BagOfBags(xs[..|xs| - 1]);
    }
  }

  function One<T>(x: T): int
  {
    1
  }

  lemma {:induction false} SumOfOnes<T>(xs: seq<T>)
    ensures SumOf(xs, One) == |xs|
  {
    if xs != [] {
      SumOfOnes(xs[..|xs| - 1]);
    }
  }
}
