/** Integer sums and repetition over sequences: Python's sum() and `[x] * n`. */
module Seqs {

  /** Python's sum() over a list of integers. */
  function Sum(s: seq<int>): int
  {
    if s == [] then 0 else Sum(s[..|s| - 1]) + s[|s| - 1]
  }

  lemma {:induction false} SumConcat(a: seq<int>, b: seq<int>)
    ensures Sum(a + b) == Sum(a) + Sum(b)
  {
    if b == [] {
      assert a + b == a;
    } else {
      SumConcat(a, b[..|b| - 1]);
      assert (a + b)[..|a + b| - 1] == a + b[..|b| - 1];
    }
  }

  /** A list is its elements before i, its element at i and its elements after i. */
  lemma SplitAt<T>(b: seq<T>, i: nat)
    requires i < |b|
    ensures b == b[..i] + [b[i]] + b[i + 1..]
  {
  }

  lemma SplitFirst<T>(xs: seq<T>)
    requires xs != []
    ensures xs == [xs[0]] + xs[1..]
  {
  }

  lemma SplitLast<T>(xs: seq<T>)
    requires xs != []
    ensures xs == xs[..|xs| - 1] + [xs[|xs| - 1]]
  {
  }

  lemma SplitPrefix<T>(xs: seq<T>, p: nat)
    requires p <= |xs|
    ensures xs == xs[..p] + xs[p..]
  {
  }

  /** Taking out the element at i leaves the other elements. */
  lemma RemoveAtBag(b: seq<int>, i: nat)
    requires i < |b|
    ensures multiset(b) == multiset(b[..i] + b[i + 1..]) + multiset{b[i]}
  {
    SplitAt(b, i);
  }

  lemma SumAppend(s: seq<int>, x: int)
    ensures Sum(s + [x]) == Sum(s) + x
  {
    assert (s + [x])[..|s|] == s;
  }

  /** Taking out the element at i takes b[i] off the sum. */
  lemma RemoveAtSum(b: seq<int>, i: nat)
    requires i < |b|
    ensures Sum(b) == Sum(b[..i] + b[i + 1..]) + b[i]
  {
    var lo, hi := b[..i], b[i + 1..];
    SplitAt(b, i);
    SumConcat(lo + [b[i]], hi);
    SumAppend(lo, b[i]);
    SumConcat(lo, hi);
  }

  /** Reordering a list does not change its sum. */
  lemma {:induction false} SumPermutation(a: seq<int>, b: seq<int>)
    requires multiset(a) == multiset(b)
    ensures Sum(a) == Sum(b)
    decreases |a|
  {
    if a != [] {
      var prefix, x := a[..|a| - 1], a[|a| - 1];
      assert x in multiset(b);
      var i :| 0 <= i < |b| && b[i] == x;
      var rest := b[..i] + b[i + 1..];
      RemoveAtBag(b, i);
      RemoveAtSum(b, i);
      RemoveAtBag(a, |a| - 1);
      assert a[..|a| - 1] + a[|a|..] == prefix;
      forall y
        ensures multiset(prefix)[y] == multiset(rest)[y]
      {
        assert (multiset(prefix) + multiset{x})[y] == (multiset(rest) + multiset{x})[y];
      }
      assert multiset(prefix) == multiset(rest);
      SumPermutation(prefix, rest);
    }
  }

  /** The list `[x] * n`: n copies of x, and nothing when n <= 0. */
  function Repeat<T>(x: T, n: int): (r: seq<T>)
    ensures |r| == if n <= 0 then 0 else n
    ensures forall k :: 0 <= k < |r| ==> r[k] == x
    decreases n
  {
    if n <= 0 then [] else [x] + Repeat(x, n - 1)
  }

  lemma {:induction false} SumRepeat(x: int, n: nat)
    ensures Sum(Repeat(x, n)) == n * x
  {
    if n > 0 {
      SumRepeat(x, n - 1);
      SumConcat([x], Repeat(x, n - 1));
      assert Sum([x]) == Sum([]) + x;
    }
  }

  function Identity(x: int): int
  {
    x
  }

  function Singleton(x: int): multiset<int>
  {
    multiset{x}
  }

  function Bag(s: seq<int>): multiset<int>
  {
    multiset(s)
  }

  /** The concatenation of all the lists, in order. */
  function Flatten(xs: seq<seq<int>>): seq<int>
  {
    if xs == [] then [] else Flatten(xs[..|xs| - 1]) + xs[|xs| - 1]
  }
}
