/**
 * Python's stable list sort in descending order, `sort(key=key, reverse=True)`,
 * modelled as insertion sort on values.
 */
module Sorting {
  import opened Seqs

  /** s is in non-increasing order of key. */
  ghost predicate SortedDesc<T>(s: seq<T>, key: T -> int)
  {
    forall i, j :: 0 <= i < j < |s| ==> key(s[i]) >= key(s[j])
  }

  /** The elements of s whose key is v, in the order they have in s. */
  function WithKey<T>(s: seq<T>, key: T -> int, v: int): seq<T>
  {
    if s == [] then []
    else WithKey(s[..|s| - 1], key, v) + (if key(s[|s| - 1]) == v then [s[|s| - 1]] else [])
  }

  lemma {:induction false} WithKeyConcat<T>(a: seq<T>, b: seq<T>, key: T -> int, v: int)
    ensures WithKey(a + b, key, v) == WithKey(a, key, v) + WithKey(b, key, v)
  {
    if b == [] {
      assert a + b == a;
    } else {
      WithKeyConcat(a, b[..|b| - 1], key, v);
      assert (a + b)[..|a + b| - 1] == a + b[..|b| - 1];
    }
  }

  lemma {:induction false} WithKeyAbsent<T>(s: seq<T>, key: T -> int, v: int)
    requires forall i :: 0 <= i < |s| ==> key(s[i]) != v
    ensures WithKey(s, key, v) == []
  {
    if s != [] {
      WithKeyAbsent(s[..|s| - 1], key, v);
    }
  }

  /**
   * Where a stable descending sort puts a new element with key k: after
   * every leading element whose key is at least k.
   */
  function InsertionPoint<T>(r: seq<T>, key: T -> int, k: int): (p: nat)
    ensures p <= |r|
    ensures forall i :: 0 <= i < p ==> key(r[i]) >= k
    ensures p < |r| ==> key(r[p]) < k
  {
    if r == [] || key(r[0]) < k then 0 else 1 + InsertionPoint(r[1..], key, k)
  }

  /** x inserted where a stable descending sort puts it. */
  function Insert<T>(r: seq<T>, key: T -> int, x: T): (s: seq<T>)
    ensures |s| == |r| + 1 && x in s
  {
    var p := InsertionPoint(r, key, key(x));
    r[..p] + [x] + r[p..]
  }

  lemma InsertKeepsOrder<T>(r: seq<T>, key: T -> int, x: T)
    requires SortedDesc(r, key)
    ensures SortedDesc(Insert(r, key, x), key)
  {
    var p := InsertionPoint(r, key, key(x));
    var q := Insert(r, key, x);
    assert forall i :: 0 <= i < |q| ==> q[i] == if i < p then r[i] else if i == p then x else r[i - 1];
  }

  lemma InsertContents<T>(r: seq<T>, key: T -> int, x: T)
    ensures |Insert(r, key, x)| == |r| + 1
    ensures multiset(Insert(r, key, x)) == multiset(r) + multiset{x}
  {
    var p := InsertionPoint(r, key, key(x));
    assert r == r[..p] + r[p..];
  }

  /** The list sorted in descending order of key; equal keys keep their order. */
  function SortDesc<T>(s: seq<T>, key: T -> int): (r: seq<T>)
    ensures |r| == |s| && multiset(r) == multiset(s)
    ensures SortedDesc(r, key)
  {
    if s == [] then []
    else
      var r := SortDesc(s[..|s| - 1], key);
      InsertKeepsOrder(r, key, s[|s| - 1]);
      InsertContents(r, key, s[|s| - 1]);
      SplitLast(s);
      Insert(r, key, s[|s| - 1])
  }

  /** After the insertion point every key is below the inserted one. */
  lemma TailBelow<T>(r: seq<T>, key: T -> int, k: int)
    requires SortedDesc(r, key)
    ensures var p := InsertionPoint(r, key, k);
      forall i :: 0 <= i < |r[p..]| ==> key(r[p..][i]) != k
  {
    var p := InsertionPoint(r, key, k);
    forall i | 0 <= i < |r[p..]|
      ensures key(r[p..][i]) < k
    {
      assert r[p..][i] == r[p + i];
      assert key(r[p]) >= key(r[p + i]);
    }
  }

  lemma Regroup<T>(a: seq<T>, xs: seq<T>, h: seq<T>)
    requires h == [] || xs == []
    ensures (a + xs) + h == (a + h) + xs
  {
  }

  /** Putting x between lo and hi: when x has key v, nothing after it has key v. */
  lemma WithKeyBetween<T>(lo: seq<T>, x: T, hi: seq<T>, key: T -> int, v: int)
    requires key(x) == v ==> WithKey(hi, key, v) == []
    ensures WithKey(lo + [x] + hi, key, v) == WithKey(lo + hi, key, v) + WithKey([x], key, v)
  {
    WithKeyConcat(lo + [x], hi, key, v);
    WithKeyConcat(lo, [x], key, v);
    WithKeyConcat(lo, hi, key, v);
    if key(x) != v {
      WithKeySkip(x, key, v);
    }
    Regroup(WithKey(lo, key, v), WithKey([x], key, v), WithKey(hi, key, v));
  }

  lemma WithKeyInsert<T>(r: seq<T>, key: T -> int, x: T, v: int)
    requires SortedDesc(r, key)
    ensures WithKey(Insert(r, key, x), key, v) == WithKey(r, key, v) + WithKey([x], key, v)
  {
    var p := InsertionPoint(r, key, key(x));
    if key(x) == v {
      TailBelow(r, key, key(x));
      WithKeyAbsent(r[p..], key, v);
    }
    WithKeyBetween(r[..p], x, r[p..], key, v);
    SplitPrefix(r, p);
  }

  lemma WithKeySingle<T>(x: T, key: T -> int, v: int)
    ensures WithKey([x], key, v) == if key(x) == v then [x] else []
  {
    assert [x][..0] == [];
  }

  lemma WithKeySkip<T>(x: T, key: T -> int, v: int)
    requires key(x) != v
    ensures WithKey([x], key, v) == []
  {
    assert [x][..0] == [];
  }

  lemma SortDescLast<T>(s: seq<T>, key: T -> int)
    requires s != []
    ensures SortDesc(s, key) == Insert(SortDesc(s[..|s| - 1], key), key, s[|s| - 1])
  {
  }

  /** Stability: for every key, the elements with that key keep their relative order. */
  lemma {:induction false} SortDescIsStable<T>(s: seq<T>, key: T -> int, v: int)
    ensures WithKey(SortDesc(s, key), key, v) == WithKey(s, key, v)
  {
    if s != [] {
      var prefix, x := s[..|s| - 1], s[|s| - 1];
      SortDescIsStable(prefix, key, v);
      SortDescLast(s, key);
      WithKeyInsert(SortDesc(prefix, key), key, x, v);
      WithKeySingle(x, key, v);
    }
  }

  lemma InsertAtEnd<T>(r: seq<T>, key: T -> int, x: T)
    requires forall i :: 0 <= i < |r| ==> key(r[i]) >= key(x)
    ensures Insert(r, key, x) == r + [x]
  {
    var p := InsertionPoint(r, key, key(x));
    assert p == |r|;
    assert r[..p] == r && r[p..] == [];
  }

  /** A list already in descending order is left as it is. */
  lemma {:induction false} SortDescOfSorted<T>(s: seq<T>, key: T -> int)
    requires SortedDesc(s, key)
    ensures SortDesc(s, key) == s
  {
    if s != [] {
      var prefix, x := s[..|s| - 1], s[|s| - 1];
      assert SortedDesc(prefix, key) by {
        forall i, j | 0 <= i < j < |prefix|
          ensures key(prefix[i]) >= key(prefix[j])
        {
          assert prefix[i] == s[i] && prefix[j] == s[j];
        }
      }
      SortDescOfSorted(prefix, key);
      forall i | 0 <= i < |prefix|
        ensures key(prefix[i]) >= key(x)
      {
        assert prefix[i] == s[i];
      }
      SortDescLast(s, key);
      InsertAtEnd(prefix, key, x);
      SplitLast(s);
    }
  }
}
