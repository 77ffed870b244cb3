/** Descending order on a numeric key. `SortDesc` is a stable insertion sort:
    it is exactly what JavaScript's (stable) `Array.prototype.sort` produces
    for a comparator `(a, b) => key(b) - key(a)`, and it is one of the orders
    pandas' `sort_values(ascending=False)` may produce. */
module Sorting {

  predicate SortedDesc<T>(s: seq<T>, key: T -> real) {
    forall i, j :: 0 <= i < j < |s| ==> key(s[i]) >= key(s[j])
  }

  /** `s` with `x` placed after every element whose key is at least `key(x)`
      and before the smaller ones that follow. */
  function InsertDesc<T>(x: T, s: seq<T>, key: T -> real): (r: seq<T>)
    ensures |r| == |s| + 1
  {
    if s == [] then [x]
    else if key(s[|s| - 1]) < key(x) then InsertDesc(x, s[..|s| - 1], key) + [s[|s| - 1]]
    else s + [x]
  }

  function SortDesc<T>(s: seq<T>, key: T -> real): (r: seq<T>)
    ensures |r| == |s|
  {
    if s == [] then [] else InsertDesc(s[|s| - 1], SortDesc(s[..|s| - 1], key), key)
  }

  lemma {:induction false} InsertDescMultiset<T>(x: T, s: seq<T>, key: T -> real)
    ensures multiset(InsertDesc(x, s, key)) == multiset(s) + multiset{x}
  {
    if s != [] && key(s[|s| - 1]) < key(x) {
      InsertDescMultiset(x, s[..|s| - 1], key);
      assert s == s[..|s| - 1] + [s[|s| - 1]];
    }
  }

  /** A lower bound on the keys of `s` and of `x` bounds the keys after insertion. */
  lemma InsertDescBound<T>(x: T, s: seq<T>, b: real, key: T -> real)
    requires key(x) >= b && forall i :: 0 <= i < |s| ==> key(s[i]) >= b
    ensures forall i :: 0 <= i < |s| + 1 ==> key(InsertDesc(x, s, key)[i]) >= b
  {
    var r := InsertDesc(x, s, key);
    InsertDescMultiset(x, s, key);
    forall i | 0 <= i < |r| ensures key(r[i]) >= b {
      assert r[i] in multiset(r);
      if r[i] != x {
        assert r[i] in multiset(s);
        var k :| 0 <= k < |s| && s[k] == r[i];
      }
    }
  }

  lemma {:induction false} InsertDescSorted<T>(x: T, s: seq<T>, key: T -> real)
    requires SortedDesc(s, key)
    ensures SortedDesc(InsertDesc(x, s, key), key)
  {
    if s != [] && key(s[|s| - 1]) < key(x) {
      var init, last := s[..|s| - 1], s[|s| - 1];
      InsertDescSorted(x, init, key);
      InsertDescBound(x, init, key(last), key);
    }
  }

  lemma InsertDescSpec<T>(x: T, s: seq<T>, key: T -> real)
    requires SortedDesc(s, key)
    ensures SortedDesc(InsertDesc(x, s, key), key)
    ensures multiset(InsertDesc(x, s, key)) == multiset(s) + multiset{x}
  {
    InsertDescSorted(x, s, key);
    InsertDescMultiset(x, s, key);
  }

  /** The descending order is sorted and holds the same elements. */
  lemma {:induction false} SortDescSpec<T>(s: seq<T>, key: T -> real)
    ensures SortedDesc(SortDesc(s, key), key)
    ensures multiset(SortDesc(s, key)) == multiset(s)
  {
    if s != [] {
      SortDescSpec(s[..|s| - 1], key);
      InsertDescSpec(s[|s| - 1], SortDesc(s[..|s| - 1], key), key);
      assert s == s[..|s| - 1] + [s[|s| - 1]];
    }
  }

  /** Inserting past a tail of smaller keys: the tail stays behind the new element. */
  lemma {:induction false} InsertDescPastSmaller<T>(x: T, s: seq<T>, j: nat, key: T -> real)
    requires j <= |s|
    requires forall t :: j <= t < |s| ==> key(s[t]) < key(x)
    ensures InsertDesc(x, s, key) == InsertDesc(x, s[..j], key) + s[j..]
    decreases |s|
  {
    if j < |s| {
      var init := s[..|s| - 1];
      assert init[..j] == s[..j];
      InsertDescPastSmaller(x, init, j, key);
      assert init[j..] + [s[|s| - 1]] == s[j..];
    } else {
      assert s[..j] == s;
    }
  }

  /** What an insertion step that shifts the smaller tail right leaves behind:
      the prefix up to `j`, then `x`, then the shifted tail, is the insertion of `x`. */
  lemma InsertDescShifted<T>(r: seq<T>, s: seq<T>, x: T, j: nat, key: T -> real)
    requires j <= |s| && |r| == |s| + 1
    requires forall t :: 0 <= t < j ==> r[t] == s[t]
    requires r[j] == x
    requires forall t :: j < t < |r| ==> r[t] == s[t - 1]
    requires j == 0 || key(s[j - 1]) >= key(x)
    requires forall t :: j <= t < |s| ==> key(s[t]) < key(x)
    ensures r == InsertDesc(x, s, key)
  {
    ShiftedShape(r, s, x, j);
    InsertDescPastSmaller(x, s, j, key);
    InsertDescAtEnd(x, s[..j], key);
  }

  lemma ShiftedShape<T>(r: seq<T>, s: seq<T>, x: T, j: nat)
    requires j <= |s| && |r| == |s| + 1
    requires forall t :: 0 <= t < j ==> r[t] == s[t]
    requires r[j] == x
    requires forall t :: j < t < |r| ==> r[t] == s[t - 1]
    ensures r == s[..j] + [x] + s[j..]
  {
  }

  lemma InsertDescAtEnd<T>(x: T, s: seq<T>, key: T -> real)
    requires s == [] || key(s[|s| - 1]) >= key(x)
    ensures InsertDesc(x, s, key) == s + [x]
  {
  }

  /** The elements of `s` whose key is `v`, in order. */
  function WithKey<T>(s: seq<T>, v: real, key: T -> real): seq<T>
  {
    if s == [] then []
    else WithKey(s[..|s| - 1], v, key) + (if key(s[|s| - 1]) == v then [s[|s| - 1]] else [])
  }

  lemma {:induction false} WithKeyConcat<T>(a: seq<T>, b: seq<T>, v: real, key: T -> real)
    ensures WithKey(a + b, v, key) == WithKey(a, v, key) + WithKey(b, v, key)
    decreases |b|
  {
    if b == [] {
      assert a + b == a;
    } else {
      var b' := b[..|b| - 1];
      assert (a + b)[..|a + b| - 1] == a + b';
      WithKeyConcat(a, b', v, key);
    }
  }

  lemma {:induction false} InsertDescStable<T>(x: T, s: seq<T>, v: real, key: T -> real)
    ensures WithKey(InsertDesc(x, s, key), v, key) == WithKey(s, v, key) + WithKey([x], v, key)
  {
    assert WithKey([x], v, key) == WithKey([], v, key) + (if key(x) == v then [x] else []);
    if s == [] {
    } else if key(s[|s| - 1]) < key(x) {
      var init, last := s[..|s| - 1], s[|s| - 1];
      InsertDescStable(x, init, v, key);
      WithKeyConcat(InsertDesc(x, init, key), [last], v, key);
      assert WithKey([last], v, key) == WithKey([], v, key) + (if key(last) == v then [last] else []);
    } else {
      WithKeyConcat(s, [x], v, key);
    }
  }

  /** Stability: elements with equal keys keep their relative order. */
  lemma {:induction false} SortDescStable<T>(s: seq<T>, v: real, key: T -> real)
    ensures WithKey(SortDesc(s, key), v, key) == WithKey(s, v, key)
  {
    if s != [] {
      var init, last := s[..|s| - 1], s[|s| - 1];
      SortDescStable(init, v, key);
      InsertDescStable(last, SortDesc(init, key), v, key);
      assert WithKey([last], v, key) == WithKey([], v, key) + (if key(last) == v then [last] else []);
    }
  }

  /** The first `n` elements, or all of them when there are fewer (`head(n)`, `[:n]`). */
  function Take<T>(s: seq<T>, n: nat): (r: seq<T>)
    ensures |r| == if n < |s| then n else |s|
    ensures r == s[..|r|]
  {
    if n < |s| then s[..n] else s
  }

  /** Taking the first `n` of a descending order keeps it descending and keeps
      elements whose keys are at least those of every element left out. */
  lemma TakeKeepsLargest<T>(s: seq<T>, n: nat, key: T -> real)
    requires SortedDesc(s, key)
    ensures SortedDesc(Take(s, n), key)
    ensures forall i, j :: 0 <= i < |Take(s, n)| <= j < |s| ==> key(Take(s, n)[i]) >= key(s[j])
  {
    var r := Take(s, n);
    forall i, j | 0 <= i < |r| <= j < |s| ensures key(r[i]) >= key(s[j]) {
      assert r[i] == s[i];
    }
  }

  /** What the first `n` of a descending order leave out is worth no more than
      anything they keep; and they are a sub-multiset of the whole. */
  lemma {:induction false} TakeLeftOut<T>(s: seq<T>, n: nat, key: T -> real)
    requires SortedDesc(s, key)
    ensures multiset(Take(s, n)) <= multiset(s)
    ensures forall c :: c in multiset(s) - multiset(Take(s, n)) ==>
      forall i :: 0 <= i < |Take(s, n)| ==> key(Take(s, n)[i]) >= key(c)
  {
    var r := Take(s, n);
    assert s == r + s[|r|..];
    forall c | c in multiset(s) - multiset(r)
      ensures forall i :: 0 <= i < |r| ==> key(r[i]) >= key(c)
    {
      assert c in multiset(s[|r|..]);
      var j :| 0 <= j < |s[|r|..]| && s[|r|..][j] == c;
      assert s[|r| + j] == c;
      forall i | 0 <= i < |r| ensures key(r[i]) >= key(c) {
        assert r[i] == s[i];
      }
    }
  }
}
