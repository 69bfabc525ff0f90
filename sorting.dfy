/** `Array.prototype.sort` with a comparator `(a, b) => key(b) - key(a)`:
    a stable sort into non-increasing key order (stability is required of
    `sort` since ECMAScript 2019). The specification is a functional
    insertion sort, `SortDesc`; the lemmas prove it sorted, a permutation
    and stable, and `SortInPlace` is the in-place algorithm proved equal
    to it. Database `order(column, { ascending: false })` clauses are
    modelled with the same function (ties are unordered there; the model
    keeps them in table order). */
module Sorting {
  import opened Seqs

  predicate SortedDesc<T>(s: seq<T>, key: T -> nat)
  {
    forall i, j :: 0 <= i < j < |s| ==> key(s[i]) >= key(s[j])
  }

  /** Inserts x into t after every element whose key is at least key(x). */
  function Insert<T>(t: seq<T>, x: T, key: T -> nat): (r: seq<T>)
    ensures |r| == |t| + 1
    ensures multiset(r) == multiset(t) + multiset{x}
    decreases |t|
  {
    if t == [] then [x]
    else if key(x) <= key(t[|t| - 1]) then t + [x]
    else
      var init := t[..|t| - 1];
      assert t == init + [t[|t| - 1]];
      Insert(init, x, key) + [t[|t| - 1]]
  }

  function SortDesc<T>(s: seq<T>, key: T -> nat): (r: seq<T>)
    ensures |r| == |s|
    ensures multiset(r) == multiset(s)
  {
    if s == [] then []
    else
      var init := s[..|s| - 1];
      assert s == init + [s[|s| - 1]];
      Insert(SortDesc(init, key), s[|s| - 1], key)
  }

  /** Dropping the last element of a sorted sequence leaves it sorted, and
      every element ranks at least as high as the last. */
  lemma SortedInit<T>(t: seq<T>, key: T -> nat)
    requires SortedDesc(t, key) && t != []
    ensures SortedDesc(t[..|t| - 1], key)
    ensures forall z :: z in t ==> key(z) >= key(t[|t| - 1])
  {
    var init := t[..|t| - 1];
    forall i, j | 0 <= i < j < |init| ensures key(init[i]) >= key(init[j]) {
      assert init[i] == t[i] && init[j] == t[j];
    }
    forall z | z in t ensures key(z) >= key(t[|t| - 1]) {
      var i :| 0 <= i < |t| && t[i] == z;
    }
  }

  /** Appending an element that every element outranks or ties keeps a
      sorted sequence sorted. */
  lemma SortedAppend<T>(t: seq<T>, y: T, key: T -> nat)
    requires SortedDesc(t, key)
    requires forall z :: z in t ==> key(z) >= key(y)
    ensures SortedDesc(t + [y], key)
  {
    var r := t + [y];
    forall i, j | 0 <= i < j < |r| ensures key(r[i]) >= key(r[j]) {
      assert r[i] == t[i] && t[i] in t;
      if j < |t| {
        assert r[j] == t[j];
      }
    }
  }

  /** Insert adds only x, so a lower bound of t and of x bounds the result. */
  lemma InsertBounded<T>(t: seq<T>, x: T, key: T -> nat, y: T)
    requires forall z :: z in t ==> key(z) >= key(y)
    requires key(x) >= key(y)
    ensures forall z :: z in Insert(t, x, key) ==> key(z) >= key(y)
  {
    var r := Insert(t, x, key);
    forall z | z in r ensures key(z) >= key(y) {
      assert z in multiset(r);
      if z != x {
        assert z in multiset(t);
      }
    }
  }

  lemma {:induction false} InsertSorted<T>(t: seq<T>, x: T, key: T -> nat)
    requires SortedDesc(t, key)
    ensures SortedDesc(Insert(t, x, key), key)
    decreases |t|
  {
    if t == [] {
    } else if key(x) <= key(t[|t| - 1]) {
      SortedInit(t, key);
      SortedAppend(t, x, key);
    } else {
      var init, y := t[..|t| - 1], t[|t| - 1];
      assert t == init + [y];
      SortedInit(t, key);
      InsertSorted(init, x, key);
      InsertBounded(init, x, key, y);
      SortedAppend(Insert(init, x, key), y, key);
    }
  }

  /** The output of SortDesc is in non-increasing key order. */
  lemma {:induction false} SortDescSorted<T>(s: seq<T>, key: T -> nat)
    ensures SortedDesc(SortDesc(s, key), key)
  {
    if s != [] {
      SortDescSorted(s[..|s| - 1], key);
      InsertSorted(SortDesc(s[..|s| - 1], key), s[|s| - 1], key);
    }
  }

  /** Sorting what is already sorted changes nothing, so sorting twice is
      sorting once. */
  lemma {:induction false} SortDescOfSorted<T>(s: seq<T>, key: T -> nat)
    requires SortedDesc(s, key)
    ensures SortDesc(s, key) == s
  {
    if s != [] {
      var init, x := s[..|s| - 1], s[|s| - 1];
      assert s == init + [x];
      SortedInit(s, key);
      SortDescOfSorted(init, key);
      SortDescSnoc(init, x, key);
      InsertLowest(init, x, key);
    }
  }

  lemma SortDescSnoc<T>(init: seq<T>, x: T, key: T -> nat)
    ensures SortDesc(init + [x], key) == Insert(SortDesc(init, key), x, key)
  {
    assert (init + [x])[..|init|] == init;
  }

  /** An element that every element outranks or ties goes last. */
  lemma InsertLowest<T>(t: seq<T>, x: T, key: T -> nat)
    requires forall z :: z in t ==> key(z) >= key(x)
    ensures Insert(t, x, key) == t + [x]
  {
    if t != [] {
      assert t[|t| - 1] in t;
    }
  }

  lemma SortDescIdempotent<T>(s: seq<T>, key: T -> nat)
    ensures SortDesc(SortDesc(s, key), key) == SortDesc(s, key)
  {
    SortDescSorted(s, key);
    SortDescOfSorted(SortDesc(s, key), key);
  }

  /** The elements of s whose key is k, in their order in s. */
  function KeyClass<T>(s: seq<T>, key: T -> nat, k: nat): (r: seq<T>)
    ensures forall i :: 0 <= i < |r| ==> key(r[i]) == k
  {
    if s == [] then []
    else KeyClass(s[..|s| - 1], key, k) + (if key(s[|s| - 1]) == k then [s[|s| - 1]] else [])
  }

  lemma {:induction false} InsertKeyClass<T>(t: seq<T>, x: T, key: T -> nat, k: nat)
    ensures KeyClass(Insert(t, x, key), key, k)
         == KeyClass(t, key, k) + (if key(x) == k then [x] else [])
    decreases |t|
  {
    if t == [] {
      assert Insert(t, x, key) == [x];
      assert [x][..0] == [];
    } else if key(x) <= key(t[|t| - 1]) {
      var r := t + [x];
      assert r[..|r| - 1] == t;
    } else {
      var init, y := t[..|t| - 1], t[|t| - 1];
      InsertKeyClass(init, x, key, k);
      var r := Insert(init, x, key) + [y];
      assert r[..|r| - 1] == Insert(init, x, key);
    }
  }

  /** Stability: for every key value, the elements with that key appear in
      the output in the same order as in the input. */
  lemma {:induction false} SortDescStable<T>(s: seq<T>, key: T -> nat, k: nat)
    ensures KeyClass(SortDesc(s, key), key, k) == KeyClass(s, key, k)
  {
    if s != [] {
      var init := s[..|s| - 1];
      SortDescStable(init, key, k);
      InsertKeyClass(SortDesc(init, key), s[|s| - 1], key, k);
    }
  }

  /** The first n elements of the sorted sequence are a sorted sub-multiset
      of s, and no element left out outranks any element kept. */
  lemma TopN<T>(s: seq<T>, key: T -> nat, n: nat)
    ensures SortedDesc(Take(SortDesc(s, key), n), key)
    ensures multiset(Take(SortDesc(s, key), n)) <= multiset(s)
    ensures forall p, q :: p in multiset(s) - multiset(Take(SortDesc(s, key), n)) && q in Take(SortDesc(s, key), n)
                       ==> key(p) <= key(q)
  {
    var sorted := SortDesc(s, key);
    SortDescSorted(s, key);
    var t := Take(sorted, n);
    var rest := sorted[|t|..];
    assert sorted == t + rest;
    assert multiset(sorted) == multiset(t) + multiset(rest);
    assert SortedDesc(t, key) by {
      forall i, j | 0 <= i < j < |t| ensures key(t[i]) >= key(t[j]) {
        assert t[i] == sorted[i] && t[j] == sorted[j];
      }
    }
    forall p, q | p in multiset(s) - multiset(t) && q in t ensures key(p) <= key(q) {
      assert p in multiset(rest);
      var j :| 0 <= j < |rest| && rest[j] == p;
      var i :| 0 <= i < |t| && t[i] == q;
      assert sorted[i] == q && sorted[|t| + j] == p;
    }
  }

  /** Every element of the first n is an element of s. */
  lemma TopNMembers<T>(s: seq<T>, key: T -> nat, n: nat)
    ensures forall q :: q in Take(SortDesc(s, key), n) ==> q in s
  {
    TopN(s, key, n);
    forall q | q in Take(SortDesc(s, key), n) ensures q in s {
      assert q in multiset(Take(SortDesc(s, key), n));
    }
  }

  /** An element of s that is not among the first n ranks no higher than
      any of them. */
  lemma TopNLeftOut<T>(s: seq<T>, key: T -> nat, n: nat, p: T)
    requires p in s && p !in Take(SortDesc(s, key), n)
    ensures forall q :: q in Take(SortDesc(s, key), n) ==> key(p) <= key(q)
  {
    TopN(s, key, n);
    assert p in multiset(s) - multiset(Take(SortDesc(s, key), n));
  }

  /** Inserting x at position j of t agrees with Insert when every element
      before j outranks or ties x and every element from j on is below x. */
  lemma {:induction false} InsertAt<T>(t: seq<T>, x: T, key: T -> nat, j: nat)
    requires j <= |t|
    requires j == 0 || key(t[j - 1]) >= key(x)
    requires forall k :: j <= k < |t| ==> key(t[k]) < key(x)
    ensures Insert(t, x, key) == t[..j] + [x] + t[j..]
    decreases |t|
  {
    if j == |t| {
      if t != [] {
        assert t[..j] == t;
      }
    } else {
      var init, y := t[..|t| - 1], t[|t| - 1];
      assert Insert(t, x, key) == Insert(init, x, key) + [y] by {
        assert key(y) < key(x);
      }
      InsertAt(init, x, key, j);
      SplitAround(t, x, j);
    }
  }

  lemma SplitAround<T>(t: seq<T>, x: T, j: nat)
    requires j < |t|
    ensures t[..|t| - 1][..j] + [x] + t[..|t| - 1][j..] + [t[|t| - 1]] == t[..j] + [x] + t[j..]
  {
    var init := t[..|t| - 1];
    assert init[..j] == t[..j];
    assert init[j..] + [t[|t| - 1]] == t[j..];
  }

  /** One step of insertion sort: shifts the elements of the prefix a[..i]
      that rank below a[i] one place right and drops a[i] into the gap. */
  method InsertLast<T>(a: array<T>, i: nat, key: T -> nat)
    requires i < a.Length
    modifies a
    ensures a[..i + 1] == Insert(old(a[..i]), old(a[i]), key)
    ensures forall k :: i < k < a.Length ==> a[k] == old(a[k])
  {
    ghost var sp := a[..i];
    var x := a[i];
    var j := i;
    while j > 0 && key(a[j - 1]) < key(x)
      invariant 0 <= j <= i
      invariant forall k :: 0 <= k < j ==> a[k] == sp[k]
      invariant forall k :: j < k <= i ==> a[k] == sp[k - 1]
      invariant forall k :: j <= k < i ==> key(sp[k]) < key(x)
      invariant forall k :: i < k < a.Length ==> a[k] == old(a[k])
    {
      a[j] := a[j - 1];
      j := j - 1;
    }
    a[j] := x;
    assert a[..i + 1] == sp[..j] + [x] + sp[j..] by {
      Shifted(sp, x, j, a[..i + 1]);
    }
    InsertAt(sp, x, key, j);
  }

  /** A sequence that agrees with t before j, holds x at j and holds t
      shifted one place right after j is t with x inserted at j. */
  lemma Shifted<T>(t: seq<T>, x: T, j: nat, r: seq<T>)
    requires j <= |t| && |r| == |t| + 1
    requires forall k :: 0 <= k < j ==> r[k] == t[k]
    requires r[j] == x
    requires forall k :: j < k < |r| ==> r[k] == t[k - 1]
    ensures r == t[..j] + [x] + t[j..]
  {
    var e := t[..j] + [x] + t[j..];
    forall k | 0 <= k < |r| ensures r[k] == e[k] {
      if k < j {
        assert e[k] == t[k];
      } else if j < k {
        assert e[k] == t[k - 1];
      }
    }
  }

  /** Sorting one more element of a prefix inserts it. */
  lemma SortDescPrefix<T>(s: seq<T>, i: nat, key: T -> nat)
    requires i < |s|
    ensures SortDesc(s[..i + 1], key) == Insert(SortDesc(s[..i], key), s[i], key)
  {
    assert s[..i + 1][..i] == s[..i];
  }

  /** In-place insertion sort; its result is exactly SortDesc of the old
      contents, hence sorted, a permutation and stable. */
  method SortInPlace<T>(a: array<T>, key: T -> nat)
    modifies a
    ensures a[..] == SortDesc(old(a[..]), key)
  {
    ghost var orig := a[..];
    var i := 0;
    while i < a.Length
      invariant 0 <= i <= a.Length
      invariant a[..i] == SortDesc(orig[..i], key)
      invariant forall k :: i <= k < a.Length ==> a[k] == orig[k]
    {
      InsertLast(a, i, key);
      SortDescPrefix(orig, i, key);
      i := i + 1;
    }
    assert a[..] == a[..a.Length];
    assert orig[..a.Length] == orig;
  }
}
