/**
 * `Array.prototype.sort` with a "most recent first" comparator, as the
 * dashboard uses it: a stable sort (ECMAScript 2019 requires stability)
 * that orders elements by a numeric key, largest key first, and keeps
 * elements with equal keys in their input order.
 *
 * `SortDesc` is the specification (insertion sort as a function);
 * `SortInPlace` is the in-place array method proved equal to it.
 */
module Sorting {

  /** Keys never increase from left to right. */
  ghost predicate SortedDesc<T>(s: seq<T>, key: T -> int)
  {
    forall i, j :: 0 <= i < j < |s| ==> key(s[i]) >= key(s[j])
  }

  /**
   * Places `x` after every leading element whose key is at least its own:
   * on a sorted `r` this puts `x` behind the elements with an equal key.
   */
  function Insert<T>(x: T, r: seq<T>, key: T -> int): (t: seq<T>)
    ensures |t| == |r| + 1
  {
    if r == [] then [x]
    else if key(r[0]) >= key(x) then [r[0]] + Insert(x, r[1..], key)
    else [x] + r
  }

  /** Inserts the elements left to right: the stable descending sort. */
  function SortDesc<T>(s: seq<T>, key: T -> int): (t: seq<T>)
    ensures |t| == |s|
  {
    if s == [] then [] else Insert(s[|s| - 1], SortDesc(s[..|s| - 1], key), key)
  }

  /** Insertion adds exactly one copy of `x`. */
  lemma {:induction false} InsertPermutation<T>(x: T, r: seq<T>, key: T -> int)
    ensures multiset(Insert(x, r, key)) == multiset(r) + multiset{x}
    ensures |Insert(x, r, key)| == |r| + 1
  {
    if r != [] && key(r[0]) >= key(x) {
      InsertPermutation(x, r[1..], key);
      assert r == [r[0]] + r[1..];
    }
  }

  /** The sort is a permutation of its input. */
  lemma {:induction false} SortDescPermutation<T>(s: seq<T>, key: T -> int)
    ensures multiset(SortDesc(s, key)) == multiset(s)
    ensures |SortDesc(s, key)| == |s|
  {
    if s != [] {
      SortDescPermutation(s[..|s| - 1], key);
      InsertPermutation(s[|s| - 1], SortDesc(s[..|s| - 1], key), key);
      assert s == s[..|s| - 1] + [s[|s| - 1]];
    }
  }

  /** The elements whose key is `k`, in their order: what stability preserves. */
  function WithKey<T>(s: seq<T>, key: T -> int, k: int): seq<T>
  {
    if s == [] then [] else (if key(s[0]) == k then [s[0]] else []) + WithKey(s[1..], key, k)
  }

  lemma {:induction false} WithKeyConcat<T>(s: seq<T>, t: seq<T>, key: T -> int, k: int)
    ensures WithKey(s + t, key, k) == WithKey(s, key, k) + WithKey(t, key, k)
  {
    if s == [] {
      assert s + t == t;
    } else {
      var head := if key(s[0]) == k then [s[0]] else [];
      assert (s + t)[0] == s[0];
      assert (s + t)[1..] == s[1..] + t;
      WithKeyConcat(s[1..], t, key, k);
      calc {
        WithKey(s + t, key, k);
        head + WithKey(s[1..] + t, key, k);
        head + (WithKey(s[1..], key, k) + WithKey(t, key, k));
        (head + WithKey(s[1..], key, k)) + WithKey(t, key, k);
      }
    }
  }

  lemma {:induction false} WithKeyNone<T>(s: seq<T>, key: T -> int, k: int)
    requires forall i :: 0 <= i < |s| ==> key(s[i]) < k
    ensures WithKey(s, key, k) == []
  {
    if s != [] {
      WithKeyNone(s[1..], key, k);
    }
  }

  /** Insertion keeps a sorted sequence sorted. */
  lemma {:induction false} InsertSorted<T>(x: T, r: seq<T>, key: T -> int)
    requires SortedDesc(r, key)
    ensures SortedDesc(Insert(x, r, key), key)
  {
    if r != [] && key(r[0]) >= key(x) {
      InsertSorted(x, r[1..], key);
      InsertPermutation(x, r[1..], key);
      var t := Insert(x, r[1..], key);
      forall j | 0 <= j < |t|
        ensures key(r[0]) >= key(t[j])
      {
        assert t[j] in multiset(t);
        assert t[j] == x || t[j] in multiset(r[1..]);
        if t[j] != x {
          var p :| 0 <= p < |r[1..]| && r[1..][p] == t[j];
          assert r[p + 1] == t[j];
        }
      }
    }
  }

  /** Insertion at a known split point: everything before has a key at least `x`'s, everything after a smaller one. */
  lemma {:induction false} InsertAt<T>(x: T, r: seq<T>, j: nat, key: T -> int)
    requires j <= |r|
    requires forall p :: 0 <= p < j ==> key(r[p]) >= key(x)
    requires forall p :: j <= p < |r| ==> key(r[p]) < key(x)
    ensures Insert(x, r, key) == r[..j] + [x] + r[j..]
  {
    if j > 0 {
      assert key(r[0]) >= key(x);
      assert Insert(x, r, key) == [r[0]] + Insert(x, r[1..], key);
      InsertAt(x, r[1..], j - 1, key);
      assert r[..j] == [r[0]] + r[1..][..j - 1];
      assert r[j..] == r[1..][j - 1..];
    }
  }

  /** Insertion into a sorted sequence adds `x` at the end of its key's group. */
  lemma {:induction false} InsertWithKey<T>(x: T, r: seq<T>, key: T -> int, k: int)
    requires SortedDesc(r, key)
    ensures WithKey(Insert(x, r, key), key, k) == WithKey(r, key, k) + (if key(x) == k then [x] else [])
  {
    if r == [] {
    } else if key(r[0]) >= key(x) {
      InsertWithKey(x, r[1..], key, k);
      WithKeyConcat([r[0]], Insert(x, r[1..], key), key, k);
      WithKeyConcat([r[0]], r[1..], key, k);
      assert [r[0]] + r[1..] == r;
    } else {
      WithKeyConcat([x], r, key, k);
      if key(x) == k {
        WithKeyNone(r, key, k);
      }
    }
  }

  /** The sort returns its input in descending key order. */
  lemma {:induction false} SortDescSorted<T>(s: seq<T>, key: T -> int)
    ensures SortedDesc(SortDesc(s, key), key)
  {
    if s != [] {
      SortDescSorted(s[..|s| - 1], key);
      InsertSorted(s[|s| - 1], SortDesc(s[..|s| - 1], key), key);
    }
  }

  /** Appending one element adds it to its key's group, at the end. */
  lemma WithKeySnoc<T>(s: seq<T>, x: T, key: T -> int, k: int)
    ensures WithKey(s + [x], key, k) == WithKey(s, key, k) + (if key(x) == k then [x] else [])
  {
    WithKeyConcat(s, [x], key, k);
    assert [x][1..] == [];
    assert WithKey([x], key, k) == (if key(x) == k then [x] else []) + [];
  }

  /** The sort is stable: elements with equal keys keep their input order. */
  lemma {:induction false} SortDescStable<T>(s: seq<T>, key: T -> int, k: int)
    ensures WithKey(SortDesc(s, key), key, k) == WithKey(s, key, k)
  {
    if s != [] {
      var s', x := s[..|s| - 1], s[|s| - 1];
      var r := SortDesc(s', key);
      SortDescStable(s', key, k);
      SortDescSorted(s', key);
      InsertWithKey(x, r, key, k);
      WithKeySnoc(s', x, key, k);
      assert s == s' + [x];
    }
  }

  /** Sorting an already sorted sequence changes nothing. */
  lemma {:induction false} SortDescOfSorted<T>(s: seq<T>, key: T -> int)
    requires SortedDesc(s, key)
    ensures SortDesc(s, key) == s
  {
    if s != [] {
      var s', x := s[..|s| - 1], s[|s| - 1];
      assert SortedDesc(s', key);
      SortDescOfSorted(s', key);
      InsertAt(x, s', |s'|, key);
      assert s' + [x] == s;
    }
  }

  /**
   * The shape one insertion step leaves behind: the first `j` elements of
   * `r`, then `x`, then the rest of `r` shifted right, is `Insert(x, r)`
   * when `j` is the first position whose key is smaller than `x`'s.
   */
  lemma ShiftedIsInsert<T>(x: T, r: seq<T>, j: nat, b: seq<T>, key: T -> int)
    requires SortedDesc(r, key)
    requires j <= |r| && |b| == |r| + 1
    requires forall p :: 0 <= p < j ==> b[p] == r[p]
    requires b[j] == x
    requires forall p :: j < p < |b| ==> b[p] == r[p - 1]
    requires forall p :: j <= p < |r| ==> key(r[p]) < key(x)
    requires j > 0 ==> key(r[j - 1]) >= key(x)
    ensures b == Insert(x, r, key)
  {
    forall p | 0 <= p < j
      ensures key(r[p]) >= key(x)
    {
      assert key(r[p]) >= key(r[j - 1]);
    }
    InsertAt(x, r, j, key);
    var t := r[..j] + [x] + r[j..];
    forall p | 0 <= p < |b|
      ensures b[p] == t[p]
    {
      if p < j {
        assert t[p] == r[p];
      } else if p > j {
        assert t[p] == r[p - 1];
      }
    }
  }

  /**
   * One step of the insertion sort: `a[i]` moves left past every element of
   * the sorted prefix whose key is smaller, which shift right by one.
   */
  method InsertInPlace<T>(a: array<T>, i: nat, key: T -> int)
    requires i < a.Length
    requires SortedDesc(a[..i], key)
    modifies a
    ensures a[..i + 1] == Insert(old(a[i]), old(a[..i]), key)
    ensures a[i + 1..] == old(a[i + 1..])
  {
    var x := a[i];
    ghost var r := a[..i];
    var j := i;
    while j > 0 && key(a[j - 1]) < key(x)
      invariant 0 <= j <= i
      invariant forall p :: 0 <= p < j ==> a[p] == r[p]
      invariant forall p :: j < p <= i ==> a[p] == r[p - 1]
      invariant forall p :: i < p < a.Length ==> a[p] == old(a[p])
      invariant forall p :: j <= p < i ==> key(r[p]) < key(x)
    {
      a[j] := a[j - 1];
      j := j - 1;
    }
    a[j] := x;
    ShiftedIsInsert(x, r, j, a[..i + 1], key);
  }

  /**
   * The array is sorted in place: afterwards it holds `SortDesc` of what
   * it held before.
   */
  method SortInPlace<T>(a: array<T>, key: T -> int)
    modifies a
    ensures a[..] == SortDesc(old(a[..]), key)
  {
    var i := 0;
    while i < a.Length
      invariant 0 <= i <= a.Length
      invariant a[..i] == SortDesc(old(a[..])[..i], key)
      invariant a[i..] == old(a[..])[i..]
    {
      SortDescSorted(old(a[..])[..i], key);
      InsertInPlace(a, i, key);
      assert old(a[..])[..i + 1][..i] == old(a[..])[..i];
      i := i + 1;
    }
    assert a[..] == a[..a.Length];
    assert old(a[..])[..a.Length] == old(a[..]);
  }
}
