/** Sorting by a comparison, as sort.Slice does; byte strings in Go's order. */
module Sorting {
  import opened Ids
  import opened Utf8

  ghost predicate StrictOrder<T(!new)>(less: (T, T) -> bool) {
    && (forall a: T, b: T, c: T {:trigger less(a, b), less(b, c)} :: less(a, b) && less(b, c) ==> less(a, c))
    && (forall a: T, b: T {:trigger less(a, b)} :: !(less(a, b) && less(b, a)))
    && (forall a: T, b: T {:trigger less(a, b)} :: less(a, b) || less(b, a) || a == b)
  }

  // A comparison of keys: different elements may compare equal.
  ghost predicate WeakOrder<T(!new)>(less: (T, T) -> bool) {
    && (forall a: T, b: T {:trigger less(a, b)} :: !(less(a, b) && less(b, a)))
    && (forall a: T, b: T, c: T {:trigger less(b, a), less(c, b)} :: !less(b, a) && !less(c, b) ==> !less(c, a))
  }

  lemma StrictIsWeak<T(!new)>(less: (T, T) -> bool)
    requires StrictOrder(less)
    ensures WeakOrder(less)
  {
    forall a: T, b: T, c: T {:trigger less(b, a), less(c, b)} | !less(b, a) && !less(c, b) ensures !less(c, a) {
      if less(a, b) {
        assert less(c, a) ==> less(c, b);
      }
    }
  }

  ghost predicate SortedBy<T(!new)>(s: seq<T>, less: (T, T) -> bool) {
    forall i, j :: 0 <= i < j < |s| ==> !less(s[j], s[i])
  }

  function Insert<T>(x: T, s: seq<T>, less: (T, T) -> bool): seq<T> {
    if s == [] then [x]
    else if less(s[0], x) then [s[0]] + Insert(x, s[1..], less)
    else [x] + s
  }

  function SortBy<T>(s: seq<T>, less: (T, T) -> bool): seq<T> {
    if s == [] then [] else Insert(s[0], SortBy(s[1..], less), less)
  }

  lemma {:induction false} InsertMembers<T>(x: T, s: seq<T>, less: (T, T) -> bool)
    ensures multiset(Insert(x, s, less)) == multiset(s) + multiset{x}
  {
    if s != [] {
      assert s == [s[0]] + s[1..];
      if less(s[0], x) {
        InsertMembers(x, s[1..], less);
      }
    }
  }

  lemma ConsSorted<T(!new)>(a: T, t: seq<T>, less: (T, T) -> bool)
    requires WeakOrder(less) && SortedBy(t, less) && (t != [] ==> !less(t[0], a))
    ensures SortedBy([a] + t, less)
  {
    var s := [a] + t;
    forall i, j | 0 <= i < j < |s| ensures !less(s[j], s[i]) {
      if i > 0 {
        assert !less(t[j - 1], t[i - 1]);
      } else if j > 1 {
        assert !less(t[j - 1], t[0]);
      }
    }
  }

  lemma {:induction false} InsertSorted<T(!new)>(x: T, s: seq<T>, less: (T, T) -> bool)
    requires WeakOrder(less) && SortedBy(s, less)
    ensures SortedBy(Insert(x, s, less), less) && Insert(x, s, less) != []
    ensures Insert(x, s, less)[0] == x || (s != [] && Insert(x, s, less)[0] == s[0])
  {
    if s == [] {
    } else if less(s[0], x) {
      InsertSorted(x, s[1..], less);
      var t := Insert(x, s[1..], less);
      assert t[0] == x || !less(s[1], s[0]);
      ConsSorted(s[0], t, less);
    } else {
      ConsSorted(x, s, less);
    }
  }

  lemma SortBySorted<T(!new)>(s: seq<T>, less: (T, T) -> bool)
    requires StrictOrder(less)
    ensures SortedBy(SortBy(s, less), less) && multiset(SortBy(s, less)) == multiset(s)
  {
    StrictIsWeak(less);
    SortByKey(s, less);
  }

  lemma {:induction false} SortByKey<T(!new)>(s: seq<T>, less: (T, T) -> bool)
    requires WeakOrder(less)
    ensures SortedBy(SortBy(s, less), less) && multiset(SortBy(s, less)) == multiset(s)
  {
    if s != [] {
      SortByKey(s[1..], less);
      InsertSorted(s[0], SortBy(s[1..], less), less);
      InsertMembers(s[0], SortBy(s[1..], less), less);
      assert s == [s[0]] + s[1..];
    }
  }

  // A multiset has one sorted arrangement.
  lemma {:induction false} SortedUnique<T(!new)>(a: seq<T>, b: seq<T>, less: (T, T) -> bool)
    requires StrictOrder(less) && SortedBy(a, less) && SortedBy(b, less) && multiset(a) == multiset(b)
    ensures a == b
  {
    assert |multiset(a)| == |a| && |multiset(b)| == |b|;
    if a != [] {
      SameLeast(a, b, less);
      DropFirst(a);
      DropFirst(b);
      SortedUnique(a[1..], b[1..], less);
      assert a == [a[0]] + a[1..] && b == [b[0]] + b[1..];
    }
  }

  lemma DropFirst<T>(a: seq<T>)
    requires a != []
    ensures multiset(a[1..]) == multiset(a) - multiset{a[0]}
  {
    assert a == [a[0]] + a[1..];
  }

  lemma SameLeast<T(!new)>(a: seq<T>, b: seq<T>, less: (T, T) -> bool)
    requires StrictOrder(less) && SortedBy(a, less) && SortedBy(b, less) && multiset(a) == multiset(b) && a != []
              && b != []
    ensures a[0] == b[0]
  {
    assert a[0] in multiset(a) && b[0] in multiset(b);
    var i :| 0 <= i < |b| && b[i] == a[0];
    var j :| 0 <= j < |a| && a[j] == b[0];
    if i > 0 && j > 0 {
      assert !less(b[i], b[0]) && !less(a[j], a[0]);
    }
  }

  lemma SameSorted<T(!new)>(a: seq<T>, b: seq<T>, less: (T, T) -> bool)
    requires StrictOrder(less)
    ensures SortBy(a, less) == SortBy(b, less) <==> multiset(a) == multiset(b)
  {
    SortBySorted(a, less);
    SortBySorted(b, less);
    if multiset(a) == multiset(b) {
      SortedUnique(SortBy(a, less), SortBy(b, less), less);
    }
  }

  // ------------------------------------------------------------ distinct keys

  ghost predicate DistinctKeys<T(!new), K>(s: seq<T>, key: T -> K) {
    forall i, j :: 0 <= i < j < |s| ==> key(s[i]) != key(s[j])
  }

  // Rearranging a list keeps its keys distinct.
  lemma {:induction false} PermutedDistinct<T(!new), K>(a: seq<T>, b: seq<T>, key: T -> K)
    requires multiset(a) == multiset(b) && DistinctKeys(a, key)
    ensures DistinctKeys(b, key)
  {
    forall i, j | 0 <= i < j < |b| ensures key(b[i]) != key(b[j]) {
      assert b[i] in multiset(b) && b[j] in multiset(b);
      var k :| 0 <= k < |a| && a[k] == b[i];
      var l :| 0 <= l < |a| && a[l] == b[j];
      OncePresent(a, k, key);
      TwicePresent(b, i, j);
    }
  }

  lemma TwicePresent<T>(s: seq<T>, i: nat, j: nat)
    requires i < j < |s|
    ensures s[i] == s[j] ==> multiset(s)[s[i]] >= 2
  {
    assert s == s[..i] + [s[i]] + s[i + 1..j] + [s[j]] + s[j + 1..];
  }

  lemma OncePresent<T(!new), K>(s: seq<T>, k: nat, key: T -> K)
    requires k < |s| && DistinctKeys(s, key)
    ensures multiset(s)[s[k]] == 1
  {
    assert s == s[..k] + [s[k]] + s[k + 1..];
    assert s[k] !in s[..k] && s[k] !in s[k + 1..];
  }

  // The comparison decides by the key first.
  ghost predicate GroupsBy<T(!new), K>(less: (T, T) -> bool, key: T -> K) {
    forall a: T, b: T, c: T {:trigger less(b, a), less(c, b)} :: key(a) == key(c) && !less(b, a) && !less(c, b) ==>
        key(a) == key(b)
  }

  // In a sorted list equal keys stand next to each other.
  lemma {:induction false} EqualKeysMeet<T(!new), K>(s: seq<T>, less: (T, T) -> bool, key: T -> K, i: nat,
          j: nat) returns (k: nat)
    requires SortedBy(s, less) && GroupsBy(less, key) && i < j < |s| && key(s[i]) == key(s[j])
    ensures i < k <= j && key(s[k - 1]) == key(s[k])
    decreases j
  {
    if i == j - 1 {
      k := j;
    } else {
      assert !less(s[j - 1], s[i]) && !less(s[j], s[j - 1]);
      k := EqualKeysMeet(s, less, key, i, j - 1);
    }
  }

  // The scan for a neighbour with the same key finds every repetition.
  method NeighboursDiffer<T(!new), K(==)>(s: seq<T>, ghost less: (T, T) -> bool, key: T -> K) returns (res: Option<K>)
    requires SortedBy(s, less) && GroupsBy(less, key)
    ensures res.None? <==> DistinctKeys(s, key)
  {
    var i := 1;
    while i < |s|
      invariant 1 <= i && forall k :: 1 <= k < i && k < |s| ==> key(s[k - 1]) != key(s[k])
    {
      if key(s[i - 1]) == key(s[i]) {
        return Some(key(s[i]));
      }
      i := i + 1;
    }
    forall a, b | 0 <= a < b < |s| ensures key(s[a]) != key(s[b]) {
      if key(s[a]) == key(s[b]) {
        var k := EqualKeysMeet(s, less, key, a, b);
      }
    }
    res := None;
  }

  lemma SortedDistinct<T(!new), K>(s: seq<T>, less: (T, T) -> bool, key: T -> K)
    requires StrictOrder(less)
    ensures DistinctKeys(SortBy(s, less), key) <==> DistinctKeys(s, key)
  {
    SortBySorted(s, less);
    if DistinctKeys(s, key) {
      PermutedDistinct(s, SortBy(s, less), key);
    }
    if DistinctKeys(SortBy(s, less), key) {
      PermutedDistinct(SortBy(s, less), s, key);
    }
  }

  lemma SortedMembers<T(!new)>(s: seq<T>, less: (T, T) -> bool)
    requires StrictOrder(less)
    ensures |SortBy(s, less)| == |s| && forall x :: x in SortBy(s, less) <==> x in s
  {
    SortBySorted(s, less);
    assert |multiset(s)| == |s| && |multiset(SortBy(s, less))| == |SortBy(s, less)|;
    forall x ensures x in SortBy(s, less) <==> x in s {
      assert x in multiset(s) <==> x in s;
      assert x in multiset(SortBy(s, less)) <==> x in SortBy(s, less);
    }
  }

  // ------------------------------------------------------------ byte strings

  predicate BytesLess(a: Bytes, b: Bytes) {
    b != [] && (a == [] || a[0] < b[0] || (a[0] == b[0] && BytesLess(a[1..], b[1..])))
  }

  lemma {:induction false} BytesTotal(a: Bytes, b: Bytes)
    ensures BytesLess(a, b) || BytesLess(b, a) || a == b
    ensures !(BytesLess(a, b) && BytesLess(b, a)) && !BytesLess(a, a)
  {
    if a != [] {
      BytesTotal(a[1..], a[1..]);
      if b != [] {
        BytesTotal(a[1..], b[1..]);
        assert a == [a[0]] + a[1..] && b == [b[0]] + b[1..];
      }
    }
  }

  lemma {:induction false} BytesTransitive(a: Bytes, b: Bytes, c: Bytes)
    requires BytesLess(a, b) && BytesLess(b, c)
    ensures BytesLess(a, c)
  {
    if a != [] && a[0] == b[0] == c[0] {
      BytesTransitive(a[1..], b[1..], c[1..]);
    }
  }

  // Comparing keys one after the other, the first difference deciding.
  // A proper prefix comes first; otherwise the first byte that differs decides.
  lemma {:induction false} BytesLessExact(a: Bytes, b: Bytes)
    ensures BytesLess(a, b) <==>
              exists k :: 0 <= k <= |a| && k < |b| && a[..k] == b[..k] && (k == |a| || a[k] < b[k])
  {
    if a != [] && b != [] && a[0] == b[0] {
      BytesLessExact(a[1..], b[1..]);
      if k :| 0 <= k < |a| && k < |b| - 1 && a[1..][..k] == b[1..][..k] && (k == |a| - 1 || a[1..][k] < b[1..][k]) {
        assert a[..k + 1] == [a[0]] + a[1..][..k] && b[..k + 1] == [b[0]] + b[1..][..k];
        assert k + 1 == |a| || a[k + 1] < b[k + 1];
      }
      if k :| 0 <= k <= |a| && k < |b| && a[..k] == b[..k] && (k == |a| || a[k] < b[k]) {
        assert k > 0;
        assert a[1..][..k - 1] == a[..k][1..] && b[1..][..k - 1] == b[..k][1..];
        assert k == |a| || a[1..][k - 1] < b[1..][k - 1];
      }
    } else if a == [] {
      assert b != [] ==> a[..0] == b[..0];
    } else if b != [] {
      assert a[0] < b[0] ==> a[..0] == b[..0];
      forall k | 0 < k <= |a| && k < |b| ensures a[..k] != b[..k] {
        assert a[..k][0] == a[0] && b[..k][0] == b[0];
      }
    }
  }

  predicate KeysLess(a: seq<Bytes>, b: seq<Bytes>)
    requires |a| == |b|
  {
    a != [] && (if a[0] != b[0] then BytesLess(a[0], b[0]) else KeysLess(a[1..], b[1..]))
  }

  lemma {:induction false} KeysTotal(a: seq<Bytes>, b: seq<Bytes>)
    requires |a| == |b|
    ensures KeysLess(a, b) || KeysLess(b, a) || a == b
    ensures !(KeysLess(a, b) && KeysLess(b, a))
  {
    if a != [] {
      BytesTotal(a[0], b[0]);
      KeysTotal(a[1..], b[1..]);
      assert a == [a[0]] + a[1..] && b == [b[0]] + b[1..];
    }
  }

  lemma {:induction false} KeysTransitive(a: seq<Bytes>, b: seq<Bytes>, c: seq<Bytes>)
    requires |a| == |b| == |c| && KeysLess(a, b) && KeysLess(b, c)
    ensures KeysLess(a, c)
  {
    if a[0] == b[0] == c[0] {
      KeysTransitive(a[1..], b[1..], c[1..]);
    } else if a[0] != b[0] && b[0] != c[0] {
      BytesTransitive(a[0], b[0], c[0]);
      BytesTotal(a[0], c[0]);
      BytesTotal(a[0], b[0]);
    }
  }
}
