/** Object identifiers, Cause/revision paths, their order, and "the first k of an ordered set". */
module Ids {

  // A native ObjectID is 64 lower-case hexadecimal digits. Strings of one fixed
  // length compare like the numbers they spell, so an identifier is a number here;
  // nothing but equality and the order is ever used.
  type Id = nat

  type Path = seq<Id>

  datatype Option<+T> = None | Some(value: T)
  datatype Result<+T, +E> = Success(value: T) | Failure(error: E)

  // A named Blob included in a Seal.
  datatype Attachment = Attachment(name: string, mediaType: string, blob: Id)

  ghost predicate NoDup<T>(s: seq<T>) {
    forall i, j :: 0 <= i < j < |s| ==> s[i] != s[j]
  }

  ghost predicate Increasing(s: seq<Id>) {
    forall i, j :: 0 <= i < j < |s| ==> s[i] < s[j]
  }

  ghost function Elems<T>(s: seq<T>): set<T> {
    set x | x in s
  }

  lemma TakeNext<T>(s: seq<T>, k: nat)
    requires k < |s|
    ensures s[..k + 1] == s[..k] + [s[k]]
    ensures forall x :: x in s[..k + 1] <==> x in s[..k] || x == s[k]
  {
  }

  // A list without repetitions whose elements all lie in a set is no longer than the set.
  lemma {:induction false} NoDupBound<T>(s: seq<T>, bound: set<T>)
    requires NoDup(s)
    requires forall x :: x in s ==> x in bound
    ensures |s| <= |bound|
  {
    if s != [] {
      var rest := s[1..];
      assert forall x :: x in rest ==> x in s && x != s[0];
      NoDupBound(rest, bound - {s[0]});
    }
  }

  lemma NoDupConcat<T>(a: seq<T>, b: seq<T>)
    requires NoDup(a) && NoDup(b) && forall x :: x in b ==> x !in a
    ensures NoDup(a + b)
  {
    var c := a + b;
    forall i, j | 0 <= i < j < |c| ensures c[i] != c[j] {
      if i < |a| <= j {
        assert c[i] in a && c[j] in b;
      }
    }
  }

  lemma {:induction false} NoDupSize<T>(s: seq<T>)
    requires NoDup(s)
    ensures |Elems(s)| == |s|
  {
    if s != [] {
      var rest := s[1..];
      NoDupSize(rest);
      assert Elems(s) == {s[0]} + Elems(rest);
      assert s[0] !in Elems(rest);
    }
  }

  lemma IncreasingHead(s: seq<Id>, x: Id)
    requires Increasing(s) && x in s
    ensures s[0] <= x && s[0] !in s[1..]
  {
    var i :| 0 <= i < |s| && s[i] == x;
  }

  // Two increasing lists with the same members are the same list.
  lemma {:induction false} IncreasingUnique(a: seq<Id>, b: seq<Id>)
    requires Increasing(a) && Increasing(b)
    requires forall x :: x in a <==> x in b
    ensures a == b
  {
    assert forall i :: 0 <= i < |a| ==> a[i] in b;
    assert forall i :: 0 <= i < |b| ==> b[i] in a;
    if a != [] && b != [] {
      IncreasingHead(a, b[0]);
      IncreasingHead(b, a[0]);
      IncreasingHead(a, a[0]);
      assert a == [a[0]] + a[1..] && b == [b[0]] + b[1..];
      forall x ensures x in a[1..] <==> x in b[1..] {
        assert x in a <==> x == a[0] || x in a[1..];
        assert x in b <==> x == b[0] || x in b[1..];
      }
      IncreasingUnique(a[1..], b[1..]);
    }
  }

  // ---------------------------------------------------------------- sorting

  function InsertId(x: Id, s: seq<Id>): (r: seq<Id>) {
    if s == [] then [x]
    else if s[0] < x then [s[0]] + InsertId(x, s[1..])
    else [x] + s
  }

  // sort.Strings / sort.Slice on identifiers.
  function SortIds(s: seq<Id>): (r: seq<Id>) {
    if s == [] then [] else InsertId(s[0], SortIds(s[1..]))
  }

  lemma {:induction false} InsertIdMembers(x: Id, s: seq<Id>)
    ensures |InsertId(x, s)| == |s| + 1
    ensures forall y :: y in InsertId(x, s) <==> y == x || y in s
  {
    if s != [] && s[0] < x {
      InsertIdMembers(x, s[1..]);
      assert forall y :: y in s <==> y == s[0] || y in s[1..];
    }
  }

  lemma ConsIncreasing(a: Id, t: seq<Id>)
    requires Increasing(t) && (t != [] ==> a < t[0])
    ensures Increasing([a] + t)
  {
    forall j | 0 <= j < |t| ensures a < t[j] {
      assert t[0] <= t[j];
    }
  }

  lemma {:induction false} InsertIdIncreasing(x: Id, s: seq<Id>)
    requires Increasing(s) && x !in s
    ensures Increasing(InsertId(x, s)) && InsertId(x, s) != []
    ensures InsertId(x, s)[0] == x || (s != [] && InsertId(x, s)[0] == s[0])
  {
    if s == [] {
    } else if s[0] < x {
      InsertIdIncreasing(x, s[1..]);
      ConsIncreasing(s[0], InsertId(x, s[1..]));
    } else {
      assert s[0] in s;
      ConsIncreasing(x, s);
    }
  }

  lemma {:induction false} SortIdsIncreasing(s: seq<Id>)
    requires NoDup(s)
    ensures Increasing(SortIds(s)) && |SortIds(s)| == |s|
    ensures forall x :: x in SortIds(s) <==> x in s
  {
    if s != [] {
      SortIdsIncreasing(s[1..]);
      assert forall y :: y in s <==> y == s[0] || y in s[1..];
      assert s[0] !in s[1..];
      InsertIdIncreasing(s[0], SortIds(s[1..]));
      InsertIdMembers(s[0], SortIds(s[1..]));
    }
  }

  lemma {:induction false} SortIdsMembers(s: seq<Id>)
    ensures |SortIds(s)| == |s|
    ensures forall x: Id :: x in SortIds(s) <==> x in s
  {
    if s != [] {
      SortIdsMembers(s[1..]);
      InsertIdMembers(s[0], SortIds(s[1..]));
      assert forall x: Id :: x in s <==> x == s[0] || x in s[1..];
    }
  }

  // In order, each as often as before.
  ghost predicate Sorts(r: seq<Id>, s: multiset<Id>) {
    multiset(r) == s && Rising(r)
  }

  ghost predicate Rising(r: seq<Id>) {
    forall i, j :: 0 <= i < j < |r| ==> r[i] <= r[j]
  }

  lemma {:induction false} InsertIdRising(x: Id, s: seq<Id>)
    requires Rising(s)
    ensures Rising(InsertId(x, s))
  {
    if s != [] && s[0] < x {
      InsertIdRising(x, s[1..]);
      InsertIdMembers(x, s[1..]);
      var t := InsertId(x, s[1..]);
      forall j | 0 <= j < |t| ensures s[0] <= t[j] {
        assert t[j] in t;
        if t[j] in s[1..] {
          var k :| 0 <= k < |s[1..]| && s[1..][k] == t[j];
          assert s[k + 1] == t[j];
        }
      }
    }
  }

  lemma {:induction false} InsertIdKeeps(x: Id, s: seq<Id>)
    ensures multiset(InsertId(x, s)) == multiset(s) + multiset{x}
  {
    if s != [] {
      assert s == [s[0]] + s[1..];
      if s[0] < x {
        InsertIdKeeps(x, s[1..]);
      }
    }
  }

  lemma {:induction false} SortIdsSorts(s: seq<Id>)
    ensures Sorts(SortIds(s), multiset(s))
  {
    if s != [] {
      SortIdsSorts(s[1..]);
      InsertIdRising(s[0], SortIds(s[1..]));
      InsertIdKeeps(s[0], SortIds(s[1..]));
      assert s == [s[0]] + s[1..];
    }
  }

  lemma SubsetSize<T>(a: set<T>, b: set<T>)
    requires a <= b
    ensures |a| <= |b|
  {
    assert b == a + (b - a);
  }

  // The keys of a map, gathered in arbitrary order and sorted.
  method SortedKeys(keys: set<Id>) returns (r: seq<Id>)
    ensures Increasing(r)
    ensures forall x :: x in r <==> x in keys
  {
    var ids: seq<Id> := [];
    var todo := keys;
    while todo != {}
      invariant todo <= keys
      invariant NoDup(ids)
      invariant forall x :: x in ids <==> x in keys - todo
    {
      var x :| x in todo;
      assert x !in ids;
      ids := ids + [x];
      todo := todo - {x};
    }
    r := SortIds(ids);
    SortIdsIncreasing(ids);
  }

  // ------------------------------------------------- the order on paths

  predicate LexLess(a: Path, b: Path)
    requires |a| == |b|
  {
    a != [] && (a[0] < b[0] || (a[0] == b[0] && LexLess(a[1..], b[1..])))
  }

  // Shorter paths first, then lexicographically.
  predicate PathLess(a: Path, b: Path) {
    |a| < |b| || (|a| == |b| && LexLess(a, b))
  }

  // At the first place where they differ the smaller Seal decides.
  lemma {:induction false} LexExact(a: Path, b: Path)
    requires |a| == |b|
    ensures LexLess(a, b) <==> exists k :: 0 <= k < |a| && a[..k] == b[..k] && a[k] < b[k]
  {
    if a != [] {
      LexExact(a[1..], b[1..]);
      if LexLess(a, b) {
        if a[0] < b[0] {
          assert a[..0] == b[..0];
        } else {
          var k :| 0 <= k < |a| - 1 && a[1..][..k] == b[1..][..k] && a[1..][k] < b[1..][k];
          assert a[..k + 1] == [a[0]] + a[1..][..k] && b[..k + 1] == [b[0]] + b[1..][..k];
          assert a[k + 1] < b[k + 1];
        }
      }
      if k :| 0 <= k < |a| && a[..k] == b[..k] && a[k] < b[k] {
        if k > 0 {
          assert a[0] == a[..k][0] && b[0] == b[..k][0];
          assert a[1..][..k - 1] == a[..k][1..] && b[1..][..k - 1] == b[..k][1..];
          assert a[1..][k - 1] < b[1..][k - 1];
        }
      }
    }
  }

  lemma {:induction false} LexTotal(a: Path, b: Path)
    requires |a| == |b|
    ensures LexLess(a, b) || LexLess(b, a) || a == b
    ensures !(LexLess(a, b) && LexLess(b, a)) && !LexLess(a, a)
  {
    if a != [] {
      LexTotal(a[1..], b[1..]);
      LexTotal(a[1..], a[1..]);
      assert a == [a[0]] + a[1..] && b == [b[0]] + b[1..];
    }
  }

  lemma {:induction false} LexTransitive(a: Path, b: Path, c: Path)
    requires |a| == |b| == |c| && LexLess(a, b) && LexLess(b, c)
    ensures LexLess(a, c)
  {
    if a[0] == b[0] == c[0] {
      LexTransitive(a[1..], b[1..], c[1..]);
    }
  }

  lemma PathOrder()
    ensures forall a: Path, b: Path {:trigger PathLess(a, b)} :: PathLess(a, b) || PathLess(b, a) || a == b
    ensures forall a: Path, b: Path {:trigger PathLess(a, b)} :: !(PathLess(a, b) && PathLess(b, a))
    ensures forall a: Path {:trigger PathLess(a, a)} :: !PathLess(a, a)
    ensures forall a: Path, b: Path, c: Path {:trigger PathLess(a, b), PathLess(b, c)} ::
              PathLess(a, b) && PathLess(b, c) ==> PathLess(a, c)
  {
    forall a: Path, b: Path | |a| == |b| { LexTotal(a, b); }
    forall a: Path, b: Path, c: Path | |a| == |b| == |c| && LexLess(a, b) && LexLess(b, c) { LexTransitive(a, b, c); }
  }

  lemma {:induction false} LexGrow(a: Path, b: Path, x: Id, y: Id)
    requires |a| == |b| && (LexLess(a, b) || (a == b && x < y))
    ensures LexLess(a + [x], b + [y])
  {
    if a != [] {
      assert (a + [x])[1..] == a[1..] + [x] && (b + [y])[1..] == b[1..] + [y];
      if a[0] == b[0] {
        LexGrow(a[1..], b[1..], x, y);
      }
    }
  }

  // Growing paths by one Seal each keeps their order.
  lemma PathGrow(a: Path, b: Path, x: Id)
    requires PathLess(a, b)
    ensures PathLess(a + [x], b + [x])
  {
    if |a| == |b| {
      LexGrow(a, b, x, x);
    }
  }

  lemma PrependOrder(x: Id, a: Path, b: Path)
    ensures PathLess([x] + a, [x] + b) == PathLess(a, b)
  {
    assert ([x] + a)[1..] == a && ([x] + b)[1..] == b;
  }

  ghost predicate PathsSorted(s: seq<Path>) {
    forall i, j :: 0 <= i < j < |s| ==> PathLess(s[i], s[j])
  }

  function InsertPath(p: Path, s: seq<Path>): (r: seq<Path>) {
    if s == [] then [p]
    else if PathLess(s[0], p) then [s[0]] + InsertPath(p, s[1..])
    else [p] + s
  }

  // sortPaths: the order is total on distinct paths, so any sorting routine gives this list.
  function SortPaths(s: seq<Path>): (r: seq<Path>) {
    if s == [] then [] else InsertPath(s[0], SortPaths(s[1..]))
  }

  lemma {:induction false} InsertPathSorted(p: Path, s: seq<Path>)
    requires PathsSorted(s) && p !in s
    ensures PathsSorted(InsertPath(p, s)) && |InsertPath(p, s)| == |s| + 1
    ensures forall q :: q in InsertPath(p, s) <==> q == p || q in s
  {
    PathOrder();
    if s != [] && PathLess(s[0], p) {
      InsertPathSorted(p, s[1..]);
      var t := InsertPath(p, s[1..]);
      assert forall q :: q in s <==> q == s[0] || q in s[1..];
      forall j | 0 <= j < |t|
        ensures PathLess(s[0], t[j])
      {
        assert t[j] in t;
        if t[j] in s[1..] {
          var k :| 0 <= k < |s[1..]| && s[1..][k] == t[j];
          assert s[k + 1] == t[j];
        }
      }
    } else if s != [] {
      assert p != s[0];
      forall j | 0 <= j < |s|
        ensures PathLess(p, s[j])
      {
        assert j > 0 ==> PathLess(s[0], s[j]);
      }
    }
  }

  lemma {:induction false} SortPathsSorted(s: seq<Path>)
    requires NoDup(s)
    ensures PathsSorted(SortPaths(s)) && |SortPaths(s)| == |s|
    ensures forall q :: q in SortPaths(s) <==> q in s
  {
    if s != [] {
      SortPathsSorted(s[1..]);
      assert forall q :: q in s <==> q == s[0] || q in s[1..];
      assert s[0] !in s[1..];
      InsertPathSorted(s[0], SortPaths(s[1..]));
    }
  }

  // ------------------------- complete listings and their first k entries

  // r lists the set S completely, once each and in order.
  ghost predicate Lists(r: seq<Path>, S: iset<Path>) {
    PathsSorted(r) && forall p :: p in r <==> p in S
  }

  // r is the ordered listing of S cut at limit (None: not cut).
  ghost predicate IsFirst(r: seq<Path>, limit: Option<nat>, S: iset<Path>) {
    && PathsSorted(r) && (limit.Some? ==> |r| <= limit.value)
    && (forall p :: p in r ==> p in S)
    && (forall p :: p in S ==> p in r || (Full(r, limit) && forall q :: q in r ==> PathLess(q, p)))
  }

  ghost predicate Full(r: seq<Path>, limit: Option<nat>) {
    limit.Some? && |r| == limit.value
  }

  function Take<T>(s: seq<T>, limit: Option<nat>): seq<T> {
    if limit.None? || |s| <= limit.value then s else s[..limit.value]
  }

  // IsFirst determines the list: it is a prefix of the complete listing, and short
  // of the limit it is the whole listing.
  lemma {:induction false} FirstIsPrefix(r: seq<Path>, limit: Option<nat>, all: seq<Path>, S: iset<Path>)
    requires IsFirst(r, limit, S) && Lists(all, S)
    ensures r == Take(all, limit)
    decreases |r|
  {
    PathOrder();
    if r == [] {
      assert all != [] ==> all[0] in S;
    } else {
      assert r[0] in S;
      var i :| 0 <= i < |all| && all[i] == r[0];
      var first, least := r[0], all[0];
      assert least in S;
      assert i == 0 || PathLess(least, first);
      assert least in r ==> exists j :: 0 <= j < |r| && r[j] == least;
      assert least == first;
      var S' := S - iset{r[0]};
      var all' := all[1..];
      var limit' := if limit.None? then None else Some(limit.value - 1);
      forall p
        ensures p in all' <==> p in S'
      {
        assert all[0] !in all';
        assert p in all <==> p == all[0] || p in all';
      }
      forall p
        ensures p in r[1..] ==> p in S'
        ensures p in S' ==> p in r[1..] || (Full(r[1..], limit') && forall q :: q in r[1..] ==> PathLess(q, p))
      {
        assert r[0] !in r[1..];
        assert p in r <==> p == r[0] || p in r[1..];
      }
      FirstIsPrefix(r[1..], limit', all', S');
      assert r == [r[0]] + r[1..] && all == [all[0]] + all';
    }
  }
}
