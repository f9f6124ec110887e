/**
 First-match Cause paths: walks that end at the first node of a stop set they meet.
 revision_graph.go enumerates them twice, with memoisation: firstStalePaths stops at
 Seals that are not active leaves, impactSuffixPaths at the revisions of a source and
 keeps only the first few per node.
 */
module FirstMatch {
  import opened Ids
  import opened Walks

  ghost predicate Matching(causes: Edges, stop: iset<Id>, cur: Id, p: Path) {
    && IsWalk(causes, p) && p[0] == cur && Last(p) in stop
    && forall i :: 0 <= i < |p| - 1 ==> p[i] !in stop
  }

  ghost function Matches(causes: Edges, stop: iset<Id>, cur: Id): iset<Path> {
    iset p | Matching(causes, stop, cur, p)
  }

  // cur itself is not tested against the stop set; only its targets are.
  ghost predicate Strictly(causes: Edges, stop: iset<Id>, cur: Id, nexts: seq<Id>, p: Path) {
    |p| >= 2 && p[0] == cur && p[1] in nexts && p[1..] in Matches(causes, stop, p[1])
  }

  ghost function Strict(causes: Edges, stop: iset<Id>, cur: Id): iset<Path> {
    iset p | Strictly(causes, stop, cur, Out(causes, cur), p)
  }

  lemma MatchesUnfold(causes: Edges, stop: iset<Id>, cur: Id)
    ensures Matches(causes, stop, cur) == if cur in stop then iset{[cur]} else Strict(causes, stop, cur)
  {
    forall p: Path
      ensures p in Matches(causes, stop, cur) <==> if cur in stop then p == [cur] else p in Strict(causes, stop, cur)
    {
      if cur in stop {
        MatchStop(causes, stop, cur, p);
      } else {
        MatchStep(causes, stop, cur, p);
      }
    }
  }

  lemma MatchStop(causes: Edges, stop: iset<Id>, cur: Id, p: Path)
    requires cur in stop
    ensures Matching(causes, stop, cur, p) <==> p == [cur]
  {
    if Matching(causes, stop, cur, p) {
      assert |p| == 1;
    }
  }

  lemma MatchStep(causes: Edges, stop: iset<Id>, cur: Id, p: Path)
    requires cur !in stop
    ensures Matching(causes, stop, cur, p) <==> Strictly(causes, stop, cur, Out(causes, cur), p)
  {
    if Matching(causes, stop, cur, p) {
      assert |p| >= 2;
      WalkPart(causes, p, 1, |p|);
      assert p[1..|p|] == p[1..];
      assert p[1] in Out(causes, p[0]);
    } else if Strictly(causes, stop, cur, Out(causes, cur), p) {
      var t := p[1..];
      forall i, j | 0 <= i < j < |p| && j == i + 1 ensures p[j] in Out(causes, p[i]) {
        if i > 0 {
          assert t[j - 1] in Out(causes, t[i - 1]);
        }
      }
      forall i | 0 <= i < |p| - 1 ensures p[i] !in stop {
        if i > 0 {
          assert t[i - 1] !in stop;
        }
      }
    }
  }

  // ------------------------------------------- gathering the suffix lists

  function Prepend(cur: Id, suffixes: seq<Path>): (r: seq<Path>)
    ensures |r| == |suffixes| && forall i :: 0 <= i < |r| ==> r[i] == [cur] + suffixes[i]
  {
    seq(|suffixes|, i requires 0 <= i < |suffixes| => [cur] + suffixes[i])
  }

  lemma PrependMembers(cur: Id, suffixes: seq<Path>)
    ensures forall p: Path :: p in Prepend(cur, suffixes) <==> p != [] && p[0] == cur && p[1..] in suffixes
  {
    forall p: Path
      ensures p in Prepend(cur, suffixes) <==> p != [] && p[0] == cur && p[1..] in suffixes
    {
      if p != [] && p[0] == cur && p[1..] in suffixes {
        var i :| 0 <= i < |suffixes| && suffixes[i] == p[1..];
        assert Prepend(cur, suffixes)[i] == p;
      }
    }
  }

  // k different entries of the list come before p.
  ghost predicate Crowded(r: seq<Path>, limit: Option<nat>, p: Path) {
    limit.Some? && exists L: seq<Path> :: Below(r, limit.value, p, L)
  }

  ghost predicate Below(r: seq<Path>, k: nat, p: Path, L: seq<Path>) {
    NoDup(L) && |L| == k && forall q :: q in L ==> q in r && PathLess(q, p)
  }

  // What the collecting loop holds after the targets in nexts: some of their paths,
  // and every path left out is preceded by a full allowance of those kept.
  ghost predicate Collected(r: seq<Path>, limit: Option<nat>, causes: Edges, stop: iset<Id>, cur: Id, nexts: seq<Id>) {
    && NoDup(r)
    && (forall p :: p in r ==> Strictly(causes, stop, cur, nexts, p))
    && (forall p: Path {:trigger Strictly(causes, stop, cur, nexts, p)} ::
          Strictly(causes, stop, cur, nexts, p) ==> p in r || Crowded(r, limit, p))
  }

  lemma CollectedNone(limit: Option<nat>, causes: Edges, stop: iset<Id>, cur: Id)
    ensures Collected([], limit, causes, stop, cur, [])
  {
  }

  lemma CollectedNext(r: seq<Path>, limit: Option<nat>, causes: Edges, stop: iset<Id>, cur: Id, nexts: seq<Id>,
          next: Id, suffixes: seq<Path>)
    requires Collected(r, limit, causes, stop, cur, nexts) && next !in nexts
    requires IsFirst(suffixes, limit, Matches(causes, stop, next))
    ensures Collected(r + Prepend(cur, suffixes), limit, causes, stop, cur, nexts + [next])
  {
    var more := Prepend(cur, suffixes);
    var r' := r + more;
    PrependMembers(cur, suffixes);
    PrependNoDup(cur, suffixes);
    forall p | p in r'
      ensures Strictly(causes, stop, cur, nexts + [next], p)
    {
      if p in more {
        SuffixStrict(causes, stop, cur, nexts, next, suffixes, p);
      }
    }
    forall p | p in more ensures p !in r {
      SuffixStrict(causes, stop, cur, nexts, next, suffixes, p);
    }
    NoDupConcat(r, more);
    forall p: Path | Strictly(causes, stop, cur, nexts + [next], p)
      ensures p in r' || Crowded(r', limit, p)
    {
      if p[1] != next {
        assert Strictly(causes, stop, cur, nexts, p);
        if p !in r {
          var L :| Below(r, limit.value, p, L);
          assert Below(r', limit.value, p, L);
        }
      } else if p[1..] !in suffixes {
        forall q | q in more ensures q in r' && PathLess(q, p) {
          PrependOrder(cur, q[1..], p[1..]);
          assert q == [cur] + q[1..] && p == [cur] + p[1..];
        }
        assert Below(r', limit.value, p, more);
      }
    }
  }

  lemma PrependNoDup(cur: Id, suffixes: seq<Path>)
    requires PathsSorted(suffixes)
    ensures NoDup(Prepend(cur, suffixes))
  {
    PathOrder();
    var more := Prepend(cur, suffixes);
    forall i, j | 0 <= i < j < |more| ensures more[i] != more[j] {
      assert more[i][1..] == suffixes[i] && more[j][1..] == suffixes[j];
      assert PathLess(suffixes[i], suffixes[j]);
    }
  }

  lemma SuffixStrict(causes: Edges, stop: iset<Id>, cur: Id, nexts: seq<Id>, next: Id, suffixes: seq<Path>, p: Path)
    requires forall s :: s in suffixes ==> s in Matches(causes, stop, next)
    requires p in Prepend(cur, suffixes)
    ensures Strictly(causes, stop, cur, nexts + [next], p) && p[1] == next
  {
    PrependMembers(cur, suffixes);
    assert p[1..] in suffixes && p[1..][0] == next;
  }

  // Sorting and cutting what was gathered gives the first entries of the whole set.
  lemma CollectedFirst(r: seq<Path>, limit: Option<nat>, causes: Edges, stop: iset<Id>, cur: Id)
    requires Collected(r, limit, causes, stop, cur, Out(causes, cur))
    ensures IsFirst(Take(SortPaths(r), limit), limit, Strict(causes, stop, cur))
  {
    PathOrder();
    SortPathsSorted(r);
    var all := SortPaths(r);
    var cut := Take(all, limit);
    forall p | p in Strict(causes, stop, cur)
      ensures p in cut || (Full(cut, limit) && forall q :: q in cut ==> PathLess(q, p))
    {
      assert Strictly(causes, stop, cur, Out(causes, cur), p);
      if p in r {
        CutKeeps(all, limit, p);
      } else {
        var L :| Below(r, limit.value, p, L);
        CutBelow(all, limit.value, p, L);
      }
    }
  }

  lemma CutKeeps(all: seq<Path>, limit: Option<nat>, p: Path)
    requires PathsSorted(all) && p in all
    ensures p in Take(all, limit) || (Full(Take(all, limit), limit) && forall q :: q in Take(all, limit) ==>
              PathLess(q, p))
  {
    var i :| 0 <= i < |all| && all[i] == p;
    if limit.Some? && |all| > limit.value {
      if i < limit.value {
        assert all[..limit.value][i] == p;
      }
    }
  }

  lemma CutBelow(all: seq<Path>, k: nat, p: Path, L: seq<Path>)
    requires PathsSorted(all) && Below(all, k, p, L)
    ensures Full(Take(all, Some(k)), Some(k)) && forall q :: q in Take(all, Some(k)) ==> PathLess(q, p)
  {
    PathOrder();
    ElemsSize(all);
    NoDupBound(L, Elems(all));
    forall j | 0 <= j < k
      ensures PathLess(all[j], p)
    {
      if !PathLess(all[j], p) {
        forall q | q in L ensures q in Elems(all[..j]) {
          var i :| 0 <= i < |all| && all[i] == q;
          assert i < j;
          assert all[..j][i] == q;
        }
        ElemsSize(all[..j]);
        NoDupBound(L, Elems(all[..j]));
      }
    }
  }

  lemma {:induction false} ElemsSize<T>(s: seq<T>)
    ensures |Elems(s)| <= |s|
  {
    if s != [] {
      ElemsSize(s[1..]);
      assert Elems(s) == {s[0]} + Elems(s[1..]);
    }
  }

  // A first match exists exactly when the stop set can be reached at all.
  lemma MatchExists(causes: Edges, stop: iset<Id>, cur: Id)
    ensures (exists p :: p in Matches(causes, stop, cur)) <==> (exists y: Id :: y in stop && Reaches(causes, cur, y))
  {
    if p :| p in Matches(causes, stop, cur) {
      assert Joins(causes, p, cur, Last(p));
    }
    if y: Id :| y in stop && Reaches(causes, cur, y) {
      var p :| Joins(causes, p, cur, y);
      MatchPrefix(causes, stop, cur, p);
    }
  }

  lemma {:induction false} MatchPrefix(causes: Edges, stop: iset<Id>, cur: Id, p: Path)
    requires IsWalk(causes, p) && p[0] == cur && exists i :: 0 <= i < |p| && p[i] in stop
    ensures exists q :: q in Matches(causes, stop, cur)
    decreases |p|
  {
    if i :| 0 <= i < |p| - 1 && p[i] in stop {
      WalkPart(causes, p, 0, i + 1);
      assert p[..i + 1][i] in stop && p[..i + 1] == p[0..i + 1];
      MatchPrefix(causes, stop, cur, p[..i + 1]);
    } else {
      assert Matching(causes, stop, cur, p);
      assert p in Matches(causes, stop, cur);
    }
  }

  // -------------------------------- the definition without memo or cut

  // Every first-match path from cur, by plain recursion over the targets.
  ghost function AllMatches(causes: Edges, stop: iset<Id>, cur: Id, rank: map<Id, nat>): seq<Path>
    requires Ranked(causes, rank)
    decreases RankOf(rank, cur), |Out(causes, cur)| + 1
  {
    if cur in stop then [[cur]] else SortPaths(AllFrom(causes, stop, cur, Out(causes, cur), rank))
  }

  ghost function AllFrom(causes: Edges, stop: iset<Id>, cur: Id, nexts: seq<Id>, rank: map<Id, nat>): seq<Path>
    requires Ranked(causes, rank) && forall n: Id :: n in nexts ==> n in Out(causes, cur)
    decreases RankOf(rank, cur), |nexts|
  {
    if nexts == [] then []
    else
      AllFrom(causes, stop, cur, nexts[..|nexts| - 1], rank)
      + Prepend(cur, AllMatches(causes, stop, nexts[|nexts| - 1], rank))
  }

  lemma {:induction false} AllMatchesExact(causes: Edges, stop: iset<Id>, cur: Id, rank: map<Id, nat>)
    requires Ranked(causes, rank) && forall x: Id :: NoDup(Out(causes, x))
    ensures Lists(AllMatches(causes, stop, cur, rank), Matches(causes, stop, cur))
    decreases RankOf(rank, cur), |Out(causes, cur)| + 1
  {
    MatchesUnfold(causes, stop, cur);
    if cur !in stop {
      AllFromExact(causes, stop, cur, Out(causes, cur), rank);
      CollectedFirst(AllFrom(causes, stop, cur, Out(causes, cur), rank), None, causes, stop, cur);
    }
  }

  lemma {:induction false} AllFromExact(causes: Edges, stop: iset<Id>, cur: Id, nexts: seq<Id>, rank: map<Id, nat>)
    requires Ranked(causes, rank) && forall x: Id :: NoDup(Out(causes, x))
    requires NoDup(nexts) && forall n: Id :: n in nexts ==> n in Out(causes, cur)
    ensures Collected(AllFrom(causes, stop, cur, nexts, rank), None, causes, stop, cur, nexts)
    decreases RankOf(rank, cur), |nexts|
  {
    if nexts == [] {
      CollectedNone(None, causes, stop, cur);
    } else {
      var init, next := nexts[..|nexts| - 1], nexts[|nexts| - 1];
      assert nexts == init + [next] && next in nexts;
      AllFromExact(causes, stop, cur, init, rank);
      AllMatchesExact(causes, stop, next, rank);
      var r, suffixes := AllFrom(causes, stop, cur, init, rank), AllMatches(causes, stop, next, rank);
      CollectedNext(r, None, causes, stop, cur, init, next, suffixes);
      assert AllFrom(causes, stop, cur, nexts, rank) == r + Prepend(cur, suffixes);
    }
  }
}
