/** Directed edges as Go's map[string][]ObjectID, walks along them, and what acyclicity means. */
module Walks {
  import opened Ids

  type Edges = map<Id, seq<Id>>

  // A Go map read: an absent key yields the empty slice.
  function Out(m: Edges, id: Id): seq<Id> {
    if id in m then m[id] else []
  }

  function AppendUnique<T(==)>(s: seq<T>, x: T): seq<T> {
    if x in s then s else s + [x]
  }

  function AddEdge(m: Edges, a: Id, b: Id): Edges {
    m[a := AppendUnique(Out(m, a), b)]
  }

  // m holds exactly the pairs of rel, no target twice.
  ghost predicate Represents(m: Edges, rel: set<(Id, Id)>) {
    && (forall a: Id, b: Id :: b in Out(m, a) <==> (a, b) in rel)
    && (forall a: Id :: NoDup(Out(m, a)))
  }

  lemma AddEdgeRepresents(m: Edges, rel: set<(Id, Id)>, a: Id, b: Id)
    requires Represents(m, rel)
    ensures Represents(AddEdge(m, a, b), rel + {(a, b)})
  {
    var m' := AddEdge(m, a, b);
    forall x: Id
      ensures NoDup(Out(m', x))
    {
      assert NoDup(Out(m, x));
    }
    forall x: Id, y: Id
      ensures y in Out(m', x) <==> (x, y) in rel + {(a, b)}
    {
      assert y in Out(m, x) <==> (x, y) in rel;
    }
  }

  ghost predicate IsWalk(m: Edges, p: Path) {
    p != [] && forall i, j :: 0 <= i < j < |p| && j == i + 1 ==> p[j] in Out(m, p[i])
  }

  lemma WalkPart(m: Edges, p: Path, i: nat, j: nat)
    requires IsWalk(m, p) && i < j <= |p|
    ensures IsWalk(m, p[i..j])
  {
  }

  function Last(p: Path): Id
    requires p != []
  {
    p[|p| - 1]
  }

  ghost predicate Joins(m: Edges, p: Path, a: Id, b: Id) {
    IsWalk(m, p) && p[0] == a && Last(p) == b
  }

  // b is a or follows from a along edges.
  ghost predicate Reaches(m: Edges, a: Id, b: Id) {
    exists p :: Joins(m, p, a, b)
  }

  ghost predicate ReachedFrom(m: Edges, seeds: set<Id>, b: Id) {
    exists a :: a in seeds && Reaches(m, a, b)
  }

  // The same edges, in whatever order and multiplicity the lists keep them.
  ghost predicate SameEdges(m: Edges, n: Edges) {
    forall a: Id, b: Id {:trigger b in Out(m, a)} {:trigger b in Out(n, a)} :: b in Out(m, a) <==> b in Out(n, a)
  }

  lemma SameReach(m: Edges, n: Edges)
    requires SameEdges(m, n)
    ensures forall a: Id, b: Id {:trigger Reaches(m, a, b)} {:trigger Reaches(n, a, b)} ::
              Reaches(m, a, b) <==> Reaches(n, a, b)
  {
    forall a: Id, b: Id ensures Reaches(m, a, b) <==> Reaches(n, a, b) {
      if p :| Joins(m, p, a, b) {
        assert Joins(n, p, a, b);
      }
      if p :| Joins(n, p, a, b) {
        assert Joins(m, p, a, b);
      }
    }
  }

  // S is everything the seeds reach. (Triggered on reachability alone: the solver
  // should not go looking for a walk behind every member of S.)
  ghost predicate IsReach(m: Edges, seeds: set<Id>, S: set<Id>) {
    forall x: Id {:trigger ReachedFrom(m, seeds, x)} :: x in S <==> ReachedFrom(m, seeds, x)
  }

  ghost predicate ClosedUnder(m: Edges, S: set<Id>) {
    forall a: Id, b: Id :: a in S && b in Out(m, a) ==> b in S
  }

  lemma ReachesSelf(m: Edges, a: Id)
    ensures Reaches(m, a, a)
  {
    assert Joins(m, [a], a, a);
  }

  lemma ReachesStep(m: Edges, a: Id, b: Id, c: Id)
    requires Reaches(m, a, b) && c in Out(m, b)
    ensures Reaches(m, a, c)
  {
    var p :| Joins(m, p, a, b);
    assert Joins(m, p + [c], a, c);
  }

  lemma ReachesFirstStep(m: Edges, a: Id, b: Id, c: Id)
    requires b in Out(m, a) && Reaches(m, b, c)
    ensures Reaches(m, a, c)
  {
    var p :| Joins(m, p, b, c);
    assert Joins(m, [a] + p, a, c);
  }

  lemma ReachesTrans(m: Edges, a: Id, b: Id, c: Id)
    requires Reaches(m, a, b) && Reaches(m, b, c)
    ensures Reaches(m, a, c)
  {
    var p :| Joins(m, p, a, b);
    var q :| Joins(m, q, b, c);
    var w := p + q[1..];
    forall i | 0 <= i < |w| - 1
      ensures w[i + 1] in Out(m, w[i])
    {
      if i + 1 < |p| {
        assert w[i + 1] == p[i + 1];
      } else {
        assert w[i + 1] == q[i + 2 - |p|];
        assert w[i] == q[i + 1 - |p|];
      }
    }
    assert Joins(m, w, a, c);
  }

  lemma ReachesSplit(m: Edges, a: Id, c: Id)
    requires Reaches(m, a, c)
    ensures a == c || exists b :: b in Out(m, a) && Reaches(m, b, c)
  {
    var p :| Joins(m, p, a, c);
    if |p| > 1 {
      assert Joins(m, p[1..], p[1], c);
    }
  }

  // A set closed under the edges holds everything reachable from its members.
  lemma ClosedHoldsReachable(m: Edges, S: set<Id>, a: Id, b: Id)
    requires ClosedUnder(m, S) && a in S && Reaches(m, a, b)
    ensures b in S
  {
    var p :| Joins(m, p, a, b);
    ClosedHoldsWalk(m, S, p);
  }

  lemma {:induction false} ClosedHoldsWalk(m: Edges, S: set<Id>, p: Path)
    requires ClosedUnder(m, S) && IsWalk(m, p) && p[0] in S
    ensures forall x :: x in p ==> x in S
  {
    if |p| > 1 {
      assert p[1] in Out(m, p[0]);
      ClosedHoldsWalk(m, S, p[1..]);
      assert p == [p[0]] + p[1..];
    }
  }

  // What every work-list loop of the repository ends with: the visited set is
  // exactly what the seeds reach.
  lemma WorklistExact(m: Edges, seeds: set<Id>, seen: set<Id>)
    requires seeds <= seen && ClosedUnder(m, seen)
    requires forall x: Id {:trigger ReachedFrom(m, seeds, x)} :: x in seen ==> ReachedFrom(m, seeds, x)
    ensures IsReach(m, seeds, seen)
  {
    forall x | ReachedFrom(m, seeds, x)
      ensures x in seen
    {
      var a :| a in seeds && Reaches(m, a, x);
      ClosedHoldsReachable(m, seen, a, x);
    }
  }

  // The state of a work list: what is expanded, what is pending, and nothing unreachable.
  ghost predicate Pending(m: Edges, seeds: set<Id>, seen: set<Id>, todo: seq<Id>) {
    && (forall x: Id :: x in seeds ==> x in seen || x in todo)
    && (forall a: Id, b: Id :: a in seen && b in Out(m, a) ==> b in seen || b in todo)
    && (forall x: Id {:trigger ReachedFrom(m, seeds, x)} :: x in seen || x in todo ==> ReachedFrom(m, seeds, x))
  }

  lemma PendingStart(m: Edges, seeds: seq<Id>)
    ensures Pending(m, Elems(seeds), {}, seeds)
  {
    forall x: Id | x in seeds ensures ReachedFrom(m, Elems(seeds), x) { ReachesSelf(m, x); }
  }

  lemma ReachedStep(m: Edges, seeds: set<Id>, a: Id, b: Id)
    requires ReachedFrom(m, seeds, a) && b in Out(m, a)
    ensures ReachedFrom(m, seeds, b)
  {
    var s :| s in seeds && Reaches(m, s, a);
    ReachesStep(m, s, a, b);
  }

  // Taking id off the list: expand it, or drop it when it was expanded before.
  lemma PendingTake(m: Edges, seeds: set<Id>, seen: set<Id>, todo: seq<Id>, id: Id, rest: seq<Id>)
    requires Pending(m, seeds, seen, todo)
    requires forall x: Id :: x in todo <==> x in rest || x == id
    ensures id in seen ==> Pending(m, seeds, seen, rest)
    ensures Pending(m, seeds, seen + {id}, rest + Out(m, id))
    ensures id !in seen ==> |Universe(m, seeds) - (seen + {id})| < |Universe(m, seeds) - seen|
  {
    var next := rest + Out(m, id);
    assert ReachedFrom(m, seeds, id);
    forall x: Id {:trigger ReachedFrom(m, seeds, x)} | x in seen + {id} || x in next ensures ReachedFrom(m, seeds, x) {
      if x in Out(m, id) {
        ReachedStep(m, seeds, id, x);
      }
    }
    if id !in seen {
      ReachedInUniverse(m, seeds, id);
      assert Universe(m, seeds) - (seen + {id}) == (Universe(m, seeds) - seen) - {id};
    }
  }

  // Every reachable node is a seed or an edge target: the bound of the work lists.
  ghost function Universe(m: Edges, seeds: set<Id>): set<Id> {
    (set a, b | a in m && b in m[a] :: b) + seeds
  }

  lemma ReachedInUniverse(m: Edges, seeds: set<Id>, x: Id)
    requires ReachedFrom(m, seeds, x)
    ensures x in Universe(m, seeds)
  {
    var a :| a in seeds && Reaches(m, a, x);
    var p :| Joins(m, p, a, x);
    if |p| > 1 {
      assert p[|p| - 1] in Out(m, p[|p| - 2]);
    }
  }

  lemma PendingDone(m: Edges, seeds: set<Id>, seen: set<Id>)
    requires Pending(m, seeds, seen, [])
    ensures IsReach(m, seeds, seen)
  {
    WorklistExact(m, seeds, seen);
  }

  lemma PopLast(s: seq<Id>)
    requires s != []
    ensures s == s[..|s| - 1] + [s[|s| - 1]]
    ensures forall x: Id :: x in s <==> x in s[..|s| - 1] || x == s[|s| - 1]
  {
    assert s == s[..|s| - 1] + [s[|s| - 1]];
  }

  lemma PopFirst(s: seq<Id>)
    requires s != []
    ensures s == [s[0]] + s[1..]
    ensures forall x: Id :: x in s <==> x in s[1..] || x == s[0]
  {
    assert s == [s[0]] + s[1..];
  }

  // The last-in-first-out work list shared by deriveActive, revisionClosure and
  // revisionReachable: everything the seeds reach, each node expanded once.
  method Closure(m: Edges, seeds: seq<Id>) returns (seen: set<Id>)
    ensures IsReach(m, Elems(seeds), seen)
  {
    var stack := seeds;
    seen := {};
    ghost var from := Elems(seeds);
    PendingStart(m, seeds);
    while stack != []
      invariant Pending(m, from, seen, stack)
      decreases |Universe(m, from) - seen|, |stack|
    {
      var id := stack[|stack| - 1];
      PopLast(stack);
      PendingTake(m, from, seen, stack, id, stack[..|stack| - 1]);
      stack := stack[..|stack| - 1];
      if id !in seen {
        seen := seen + {id};
        stack := stack + Out(m, id);
      }
    }
    PendingDone(m, from, seen);
  }

  // ------------------------------------------------------------ acyclicity

  function RankOf(rank: map<Id, nat>, id: Id): nat {
    if id in rank then rank[id] else 0
  }

  // Every edge goes to a strictly smaller rank.
  ghost predicate Ranked(m: Edges, rank: map<Id, nat>) {
    forall a: Id, b: Id :: b in Out(m, a) ==> RankOf(rank, b) < RankOf(rank, a)
  }

  lemma {:induction false} WalkDescends(m: Edges, rank: map<Id, nat>, p: Path, i: nat, j: nat)
    requires Ranked(m, rank) && IsWalk(m, p) && i < j < |p|
    ensures RankOf(rank, p[j]) < RankOf(rank, p[i])
    decreases j
  {
    assert p[j - 1 + 1] in Out(m, p[j - 1]);
    if i < j - 1 {
      WalkDescends(m, rank, p, i, j - 1);
    }
  }

  lemma WalkSimple(m: Edges, rank: map<Id, nat>, p: Path)
    requires Ranked(m, rank) && IsWalk(m, p)
    ensures NoDup(p)
  {
    forall i, j | 0 <= i < j < |p|
      ensures p[i] != p[j]
    {
      WalkDescends(m, rank, p, i, j);
    }
  }

  // No walk out of S of one step or more comes back to where it began.
  ghost predicate Acyclic(S: set<Id>, m: Edges) {
    forall p :: IsWalk(m, p) && |p| >= 2 && p[0] in S ==> p[0] != Last(p)
  }

  ghost predicate RankedOn(S: set<Id>, m: Edges, rank: map<Id, nat>) {
    forall a: Id, b: Id :: a in S && b in Out(m, a) ==> b in S && RankOf(rank, b) < RankOf(rank, a)
  }

  lemma {:induction false} RankedWalkDescends(S: set<Id>, m: Edges, rank: map<Id, nat>, p: Path)
    requires RankedOn(S, m, rank) && IsWalk(m, p) && p[0] in S && |p| >= 2
    ensures RankOf(rank, Last(p)) < RankOf(rank, p[0])
  {
    assert p[0 + 1] in Out(m, p[0]);
    if |p| > 2 {
      RankedWalkDescends(S, m, rank, p[1..]);
    }
  }

  lemma RankedIsAcyclic(S: set<Id>, m: Edges, rank: map<Id, nat>)
    requires RankedOn(S, m, rank)
    ensures Acyclic(S, m)
  {
    forall p | IsWalk(m, p) && |p| >= 2 && p[0] in S
      ensures p[0] != Last(p)
    {
      RankedWalkDescends(S, m, rank, p);
    }
  }
}
