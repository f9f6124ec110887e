/** The observation around a Seal, within a visit budget (internal/repository/trace_direction_graph.go). */
module DirectionGraph {
  import opened Ids
  import opened Walks
  import opened DepthFirst
  import opened ObservedGraph
  import opened DirectionSearch

  datatype DirectionError = BadLimit | NotStored(at: Id) | NotAcyclic(why: GraphError) | CenterNotObserved

  // How often the Seals of S name another Seal.
  ghost function Entries(m: Edges, S: set<Id>): nat {
    if S == {} then 0 else var x :| x in S; |Out(m, x)| + Entries(m, S - {x})
  }

  lemma {:induction false} EntriesAdd(m: Edges, S: set<Id>, x: Id)
    requires x !in S
    ensures Entries(m, S + {x}) == Entries(m, S) + |Out(m, x)|
    decreases |S|
  {
    var more := S + {x};
    var y :| y in more && Entries(m, more) == |Out(m, y)| + Entries(m, more - {y});
    if y == x {
      assert more - {y} == S;
    } else {
      assert more - {y} == (S - {y}) + {x};
      EntriesAdd(m, S - {y}, x);
      EntriesAdd(m, S - {y}, y);
      assert (S - {y}) + {y} == S;
    }
  }

  // What newly met Seals name, in the order they are met.
  ghost function Named(m: Edges, met: seq<Id>): seq<Id> {
    if met == [] then []
    else
      var before, x := met[..|met| - 1], met[|met| - 1];
      Named(m, before) + if x in before then [] else Out(m, x)
  }

  lemma {:induction false} NamedSize(m: Edges, met: seq<Id>)
    ensures |Named(m, met)| == Entries(m, Elems(met))
  {
    if met != [] {
      var before, x := met[..|met| - 1], met[|met| - 1];
      NamedSize(m, before);
      assert Elems(met) == Elems(before) + {x};
      if x in before {
        assert Elems(met) == Elems(before);
      } else {
        EntriesAdd(m, Elems(before), x);
      }
    }
  }

  // First in, first out: the seeds, then whatever the Seals of the first n entries name;
  // each of these was queued before its turn came.
  ghost predicate InTurn(m: Edges, seeds: seq<Id>, entries: seq<Id>, n: nat) {
    && n <= |entries| && entries == seeds + Named(m, entries[..n])
    && forall k :: 0 <= k < n ==> k < |seeds| + |Named(m, entries[..k])|
  }

  // The last of n visits met a Seal that is not stored; all before were.
  ghost predicate Missed(m: Edges, seeds: seq<Id>, entries: seq<Id>, n: nat, max: nat, store: map<Id, Seal>, at: Id) {
    && 0 < n <= max && InTurn(m, seeds, entries, n - 1) && n <= |entries| && entries[n - 1] == at
    && at !in store && Elems(entries[..n - 1]) <= store.Keys
  }

  lemma TurnNext(m: Edges, seeds: seq<Id>, entries: seq<Id>, n: nat)
    requires InTurn(m, seeds, entries, n) && n < |entries|
    ensures var x := entries[n];
            InTurn(m, seeds, entries + if x in entries[..n] then [] else Out(m, x), n + 1)
  {
    var more := entries + if entries[n] in entries[..n] then [] else Out(m, entries[n]);
    assert more[..n + 1] == entries[..n] + [entries[n]];
    assert more[..n + 1][..n] == entries[..n];
    forall k | 0 <= k < n + 1 ensures k < |seeds| + |Named(m, more[..k])| {
      assert more[..k] == entries[..k];
    }
  }

  lemma {:induction false} NamedGrows(m: Edges, met: seq<Id>, k: nat)
    requires k <= |met|
    ensures Named(m, met[..k]) <= Named(m, met)
  {
    if k < |met| {
      NamedGrows(m, met[..|met| - 1], k);
      assert met[..|met| - 1][..k] == met[..k];
    } else {
      assert met[..k] == met;
    }
  }

  // So the seeds and the number of visits decide what is observed.
  lemma {:induction false} FirstTurns(m: Edges, seeds: seq<Id>, a: seq<Id>, b: seq<Id>, n: nat, k: nat)
    requires InTurn(m, seeds, a, n) && InTurn(m, seeds, b, n) && k <= n
    ensures a[..k] == b[..k]
    decreases k
  {
    if k > 0 {
      FirstTurns(m, seeds, a, b, n, k - 1);
      TurnOf(m, seeds, a, n, k - 1);
      TurnOf(m, seeds, b, n, k - 1);
      assert a[..k] == a[..k - 1] + [a[k - 1]] && b[..k] == b[..k - 1] + [b[k - 1]];
    }
  }

  lemma TurnOf(m: Edges, seeds: seq<Id>, entries: seq<Id>, n: nat, k: nat)
    requires InTurn(m, seeds, entries, n) && k < n
    ensures k < |seeds + Named(m, entries[..k])| && entries[k] == (seeds + Named(m, entries[..k]))[k]
  {
    NamedGrows(m, entries[..n], k);
    assert entries[..n][..k] == entries[..k];
  }

  // The entry whose turn it is.
  lemma TakeTurn(m: Edges, seeds: seq<Id>, entries: seq<Id>, n: nat, queue: seq<Id>, seen: set<Id>)
    requires InTurn(m, seeds, entries, n) && queue == entries[n..] && queue != [] && seen == Elems(entries[..n])
    ensures var x := queue[0]; var more := if x in seen then [] else Out(m, x);
            && InTurn(m, seeds, entries + more, n + 1)
            && queue[1..] + more == (entries + more)[n + 1..]
            && Elems((entries + more)[..n + 1]) == seen + {x} && entries[n] == x
  {
    TurnNext(m, seeds, entries, n);
    var x, more := queue[0], if queue[0] in seen then [] else Out(m, queue[0]);
    assert x == entries[n] && (x in seen <==> x in entries[..n]);
    assert (entries + more)[..n + 1] == entries[..n] + [x];
    assert queue[1..] == entries[n + 1..];
  }

  // What the closure keeps from one visit to the next.
  ghost predicate Closing(store: map<Id, Seal>, from: set<Id>, seeds: seq<Id>, nodes: map<Id, Seal>, entries: seq<Id>,
          queue: seq<Id>, used: nat) {
    && InTurn(Deps(store), seeds, entries, used) && queue == entries[used..] && nodes.Keys == Elems(entries[..used])
    && LoadedFrom(nodes, store) && Pending(Deps(store), from, nodes.Keys, queue)
  }

  lemma ClosingStart(store: map<Id, Seal>, from: set<Id>, seeds: seq<Id>)
    requires Pending(Deps(store), from, {}, seeds)
    ensures Closing(store, from, seeds, map[], seeds, seeds, 0)
  {
    assert seeds[..0] == [] && seeds[0..] == seeds && seeds + [] == seeds;
  }

  lemma ClosingNext(store: map<Id, Seal>, from: set<Id>, seeds: seq<Id>, nodes: map<Id, Seal>, entries: seq<Id>,
          queue: seq<Id>, used: nat)
    requires Closing(store, from, seeds, nodes, entries, queue, used) && queue != []
    ensures ReachedFrom(Deps(store), from, queue[0]) && used < |entries| && entries[used] == queue[0]
    ensures queue[0] in nodes ==> Closing(store, from, seeds, nodes, entries, queue[1..], used + 1)
    ensures queue[0] !in nodes && queue[0] in store ==>
              var id := queue[0]; var more := LinkDeps(store[id].links);
              Closing(store, from, seeds, nodes[id := store[id]], entries + more, queue[1..] + more, used + 1)
  {
    var id := queue[0];
    TakeTurn(Deps(store), seeds, entries, used, queue, nodes.Keys);
    PopFirst(queue);
    PendingTake(Deps(store), from, nodes.Keys, queue, id, queue[1..]);
    if id in nodes {
      assert nodes.Keys + {id} == nodes.Keys && entries + [] == entries && queue[1..] + [] == queue[1..];
    } else if id in store {
      DepsOf(store, id);
      LoadedNext(nodes, store, id, store[id]);
    }
  }

  // What the closure leaves: the Seals of the first visits, all of them unless the budget ran out.
  ghost predicate ClosedFor(store: map<Id, Seal>, from: set<Id>, seeds: seq<Id>, nodes: map<Id, Seal>, entries: seq<Id>,
          used: nat, max: nat, complete: bool) {
    && LoadedFrom(nodes, store) && (seeds != [] ==> seeds[0] in nodes)
    && InTurn(Deps(store), seeds, entries, used) && nodes.Keys == Elems(entries[..used])
    && (forall x: Id {:trigger ReachedFrom(Deps(store), from, x)} ::
          x in nodes ==> ReachedFrom(Deps(store), from, x))
    && (var cost := |seeds| + Entries(Deps(store), nodes.Keys);
        if complete then used == cost <= max else used == max < cost)
    && (complete ==> Pending(Deps(store), from, nodes.Keys, []))
  }

  lemma ClosingStops(store: map<Id, Seal>, from: set<Id>, seeds: seq<Id>, nodes: map<Id, Seal>, entries: seq<Id>,
          queue: seq<Id>, used: nat, max: nat)
    requires Closing(store, from, seeds, nodes, entries, queue, used) && 0 < used <= max && seeds != []
    requires queue == [] || used == max
    ensures ClosedFor(store, from, seeds, nodes, entries, used, max, queue == [])
  {
    NamedSize(Deps(store), entries[..used]);
    assert entries[..used][0] == seeds[0];
  }

  // One visit: the entry is absorbed unless it was before.
  method VisitEntry(g: Graph, seeds: seq<Id>, store: map<Id, Seal>, queue: seq<Id>, visits: Visits, max: nat,
          ghost from: set<Id>, ghost entries: seq<Id>)
      returns (stored: bool, more: seq<Id>, ghost entered: seq<Id>)
    requires g.Gathered() && Closing(store, from, seeds, g.nodes, entries, queue, visits.used) && queue != []
    requires visits.used < max
    modifies g`nodes, g`causes, g`revisions, g`children, g`assertions, visits
    ensures visits.used == old(visits.used) + 1
    ensures stored ==> g.Gathered() && Closing(store, from, seeds, g.nodes, entered, more, visits.used)
    ensures !stored ==> ReachedFrom(Deps(store), from, queue[0])
    ensures !stored ==> Missed(Deps(store), seeds, entries, visits.used, max, store, queue[0])
  {
    var id := queue[0];
    ClosingNext(store, from, seeds, g.nodes, entries, queue, visits.used);
    visits.used := visits.used + 1;
    if id in g.nodes {
      return true, queue[1..], entries;
    }
    if id !in store {
      return false, queue, entries;
    }
    var queued := g.Absorb(id, store[id]);
    stored, more, entered := true, queue[1..] + queued, entries + queued;
  }

  // directionClosure: the observed-graph work list, one visit charged per queue entry.
  method DirectionClosure(g: Graph, seeds: seq<Id>, store: map<Id, Seal>, max: nat, visits: Visits, ghost from: set<Id>)
      returns (r: Result<bool, DirectionError>, ghost entries: seq<Id>)
    requires g.Gathered() && g.nodes == map[] && visits.used == 0 && max > 0
    requires seeds != [] && Pending(Deps(store), from, {}, seeds)
    modifies g`nodes, g`causes, g`revisions, g`children, g`assertions, visits
    ensures r.Failure? ==> r.error.NotStored? && ReachedFrom(Deps(store), from, r.error.at)
    ensures r.Failure? ==> Missed(Deps(store), seeds, entries, visits.used, max, store, r.error.at)
    ensures r.Success? ==> g.Gathered()
    ensures r.Success? ==> ClosedFor(store, from, seeds, g.nodes, entries, visits.used, max, r.value)
  {
    var queue := seeds;
    entries := seeds;
    ClosingStart(store, from, seeds);
    while queue != []
      invariant g.Gathered() && Closing(store, from, seeds, g.nodes, entries, queue, visits.used) && visits.used <= max
      invariant visits.used == 0 ==> queue == seeds
      decreases max - visits.used
    {
      if visits.used >= max {
        ClosingStops(store, from, seeds, g.nodes, entries, queue, visits.used, max);
        return Success(false), entries;
      }
      var stored, more;
      ghost var entered;
      stored, more, entered := VisitEntry(g, seeds, store, queue, visits, max, from, entries);
      if !stored {
        return Failure(NotStored(queue[0])), entries;
      }
      queue, entries := more, entered;
    }
    ClosingStops(store, from, seeds, g.nodes, entries, queue, visits.used, max);
    r := Success(true);
  }

  datatype Direction = Direction(center: Id, closureComplete: bool, directionComplete: bool, usedVisits: nat,
                                 observed: set<Id>, extras: seq<Id>, upstream: seq<Member>, downstream: seq<Member>)

  // Exactly the Seals strictly related to the center.
  ghost predicate ReportsExactly(r: seq<Member>, causes: Edges, center: Id, reverse: bool) {
    forall x: Id {:trigger Reaches(causes, x, center)} {:trigger Reaches(causes, center, x)} ::
      (exists m :: m in r && m.seal == x)
      <==> x != center && if reverse then Reaches(causes, x, center) else Reaches(causes, center, x)
  }

  lemma CompleteIsExact(r: seq<Member>, causes: Edges, nodes: set<Id>, rank: map<Id, nat>, center: Id, reverse: bool)
    requires Reports(r, causes, nodes, center, reverse, true)
    requires Ranked(causes, rank) && EdgesWithin(causes, nodes)
    ensures ReportsExactly(r, causes, center, reverse)
  {
    forall x: Id
      ensures (exists m :: m in r && m.seal == x)
              <==> x != center && if reverse then Reaches(causes, x, center) else Reaches(causes, center, x)
    {
      RouteIffReaches(causes, nodes, rank, center, reverse, x);
      if m :| m in r && m.seal == x {
        var q := if m.direct then m.directPath else m.indirectPath;
        assert IsRoute(causes, nodes, center, reverse, x, q) && |q| >= 2;
      }
    }
  }

  // ------------------------------------------- the edges of the observed Seals

  function Targets(links: seq<CauseLink>): seq<Id> {
    seq(|links|, i requires 0 <= i < |links| => links[i].target)
  }

  // The Cause links of the observed Seals, as stored.
  function CausesIn(store: map<Id, Seal>, observed: set<Id>): Edges {
    map a | a in store && a in observed :: Targets(store[a].links)
  }

  lemma GatheredCauses(nodes: map<Id, Seal>, causes: Edges, store: map<Id, Seal>)
    requires Represents(causes, CausePairs(nodes)) && LoadedFrom(nodes, store)
    ensures SameEdges(causes, CausesIn(store, nodes.Keys))
  {
    var n := CausesIn(store, nodes.Keys);
    forall a: Id, b: Id ensures b in Out(causes, a) <==> b in Out(n, a) {
      assert b in Out(causes, a) <==> (a, b) in CausePairs(nodes);
      if a in nodes {
        var links := nodes[a].links;
        forall l | l in links ensures l.target in Targets(links) {
          var i :| 0 <= i < |links| && links[i] == l;
          assert Targets(links)[i] == l.target;
        }
      }
    }
  }

  // Routes depend on the edges only as a relation.
  lemma SameRoutes(m: Edges, n: Edges, nodes: set<Id>, center: Id, reverse: bool)
    requires SameEdges(m, n)
    ensures forall x: Id, q: Path {:trigger IsRoute(n, nodes, center, reverse, x, q)} ::
              IsRoute(m, nodes, center, reverse, x, q) <==> IsRoute(n, nodes, center, reverse, x, q)
  {
    forall x: Id, q: Path
      ensures IsRoute(m, nodes, center, reverse, x, q) <==> IsRoute(n, nodes, center, reverse, x, q)
    {
      assert IsWalk(m, q) <==> IsWalk(n, q);
    }
  }

  lemma SameReport(m: Edges, n: Edges, nodes: set<Id>, center: Id, reverse: bool, r: seq<Member>, complete: bool,
          found: set<Path>, before: nat, after: nat, max: nat)
    requires SameEdges(m, n) && Reports(r, m, nodes, center, reverse, complete)
    requires Spent(found, m, nodes, center, reverse, before, after, max)
    requires complete <==> before + 1 + |found| <= max
    ensures Reports(r, n, nodes, center, reverse, complete)
    ensures Spent(found, n, nodes, center, reverse, before, after, max)
  {
    SameRoutes(m, n, nodes, center, reverse);
    forall x | x in r ensures Genuine(x, n, nodes, center, reverse) {
      assert Genuine(x, m, nodes, center, reverse);
    }
    if complete {
      forall x | x in r ensures Final(x, n, nodes, center, reverse) {
        assert Final(x, m, nodes, center, reverse);
      }
      forall p: Path ensures p in found <==> RouteOf(n, nodes, center, reverse, p) {
        assert p in found <==> RouteOf(m, nodes, center, reverse, p);
      }
    }
    forall p | p in found ensures RouteOf(n, nodes, center, reverse, p) {
      assert RouteOf(m, nodes, center, reverse, p);
    }
    SameFound(m, n, nodes, center, reverse, found, after - before);
  }

  lemma SameFound(m: Edges, n: Edges, nodes: set<Id>, center: Id, reverse: bool, found: set<Path>, spent: nat)
    requires SameEdges(m, n) && FoundBy(found, m, nodes, center, reverse, spent)
    ensures FoundBy(found, n, nodes, center, reverse, spent)
  {
    SameRoutes(m, n, nodes, center, reverse);
    forall p: Path ensures RouteOf(m, nodes, center, reverse, p) <==> RouteOf(n, nodes, center, reverse, p) {}
    var visited :| FirstVisits(visited, m, nodes, center, reverse, spent)
      && forall p: Path {:trigger p in found} ::
           p in found <==> RouteOf(m, nodes, center, reverse, p) && Shorter(p, reverse) in visited;
    forall v: Path ensures Visit(m, nodes, center, reverse, v) <==> Visit(n, nodes, center, reverse, v) {}
    assert FirstVisits(visited, n, nodes, center, reverse, spent);
  }

  // ------------------------------------------------------- the extra center

  // directionClosureSet: what the seeds reach along Causes and revisions.
  method DirectionClosureSet(edges: Edges, seeds: seq<Id>) returns (seen: set<Id>)
    ensures IsReach(edges, Elems(seeds), seen)
  {
    var queue := seeds;
    seen := {};
    ghost var from := Elems(seeds);
    PendingStart(edges, seeds);
    while queue != []
      invariant Pending(edges, from, seen, queue)
      decreases |Universe(edges, from) - seen|, |queue|
    {
      var id := queue[0];
      PopFirst(queue);
      PendingTake(edges, from, seen, queue, id, queue[1..]);
      queue := queue[1..];
      if id !in seen {
        seen := seen + {id};
        queue := queue + Out(edges, id);
      }
    }
    PendingDone(edges, from, seen);
  }

  // What the heads' own Seals name is reached along the edges of the observed graph.
  lemma DepsAreEdges(nodes: map<Id, Seal>, store: map<Id, Seal>, causes: Edges, revisions: Edges, from: set<Id>,
          heads: set<Id>, seen: set<Id>)
    requires EdgesOf(nodes, causes, revisions) && LoadedFrom(nodes, store) && Supports(store, from, nodes.Keys)
    requires IsReach(Combined(causes, revisions), heads, seen)
    ensures ClosedUnder(Deps(store), seen * nodes.Keys)
  {
    var all := Combined(causes, revisions);
    forall a: Id, b: Id | a in seen * nodes.Keys && b in Out(Deps(store), a) ensures b in seen * nodes.Keys {
      LinkDepsMembers(store[a].links);
      var l :| l in store[a].links && (b == l.target || b in l.previous);
      assert (a, l.target) in CausePairs(nodes);
      CombinedOut(causes, revisions, a);
      assert ReachedFrom(all, heads, a);
      ReachedStep(all, heads, a, l.target);
      if b in l.previous {
        assert (l.target, b) in RevisionPairs(nodes);
        CombinedOut(causes, revisions, l.target);
        ReachedStep(all, heads, l.target, b);
      }
      assert ReachedFrom(all, heads, b);
    }
  }

  lemma DepsFall(store: map<Id, Seal>, from: set<Id>, S: set<Id>, rank: map<Id, nat>, a: Id, b: Id)
    requires Sound(store, from, S, rank) && a in S && Reaches(Deps(store), a, b)
    ensures RankOf(rank, b) <= RankOf(rank, a)
  {
    var deps := Deps(store);
    forall x: Id, y: Id | x in S && y in Out(deps, x) ensures y in S && RankOf(rank, y) < RankOf(rank, x) {
      LinkDepsMembers(store[x].links);
    }
    var p :| Joins(deps, p, a, b);
    if |p| >= 2 {
      RankedWalkDescends(S, deps, rank, p);
    }
  }

  lemma NamedIsDep(store: map<Id, Seal>, o: Id, l: CauseLink, x: Id)
    requires o in store && l in store[o].links && (x == l.target || x in l.previous)
    ensures x in Out(Deps(store), o)
  {
    LinkDepsMembers(store[o].links);
  }

  // A Seal above the center is there because of the heads.
  lemma HighIsHeads(store: map<Id, Seal>, S: set<Id>, heads: set<Id>, center: Id, rank: map<Id, nat>, o: Id)
    requires IsReach(Deps(store), heads + {center}, S) && Sound(store, heads + {center}, S, rank)
    requires o in S && RankOf(rank, center) < RankOf(rank, o)
    ensures ReachedFrom(Deps(store), heads, o)
  {
    assert ReachedFrom(Deps(store), heads + {center}, o);
    var s :| s in heads + {center} && Reaches(Deps(store), s, o);
    if s == center {
      DepsFall(store, heads + {center}, S, rank, center, o);
    }
  }

  // An edge that ends no lower than the center was asserted by a Seal the heads reach.
  lemma HighEdge(nodes: map<Id, Seal>, store: map<Id, Seal>, causes: Edges, revisions: Edges, heads: set<Id>,
          center: Id, rank: map<Id, nat>, a: Id, b: Id)
    requires EdgesOf(nodes, causes, revisions) && LoadedFrom(nodes, store)
    requires IsReach(Deps(store), heads + {center}, nodes.Keys) && Sound(store, heads + {center}, nodes.Keys, rank)
    requires b in Out(Combined(causes, revisions), a) && ReachedFrom(Deps(store), heads, a)
    requires RankOf(rank, center) <= RankOf(rank, b)
    ensures ReachedFrom(Deps(store), heads, b)
  {
    EdgeWitness(nodes, causes, revisions, a, b);
    if l :| a in nodes && l in nodes[a].links && l.target == b {
      NamedIsDep(store, a, l, b);
      ReachedStep(Deps(store), heads, a, b);
    } else {
      var o, l :| o in nodes && l in nodes[o].links && l.target == a && b in l.previous;
      HighIsHeads(store, nodes.Keys, heads, center, rank, o);
      NamedIsDep(store, o, l, b);
      ReachedStep(Deps(store), heads, o, b);
    }
  }

  // What the heads reach themselves they also reach along the gathered edges.
  lemma DepsAreSeen(nodes: map<Id, Seal>, store: map<Id, Seal>, causes: Edges, revisions: Edges, from: set<Id>,
          heads: set<Id>, seen: set<Id>, x: Id)
    requires EdgesOf(nodes, causes, revisions) && LoadedFrom(nodes, store) && Supports(store, from, nodes.Keys)
    requires heads <= from && IsReach(Combined(causes, revisions), heads, seen)
    requires ReachedFrom(Deps(store), heads, x)
    ensures x in seen
  {
    DepsAreEdges(nodes, store, causes, revisions, from, heads, seen);
    var h :| h in heads && Reaches(Deps(store), h, x);
    ReachesSelf(Combined(causes, revisions), h);
    assert ReachedFrom(Combined(causes, revisions), heads, h);
    ClosedHoldsReachable(Deps(store), seen * nodes.Keys, h, x);
  }

  // And the gathered edges lead from the heads to nothing else at the height of the center.
  lemma SeenAreDeps(nodes: map<Id, Seal>, store: map<Id, Seal>, causes: Edges, revisions: Edges, heads: set<Id>,
          center: Id, rank: map<Id, nat>)
    requires EdgesOf(nodes, causes, revisions) && LoadedFrom(nodes, store)
    requires IsReach(Deps(store), heads + {center}, nodes.Keys) && Sound(store, heads + {center}, nodes.Keys, rank)
    requires RankedOn(nodes.Keys, Combined(causes, revisions), rank)
    requires ReachedFrom(Combined(causes, revisions), heads, center)
    ensures ReachedFrom(Deps(store), heads, center)
  {
    var deps, all := Deps(store), Combined(causes, revisions);
    var low := set x | x in nodes && (ReachedFrom(deps, heads, x) || RankOf(rank, x) < RankOf(rank, center));
    var h :| h in heads && Reaches(all, h, center);
    ReachesSelf(deps, h);
    assert ReachedFrom(deps, heads, h);
    forall a: Id, b: Id | a in low && b in Out(all, a) ensures b in low {
      if RankOf(rank, center) <= RankOf(rank, b) {
        HighEdge(nodes, store, causes, revisions, heads, center, rank, a, b);
      }
    }
    ClosedHoldsReachable(all, low, h, center);
  }

  // In an acyclic observation the heads reach the center along the gathered edges exactly
  // when it belongs to their own closure: no assertion of the center's side helps.
  lemma ExtraExact(nodes: map<Id, Seal>, store: map<Id, Seal>, causes: Edges, revisions: Edges, heads: set<Id>,
          center: Id, rank: map<Id, nat>, seen: set<Id>)
    requires EdgesOf(nodes, causes, revisions) && LoadedFrom(nodes, store)
    requires IsReach(Deps(store), heads + {center}, nodes.Keys) && Sound(store, heads + {center}, nodes.Keys, rank)
    requires RankedOn(nodes.Keys, Combined(causes, revisions), rank)
    requires IsReach(Combined(causes, revisions), heads, seen)
    ensures center in seen <==> ReachedFrom(Deps(store), heads, center)
  {
    if ReachedFrom(Deps(store), heads, center) {
      DepsAreSeen(nodes, store, causes, revisions, heads + {center}, heads, seen, center);
    }
    if center in seen {
      assert ReachedFrom(Combined(causes, revisions), heads, center);
      SeenAreDeps(nodes, store, causes, revisions, heads, center, rank);
    }
  }

  // directionExtras: the center, unless the heads reach it anyway.
  method DirectionExtras(g: Graph, store: map<Id, Seal>, headIds: seq<Id>, center: Id) returns (r: seq<Id>)
    requires g.Gathered() && g.Closed(store, Elems(headIds) + {center})
    requires Sound(store, Elems(headIds) + {center}, g.nodes.Keys, g.rank)
    ensures r == if ReachedFrom(Deps(store), Elems(headIds), center) then [] else [center]
  {
    var seen := DirectionClosureSet(Combined(g.causes, g.revisions), headIds);
    LinksRankEdges(g.nodes, store, Elems(headIds) + {center}, g.causes, g.revisions, g.rank);
    ExtraExact(g.nodes, store, g.causes, g.revisions, Elems(headIds), center, g.rank, seen);
    r := if center in seen then [] else [center];
  }

  // ------------------------------------------------------- what is promised

  // What was observed is stored and belongs to the closure of the heads and the center.
  ghost predicate Observed(d: Direction, store: map<Id, Seal>, heads: set<Id>) {
    && d.center in d.observed && d.observed <= store.Keys
    && (forall x: Id {:trigger ReachedFrom(Deps(store), heads + {d.center}, x)} ::
          x in d.observed ==> ReachedFrom(Deps(store), heads + {d.center}, x))
    && (d.closureComplete ==>
         && IsReach(Deps(store), heads + {d.center}, d.observed)
         && GraphOk(store, heads + {d.center}))
    && d.extras == if d.closureComplete && !ReachedFrom(Deps(store), heads, d.center) then [d.center] else []
  }

  // The visits one closure charges: the seeds, and whatever the observed Seals name.
  ghost function ClosureCost(store: map<Id, Seal>, headCount: nat, observed: set<Id>): nat {
    1 + headCount + Entries(Deps(store), observed)
  }

  // The two searches fit into a budget.
  ghost predicate Fits(causes: Edges, nodes: set<Id>, center: Id, budget: int) {
    forall up: set<Path>, down: set<Path>
      {:trigger Routes(up, causes, nodes, center, false), Routes(down, causes, nodes, center, true)} ::
      Routes(up, causes, nodes, center, false) && Routes(down, causes, nodes, center, true)
      ==> 2 + |up| + |down| <= budget
  }

  // The two searches found these routes, one after the other, with what the closure left of the budget.
  ghost predicate Searched(d: Direction, causes: Edges, cost: nat, max: nat, middle: nat, up: set<Path>,
          down: set<Path>)
  {
    && Spent(up, causes, d.observed, d.center, false, if cost <= max then cost else max, middle, max)
    && Spent(down, causes, d.observed, d.center, true, middle, d.usedVisits, max)
    && Covers(d.upstream, up, false) && Covers(d.downstream, down, true)
    && (d.directionComplete <==> cost + 2 + |up| + |down| <= max)
    && (d.directionComplete ==> d.usedVisits == cost + 2 + |up| + |down|)
  }

  // The flags say exactly whether the work fitted into the budget, and what it cost.
  ghost predicate Budgeted(d: Direction, causes: Edges, cost: nat, max: nat) {
    && (exists middle, up, down :: Searched(d, causes, cost, max, middle, up, down))
    && (d.closureComplete <==> cost <= max)
    && (d.directionComplete <==> Fits(causes, d.observed, d.center, max - cost))
    && (!d.directionComplete ==> d.usedVisits == max)
    && d.usedVisits <= max
  }

  lemma BudgetExact(d: Direction, causes: Edges, cost: nat, max: nat, closed: nat, middle: nat, up: set<Path>,
          down: set<Path>)
    requires closed == if d.closureComplete then cost else max
    requires d.closureComplete <==> cost <= max
    requires d.directionComplete <==> d.closureComplete && closed + 1 + |up| <= max && middle + 1 + |down| <= max
    requires closed <= middle <= d.usedVisits <= max
    requires Spent(up, causes, d.observed, d.center, false, closed, middle, max)
    requires Spent(down, causes, d.observed, d.center, true, middle, d.usedVisits, max)
    requires Covers(d.upstream, up, false) && Covers(d.downstream, down, true)
    ensures Budgeted(d, causes, cost, max)
  {
    assert Searched(d, causes, cost, max, middle, up, down);
    assert Routes({}, causes, d.observed, d.center, true);
    if d.directionComplete {
      forall u: set<Path>, v: set<Path>
        | Routes(u, causes, d.observed, d.center, false) && Routes(v, causes, d.observed, d.center, true)
        ensures 2 + |u| + |v| <= max - cost
      {
        SubsetSize(u, up);
        SubsetSize(v, down);
      }
    }
  }

  // Both directions on what was observed, sharing what is left of the budget.
  method BothDirections(causes: Edges, nodes: set<Id>, center: Id, max: nat, visits: Visits, ghost stored: Edges)
      returns (upstream: seq<Member>, downstream: seq<Member>, upDone: bool, downDone: bool, ghost middle: nat,
          ghost up: set<Path>, ghost down: set<Path>)
    requires visits.used <= max && SortedEdges(causes) && SameEdges(causes, stored)
    modifies visits
    ensures old(visits.used) <= middle <= visits.used <= max
    ensures Spent(up, stored, nodes, center, false, old(visits.used), middle, max)
    ensures Spent(down, stored, nodes, center, true, middle, visits.used, max)
    ensures upDone <==> old(visits.used) + 1 + |up| <= max
    ensures downDone <==> middle + 1 + |down| <= max
    ensures Reports(upstream, stored, nodes, center, false, upDone) && Covers(upstream, up, false)
    ensures Reports(downstream, stored, nodes, center, true, downDone) && Covers(downstream, down, true)
  {
    ghost var before := visits.used;
    upstream, upDone, up := DirectionMembers(causes, nodes, center, false, max, visits);
    middle := visits.used;
    SameReport(causes, stored, nodes, center, false, upstream, upDone, up, before, middle, max);
    downstream, downDone, down := DirectionMembers(causes, nodes, center, true, max, visits);
    SameReport(causes, stored, nodes, center, true, downstream, downDone, down, middle, visits.used, max);
  }

  lemma CompleteCloses(g: Graph, store: map<Id, Seal>, from: set<Id>)
    requires LoadedFrom(g.nodes, store) && Pending(Deps(store), from, g.nodes.Keys, [])
    ensures g.Closed(store, from) && Supports(store, from, g.nodes.Keys)
  {
    PendingDone(Deps(store), from, g.nodes.Keys);
    ReachedSupports(g.nodes, store, from);
  }

  lemma CausesObserved(g: Graph, store: map<Id, Seal>, from: set<Id>)
    requires g.Gathered() && LoadedFrom(g.nodes, store) && Supports(store, from, g.nodes.Keys)
    ensures EdgesWithin(g.causes, g.nodes.Keys)
  {
    forall a: Id, b: Id | b in Out(g.causes, a) ensures a in g.nodes && b in g.nodes {
      assert (a, b) in CausePairs(g.nodes);
    }
  }

  // A complete closure is checked, and the center is compared with what the heads reach.
  method FinishClosure(g: Graph, headIds: seq<Id>, store: map<Id, Seal>, center: Id)
      returns (err: Option<GraphError>, extras: seq<Id>)
    requires g.Gathered() && LoadedFrom(g.nodes, store)
    requires Pending(Deps(store), Elems(headIds) + {center}, g.nodes.Keys, [])
    modifies g`causes, g`revisions, g`children, g`rank
    ensures g.Gathered() && SortedEdges(g.causes)
    ensures err.Some? ==> !GraphOk(store, Elems(headIds) + {center})
    ensures err.None? ==>
              && GraphOk(store, Elems(headIds) + {center})
              && IsReach(Deps(store), Elems(headIds) + {center}, g.nodes.Keys)
              && Ranked(g.causes, g.rank) && EdgesWithin(g.causes, g.nodes.Keys)
              && extras == if ReachedFrom(Deps(store), Elems(headIds), center) then [] else [center]
  {
    ghost var from := Elems(headIds) + {center};
    extras := [];
    CompleteCloses(g, store, from);
    err := g.Finish(store, from);
    if err.None? {
      CausesObserved(g, store, from);
      extras := DirectionExtras(g, store, headIds, center);
    }
  }

  // Why an observation is refused: the last visit met a Seal that is not stored, or what the
  // heads and the center reach is not acyclic.
  ghost predicate Refused(store: map<Id, Seal>, seeds: seq<Id>, max: nat, e: DirectionError) {
    && !GraphOk(store, Elems(seeds))
    && match e
       case NotStored(at) =>
         && ReachedFrom(Deps(store), Elems(seeds), at)
         && exists entries, n :: Missed(Deps(store), seeds, entries, n, max, store, at)
       case NotAcyclic(why) => true
       case _ => false
  }

  // The closure of the heads and the center, checked when it is complete.
  method ObserveDirection(g: Graph, headIds: seq<Id>, store: map<Id, Seal>, center: Id, max: nat, visits: Visits)
      returns (r: Result<bool, DirectionError>, extras: seq<Id>, ghost entries: seq<Id>)
    requires g.Gathered() && g.nodes == map[] && visits.used == 0 && max > 0
    modifies g, visits
    ensures r.Failure? ==> Refused(store, [center] + headIds, max, r.error)
    ensures r.Success? ==>
              && SortedEdges(g.causes) && SameEdges(g.causes, CausesIn(store, g.nodes.Keys))
              && (var cost := ClosureCost(store, |headIds|, g.nodes.Keys);
                  if r.value then visits.used == cost <= max else visits.used == max < cost)
              && Observed(Direction(center, r.value, false, 0, g.nodes.Keys, extras, [], []), store, Elems(headIds))
    ensures r.Success? && r.value ==> Ranked(g.causes, g.rank) && EdgesWithin(g.causes, g.nodes.Keys)
    ensures r.Success? ==>
              && InTurn(Deps(store), [center] + headIds, entries, visits.used)
              && g.nodes.Keys == Elems(entries[..visits.used])
  {
    extras := [];
    var queue := [center] + headIds;
    PendingStart(Deps(store), queue);
    assert Elems(queue) == Elems(headIds) + {center};
    var closed;
    closed, entries := DirectionClosure(g, queue, store, max, visits, Elems(queue));
    if closed.Failure? {
      NotLoadedRefutes(store, Elems(queue), closed.error.at);
      return Failure(closed.error), [], entries;
    }
    g.Normalize();
    if closed.value {
      var cycle;
      cycle, extras := FinishClosure(g, headIds, store, center);
      if cycle.Some? {
        return Failure(NotAcyclic(cycle.value)), [], entries;
      }
    }
    GatheredCauses(g.nodes, g.causes, store);
    r := Success(closed.value);
  }

  // What both directions report, and at what cost.
  ghost predicate Traced(d: Direction, store: map<Id, Seal>, headCount: nat, max: nat) {
    var causes := CausesIn(store, d.observed);
    && Budgeted(d, causes, ClosureCost(store, headCount, d.observed), max)
    && Reports(d.upstream, causes, d.observed, d.center, false, d.directionComplete)
    && Reports(d.downstream, causes, d.observed, d.center, true, d.directionComplete)
    && (d.directionComplete ==> ReportsExactly(d.upstream, causes, d.center, false))
    && (d.directionComplete ==> ReportsExactly(d.downstream, causes, d.center, true))
  }

  // The two searches on what was observed.
  method TraceObserved(g: Graph, store: map<Id, Seal>, headCount: nat, center: Id, closed: bool, extras: seq<Id>,
          max: nat, visits: Visits)
      returns (d: Direction)
    requires SortedEdges(g.causes) && SameEdges(g.causes, CausesIn(store, g.nodes.Keys))
    requires var cost := ClosureCost(store, headCount, g.nodes.Keys);
             if closed then visits.used == cost <= max else visits.used == max < cost
    requires closed ==> Ranked(g.causes, g.rank) && EdgesWithin(g.causes, g.nodes.Keys)
    modifies visits
    ensures d.center == center && d.closureComplete == closed && d.observed == g.nodes.Keys && d.extras == extras
    ensures Traced(d, store, headCount, max)
  {
    ghost var causes, spent := CausesIn(store, g.nodes.Keys), visits.used;
    var upstream, downstream, upDone, downDone;
    ghost var middle, up, down;
    upstream, downstream, upDone, downDone, middle, up, down :=
      BothDirections(g.causes, g.nodes.Keys, center, max, visits, causes);
    var complete := closed && upDone && downDone;
    d := Direction(center, closed, complete, visits.used, g.nodes.Keys, extras, upstream, downstream);
    BudgetExact(d, causes, ClosureCost(store, headCount, d.observed), max, spent, middle, up, down);
    if complete {
      CompleteIsExact(upstream, causes, g.nodes.Keys, g.rank, center, false);
      CompleteIsExact(downstream, causes, g.nodes.Keys, g.rank, center, true);
    }
  }

  // The queue of an observation: the center, the heads in order, and what is met on the way.
  ghost predicate Seeded(seeds: seq<Id>, heads: map<Ref, Id>, center: Id) {
    seeds != [] && seeds[0] == center && Rising(seeds[1..]) && EachHead(multiset(seeds[1..]), heads, heads.Keys)
  }

  // What is observed: the Seals of the first visits, as many as the budget allows.
  ghost predicate Gathering(d: Direction, store: map<Id, Seal>, heads: map<Ref, Id>, max: nat) {
    var cost := ClosureCost(store, |heads|, d.observed);
    var n := if cost <= max then cost else max;
    exists seeds, entries :: Seeded(seeds, heads, d.center) && InTurn(Deps(store), seeds, entries, n)
                             && d.observed == Elems(entries[..n])
  }

  ghost predicate RefusedFor(store: map<Id, Seal>, heads: map<Ref, Id>, center: Id, max: nat, e: DirectionError) {
    exists seeds :: Seeded(seeds, heads, center) && Refused(store, seeds, max, e)
  }

  lemma ObservedInTurn(o: Direction, d: Direction, store: map<Id, Seal>, heads: map<Ref, Id>, max: nat, seeds: seq<Id>,
          entries: seq<Id>, n: nat)
    requires Seeded(seeds, heads, d.center) && InTurn(Deps(store), seeds, entries, n)
    requires d.observed == Elems(entries[..n])
    requires var cost := ClosureCost(store, |heads|, d.observed); n == if cost <= max then cost else max
    requires Observed(o, store, heads.Values) && o.center == d.center && o.observed == d.observed
    requires o.closureComplete == d.closureComplete && o.extras == d.extras
    ensures Gathering(d, store, heads, max) && Observed(d, store, heads.Values)
  {
  }

  // directionHeadIDs: the heads of all REFs, in order.
  method DirectionHeads(heads: map<Ref, Id>, ghost center: Id) returns (ids: seq<Id>)
    ensures Elems(ids) == heads.Values && |ids| == |heads| && Seeded([center] + ids, heads, center)
    ensures Elems([center] + ids) == heads.Values + {center}
  {
    var unsorted := HeadList(heads);
    ids := SortIds(unsorted);
    SortIdsMembers(unsorted);
    SortIdsSorts(unsorted);
    assert ([center] + ids)[1..] == ids;
  }

  // What a successful observation tells.
  ghost predicate Answers(d: Direction, store: map<Id, Seal>, heads: map<Ref, Id>, center: Id, max: nat) {
    && d.center == center && Observed(d, store, heads.Values)
    && Gathering(d, store, heads, max) && Traced(d, store, |heads|, max)
  }

  method TraceHeads(g: Graph, headIds: seq<Id>, store: map<Id, Seal>, ghost heads: map<Ref, Id>, center: Id, max: nat,
          visits: Visits)
      returns (r: Result<Direction, DirectionError>)
    requires g.Gathered() && g.nodes == map[] && visits.used == 0 && max > 0
    requires Elems(headIds) == heads.Values && |headIds| == |heads| && Seeded([center] + headIds, heads, center)
    modifies g, visits
    ensures r.Failure? ==> Refused(store, [center] + headIds, max, r.error)
    ensures r.Success? ==> Answers(r.value, store, heads, center, max)
  {
    var closed, extras;
    ghost var entries;
    closed, extras, entries := ObserveDirection(g, headIds, store, center, max, visits);
    if closed.Failure? {
      return Failure(closed.error);
    }
    if center !in g.nodes {
      return Failure(CenterNotObserved);
    }
    ghost var n, o := visits.used, Direction(center, closed.value, false, 0, g.nodes.Keys, extras, [], []);
    var d := TraceObserved(g, store, |headIds|, center, closed.value, extras, max, visits);
    ObservedInTurn(o, d, store, heads, max, [center] + headIds, entries, n);
    r := Success(d);
  }

  // TraceDirectionGraph on a captured set of heads.
  method TraceDirectionGraph(store: map<Id, Seal>, heads: map<Ref, Id>, center: Id, maxVisits: int)
      returns (r: Result<Direction, DirectionError>)
    ensures maxVisits <= 0 <==> r == Failure(BadLimit)
    ensures r.Failure? && maxVisits > 0 ==> RefusedFor(store, heads, center, maxVisits, r.error)
    ensures maxVisits > 0 && GraphOk(store, heads.Values + {center}) ==> r.Success?
    ensures r.Success? ==> Answers(r.value, store, heads, center, maxVisits)
  {
    if maxVisits <= 0 {
      return Failure(BadLimit);
    }
    var g := new Graph(heads);
    var visits := new Visits();
    var headIds := DirectionHeads(heads, center);
    r := TraceHeads(g, headIds, store, heads, center, maxVisits, visits);
  }
}
