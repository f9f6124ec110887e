/** The graph observed from the REF heads (internal/repository/observation_v5.go). */
module ObservedGraph {
  import opened Ids
  import opened Walks
  import opened DepthFirst

  type Ref = string

  datatype CauseLink = CauseLink(target: Id, previous: seq<Id>, messages: seq<string>)

  // What LoadSeal resolves an identifier to, as far as the graph reads it.
  datatype Seal = Seal(content: Id, attachments: seq<Attachment>, root: bool, draft: bool, links: seq<CauseLink>)

  datatype AssertionSource = AssertionSource(observer: Id, link: CauseLink)

  datatype BuildError = NotLoaded(at: Id) | Invalid(why: GraphError)

  // ---------------------------------------------- what the loops gather

  // The identifiers a Seal names, in the order they are queued.
  function LinkDeps(links: seq<CauseLink>): seq<Id> {
    if links == [] then []
    else LinkDeps(links[..|links| - 1]) + [links[|links| - 1].target] + links[|links| - 1].previous
  }

  lemma {:induction false} LinkDepsMembers(links: seq<CauseLink>)
    ensures forall x: Id :: x in LinkDeps(links) <==> exists l :: l in links && (x == l.target || x in l.previous)
  {
    if links != [] {
      LinkDepsMembers(links[..|links| - 1]);
      assert forall l :: l in links <==> l in links[..|links| - 1] || l == links[|links| - 1];
    }
  }

  function Deps(env: map<Id, Seal>): Edges {
    map id | id in env :: LinkDeps(env[id].links)
  }

  lemma DepsOf(env: map<Id, Seal>, id: Id)
    ensures Out(Deps(env), id) == if id in env then LinkDeps(env[id].links) else []
  {
  }

  ghost predicate LoadedFrom(nodes: map<Id, Seal>, env: map<Id, Seal>) {
    forall x :: x in nodes ==> x in env && nodes[x] == env[x]
  }

  lemma LoadedNext(nodes: map<Id, Seal>, env: map<Id, Seal>, id: Id, seal: Seal)
    requires LoadedFrom(nodes, env) && id in env && env[id] == seal
    ensures LoadedFrom(nodes[id := seal], env) && nodes[id := seal].Keys == nodes.Keys + {id}
  {
  }

  ghost function CausePairs(nodes: map<Id, Seal>): set<(Id, Id)> {
    set o, l | o in nodes && l in nodes[o].links :: (o, l.target)
  }

  // (target, previous), as asserted by any observed Seal.
  ghost function RevisionPairs(nodes: map<Id, Seal>): set<(Id, Id)> {
    set o, l, p | o in nodes && l in nodes[o].links && p in l.previous :: (l.target, p)
  }

  ghost function Swap(rel: set<(Id, Id)>): set<(Id, Id)> {
    set e | e in rel :: (e.1, e.0)
  }

  ghost function AssertionSet(nodes: map<Id, Seal>): set<AssertionSource> {
    set o, l | o in nodes && l in nodes[o].links :: AssertionSource(o, l)
  }

  function About(m: map<Id, seq<AssertionSource>>, t: Id): seq<AssertionSource> {
    if t in m then m[t] else []
  }

  ghost predicate HoldsAssertions(m: map<Id, seq<AssertionSource>>, all: set<AssertionSource>) {
    forall t: Id, a :: a in About(m, t) <==> a in all && a.link.target == t
  }

  lemma AddAssertionHolds(m: map<Id, seq<AssertionSource>>, all: set<AssertionSource>, a: AssertionSource)
    requires HoldsAssertions(m, all)
    ensures HoldsAssertions(m[a.link.target := About(m, a.link.target) + [a]], all + {a})
  {
    var m' := m[a.link.target := About(m, a.link.target) + [a]];
    forall t: Id, b ensures b in About(m', t) <==> b in all + {a} && b.link.target == t {
      assert b in About(m, t) <==> b in all && b.link.target == t;
      if t != a.link.target {
        assert About(m', t) == About(m, t);
      }
    }
  }

  function SortEdges(m: Edges): Edges {
    map x | x in m :: SortIds(m[x])
  }

  ghost predicate SortedEdges(m: Edges) {
    forall x: Id :: Increasing(Out(m, x))
  }

  lemma SortEdgesSame(m: Edges, rel: set<(Id, Id)>)
    requires Represents(m, rel)
    ensures Represents(SortEdges(m), rel) && SortedEdges(SortEdges(m))
  {
    forall x: Id
      ensures Increasing(Out(SortEdges(m), x))
      ensures forall y: Id :: y in Out(SortEdges(m), x) <==> y in Out(m, x)
    {
      assert NoDup(Out(m, x));
      SortIdsIncreasing(Out(m, x));
    }
  }

  // Cause edges first, then revision edges: the order the depth-first check follows them.
  function Combined(causes: Edges, revisions: Edges): Edges {
    map x | x in causes.Keys + revisions.Keys :: Out(causes, x) + Out(revisions, x)
  }

  // ------------------------------------------------ which heads are fine

  // S holds the heads and, with every Seal, everything that Seal names; all of S loads.
  ghost predicate Supports(env: map<Id, Seal>, heads: set<Id>, S: set<Id>) {
    && heads <= S && S <= env.Keys
    && forall o, l :: o in S && l in env[o].links ==> l.target in S && forall p: Id :: p in l.previous ==> p in S
  }

  // Causes lie below their observer; revisions lie below the Seal they are asserted of.
  ghost predicate RanksLinks(env: map<Id, Seal>, S: set<Id>, rank: map<Id, nat>) {
    forall o, l :: o in S && o in env && l in env[o].links ==>
      && RankOf(rank, l.target) < RankOf(rank, o)
      && forall p: Id :: p in l.previous ==> RankOf(rank, p) < RankOf(rank, l.target)
  }

  ghost predicate Sound(env: map<Id, Seal>, heads: set<Id>, S: set<Id>, rank: map<Id, nat>) {
    Supports(env, heads, S) && RanksLinks(env, S, rank)
  }

  // The heads have a stored, acyclic closure.
  ghost predicate GraphOk(env: map<Id, Seal>, heads: set<Id>) {
    exists S, rank :: Sound(env, heads, S, rank)
  }

  lemma SupportIsClosed(env: map<Id, Seal>, heads: set<Id>, S: set<Id>)
    requires Supports(env, heads, S)
    ensures ClosedUnder(Deps(env), S)
  {
    forall a: Id, b: Id | a in S && b in Out(Deps(env), a) ensures b in S {
      LinkDepsMembers(env[a].links);
    }
  }

  // The least support: everything any supporting set must hold.
  lemma ReachedIsLeast(env: map<Id, Seal>, heads: set<Id>, S: set<Id>, x: Id)
    requires Supports(env, heads, S) && ReachedFrom(Deps(env), heads, x)
    ensures x in S && x in env
  {
    SupportIsClosed(env, heads, S);
    var a :| a in heads && Reaches(Deps(env), a, x);
    ClosedHoldsReachable(Deps(env), S, a, x);
  }

  // ---------------------------------------------------------- the object

  class Graph {
    var nodes: map<Id, Seal>
    var heads: map<Ref, Id>
    var causes: Edges
    var revisions: Edges
    var children: Edges
    var assertions: map<Id, seq<AssertionSource>>
    var active: set<Id>
    var stalePaths: map<Id, seq<Path>>
    ghost var rank: map<Id, nat>

    constructor (heads: map<Ref, Id>)
      ensures this.heads == heads && stalePaths == map[] && active == {}
      ensures nodes == map[] && Gathered()
    {
      this.heads := heads;
      nodes, causes, revisions, children := map[], map[], map[], map[];
      assertions, active, stalePaths, rank := map[], {}, map[], map[];
    }

    // The maps say exactly what the loaded nodes assert.
    ghost predicate Gathered()
      reads this`nodes, this`causes, this`revisions, this`children, this`assertions
    {
      && Represents(causes, CausePairs(nodes))
      && Represents(revisions, RevisionPairs(nodes))
      && Represents(children, Swap(RevisionPairs(nodes)))
      && HoldsAssertions(assertions, AssertionSet(nodes))
    }

    // One previous revision asserted of target.
    method AddPrevious(target: Id, previous: Id, ghost rel: set<(Id, Id)>)
      requires Represents(revisions, rel) && Represents(children, Swap(rel))
      modifies this`revisions, this`children
      ensures Represents(revisions, rel + {(target, previous)})
      ensures Represents(children, Swap(rel + {(target, previous)}))
    {
      AddEdgeRepresents(revisions, rel, target, previous);
      AddEdgeRepresents(children, Swap(rel), previous, target);
      assert Swap(rel + {(target, previous)}) == Swap(rel) + {(previous, target)};
      revisions := AddEdge(revisions, target, previous);
      children := AddEdge(children, previous, target);
    }

    // The previous revisions one link asserts of its target.
    method AddPreviousAll(target: Id, previous: seq<Id>, ghost rel: set<(Id, Id)>)
      requires Represents(revisions, rel) && Represents(children, Swap(rel))
      modifies this`revisions, this`children
      ensures Represents(revisions, rel + PairsTo(target, previous))
      ensures Represents(children, Swap(rel + PairsTo(target, previous)))
    {
      ghost var now := rel;
      for k := 0 to |previous|
        invariant now == rel + PairsTo(target, previous[..k])
        invariant Represents(revisions, now) && Represents(children, Swap(now))
      {
        AddPrevious(target, previous[k], now);
        PairsToNext(target, previous, k);
        now := now + {(target, previous[k])};
      }
      assert previous[..|previous|] == previous;
    }

    // One Cause link of observer id; returns what it queues.
    method AddLink(id: Id, link: CauseLink, ghost cs: set<(Id, Id)>, ghost rs: set<(Id, Id)>,
            ghost all: set<AssertionSource>)
        returns (queued: seq<Id>)
      requires Represents(causes, cs) && HoldsAssertions(assertions, all)
      requires Represents(revisions, rs) && Represents(children, Swap(rs))
      modifies this`causes, this`revisions, this`children, this`assertions
      ensures queued == [link.target] + link.previous
      ensures Represents(causes, cs + {(id, link.target)})
      ensures Represents(revisions, rs + PairsTo(link.target, link.previous))
      ensures Represents(children, Swap(rs + PairsTo(link.target, link.previous)))
      ensures HoldsAssertions(assertions, all + {AssertionSource(id, link)})
    {
      AddEdgeRepresents(causes, cs, id, link.target);
      AddAssertionHolds(assertions, all, AssertionSource(id, link));
      causes := AddEdge(causes, id, link.target);
      assertions := assertions[link.target := About(assertions, link.target) + [AssertionSource(id, link)]];
      AddPreviousAll(link.target, link.previous, rs);
      queued := [link.target] + link.previous;
    }

    // Everything one loaded Seal contributes.
    method Absorb(id: Id, seal: Seal) returns (queued: seq<Id>)
      requires Gathered() && id !in nodes
      modifies this`nodes, this`causes, this`revisions, this`children, this`assertions
      ensures Gathered() && nodes == old(nodes)[id := seal]
      ensures queued == LinkDeps(seal.links)
    {
      ghost var cs, rs, all := CausePairs(nodes), RevisionPairs(nodes), AssertionSet(nodes);
      queued := [];
      PartsNone(id);
      assert cs + {} == cs && rs + {} == rs && all + {} == all;
      for k := 0 to |seal.links|
        invariant queued == LinkDeps(seal.links[..k])
        invariant nodes == old(nodes)
        invariant Represents(causes, cs + CauseParts(id, seal.links[..k]))
        invariant Represents(revisions, rs + RevisionParts(seal.links[..k]))
        invariant Represents(children, Swap(rs + RevisionParts(seal.links[..k])))
        invariant HoldsAssertions(assertions, all + AssertionParts(id, seal.links[..k]))
      {
        ghost var cs', rs' := cs + CauseParts(id, seal.links[..k]), rs + RevisionParts(seal.links[..k]);
        ghost var all' := all + AssertionParts(id, seal.links[..k]);
        var more := AddLink(id, seal.links[k], cs', rs', all');
        PartsNext(id, seal.links, k);
        LinkDepsNext(seal.links, k);
        Regroup(cs, CauseParts(id, seal.links[..k]), {(id, seal.links[k].target)});
        Regroup(rs, RevisionParts(seal.links[..k]), PairsTo(seal.links[k].target, seal.links[k].previous));
        Regroup(all, AssertionParts(id, seal.links[..k]), {AssertionSource(id, seal.links[k])});
        queued := queued + more;
      }
      assert seal.links[..|seal.links|] == seal.links;
      PartsAll(nodes, id, seal);
      nodes := nodes[id := seal];
    }

    // Resolve one Seal, the overrides first, and absorb it.
    method LoadOne(id: Id, store: map<Id, Seal>, overrides: map<Id, Seal>) returns (queued: seq<Id>)
      requires Gathered() && id !in nodes && id in store + overrides && LoadedFrom(nodes, store + overrides)
      modifies this`nodes, this`causes, this`revisions, this`children, this`assertions
      ensures Gathered() && nodes.Keys == old(nodes.Keys) + {id} && LoadedFrom(nodes, store + overrides)
      ensures queued == Out(Deps(store + overrides), id)
    {
      var resolved := if id in overrides then overrides[id] else store[id];
      DepsOf(store + overrides, id);
      LoadedNext(nodes, store + overrides, id, resolved);
      queued := Absorb(id, resolved);
    }

    // The work list: loads everything the queue reaches, or stops at what does not load.
    method Drain(seeds: seq<Id>, store: map<Id, Seal>, overrides: map<Id, Seal>, ghost env: map<Id, Seal>,
            ghost m: Edges, ghost from: set<Id>)
        returns (err: Option<BuildError>)
      requires env == store + overrides && m == Deps(env)
      requires Gathered() && LoadedFrom(nodes, env) && Pending(m, from, nodes.Keys, seeds)
      modifies this`nodes, this`causes, this`revisions, this`children, this`assertions
      ensures err.None? ==> Gathered() && LoadedFrom(nodes, env) && Pending(m, from, nodes.Keys, [])
      ensures err.Some? ==> err.value.NotLoaded? && err.value.at !in env && ReachedFrom(m, from, err.value.at)
    {
      var queue := seeds;
      while queue != []
        invariant Gathered() && LoadedFrom(nodes, env)
        invariant Pending(m, from, nodes.Keys, queue)
        decreases |Universe(m, from) - nodes.Keys|, |queue|
      {
        var id := queue[0];
        PopFirst(queue);
        PendingTake(m, from, nodes.Keys, queue, id, queue[1..]);
        queue := queue[1..];
        if id !in nodes {
          if id !in overrides && id !in store {
            return Some(NotLoaded(id));
          }
          var queued := LoadOne(id, store, overrides);
          queue := queue + queued;
        }
      }
      err := None;
    }

    // Starts the work list at the heads.
    method LoadClosure(store: map<Id, Seal>, overrides: map<Id, Seal>, ghost env: map<Id, Seal>, ghost from: set<Id>)
        returns (err: Option<BuildError>)
      requires env == store + overrides && from == heads.Values
      requires Gathered() && nodes == map[]
      modifies this`nodes, this`causes, this`revisions, this`children, this`assertions
      ensures err.None? ==> Gathered() && Closed(env, from) && Supports(env, from, nodes.Keys)
      ensures err.Some? ==> err.value.NotLoaded? && err.value.at !in env && ReachedFrom(Deps(env), from, err.value.at)
      ensures err.Some? ==> !GraphOk(env, from)
    {
      var queue := HeadList(heads);
      PendingStart(Deps(env), queue);
      err := Drain(queue, store, overrides, env, Deps(env), from);
      if err.None? {
        PendingDone(Deps(env), from, nodes.Keys);
        ReachedSupports(nodes, env, from);
      } else {
        NotLoadedRefutes(env, from, err.value.at);
      }
    }

    // nodes is exactly what the heads reach, each as it loads.
    ghost predicate Closed(env: map<Id, Seal>, from: set<Id>)
      reads this`nodes
    {
      && IsReach(Deps(env), from, nodes.Keys)
      && LoadedFrom(nodes, env)
    }

    method Normalize()
      requires Gathered()
      modifies this`causes, this`revisions, this`children
      ensures Gathered() && SortedEdges(causes) && SortedEdges(revisions) && SortedEdges(children)
    {
      SortEdgesSame(causes, CausePairs(nodes));
      SortEdgesSame(revisions, RevisionPairs(nodes));
      SortEdgesSame(children, Swap(RevisionPairs(nodes)));
      causes := SortEdges(causes);
      revisions := SortEdges(revisions);
      children := SortEdges(children);
    }

    method ValidateAcyclic() returns (err: Option<GraphError>)
      modifies this`rank
      ensures err.None? <==>
                && ClosedUnder(Combined(causes, revisions), nodes.Keys)
                && Acyclic(nodes.Keys, Combined(causes, revisions))
      ensures err.None? ==> RankedOn(nodes.Keys, Combined(causes, revisions), rank)
      ensures err.Some? ==> Witnesses(nodes.Keys, Combined(causes, revisions), err.value)
    {
      var search := new ColourSearch(nodes.Keys, Combined(causes, revisions));
      err := search.Check();
      rank := search.rank;
    }

    method DeriveActive()
      modifies this`active
      ensures IsReach(revisions, heads.Values, active)
    {
      var stack := HeadList(heads);
      active := Closure(revisions, stack);
    }

    // What every reader of a built graph relies on.
    ghost predicate Valid()
      reads this
    {
      && Gathered()
      && SortedEdges(causes) && SortedEdges(revisions) && SortedEdges(children)
      && Ranked(causes, rank) && Ranked(revisions, rank)
      && IsReach(revisions, heads.Values, active)
    }

    // Order and check what was loaded.
    method Finish(ghost env: map<Id, Seal>, ghost from: set<Id>) returns (err: Option<GraphError>)
      requires Gathered() && Closed(env, from) && Supports(env, from, nodes.Keys)
      modifies this`causes, this`revisions, this`children, this`rank
      ensures Gathered() && SortedEdges(causes) && SortedEdges(revisions) && SortedEdges(children)
      ensures err.None? <==> GraphOk(env, from)
      ensures err.None? ==> Sound(env, from, nodes.Keys, rank) && Ranked(causes, rank) && Ranked(revisions, rank)
      ensures err.Some? ==> Witnesses(nodes.Keys, Combined(causes, revisions), err.value)
    {
      Normalize();
      err := ValidateAcyclic();
      if err.Some? {
        if GraphOk(env, from) {
          OkMeansAcyclic(nodes, env, from, causes, revisions);
        }
      } else {
        RankMeansRank(nodes, env, from, causes, revisions, rank);
      }
    }

    // The error names a reachable Seal that does not load, or what is wrong with the loaded graph.
    ghost predicate Explains(env: map<Id, Seal>, e: BuildError)
      reads this
    {
      match e
      case NotLoaded(at) => at !in env && ReachedFrom(Deps(env), heads.Values, at)
      case Invalid(why) =>
        && Gathered() && Closed(env, heads.Values)
        && Witnesses(nodes.Keys, Combined(causes, revisions), why)
    }

    // buildObservedGraph. It succeeds exactly on heads whose closure is stored and acyclic.
    method Build(store: map<Id, Seal>, overrides: map<Id, Seal>, ghost env: map<Id, Seal>)
        returns (err: Option<BuildError>)
      requires Gathered() && nodes == map[] && env == store + overrides
      modifies this`nodes, this`causes, this`revisions, this`children, this`assertions, this`active, this`rank
      ensures err.None? <==> GraphOk(env, heads.Values)
      ensures err.None? ==> Valid() && Closed(env, heads.Values)
      ensures err.None? ==> Sound(env, heads.Values, nodes.Keys, rank)
      ensures err.Some? ==> Explains(env, err.value)
    {
      err := LoadClosure(store, overrides, env, heads.Values);
      if err.None? {
        err := CheckAndDerive(env);
      }
    }

    method CheckAndDerive(ghost env: map<Id, Seal>) returns (err: Option<BuildError>)
      requires Gathered() && Closed(env, heads.Values) && Supports(env, heads.Values, nodes.Keys)
      modifies this`causes, this`revisions, this`children, this`active, this`rank
      ensures err.None? <==> GraphOk(env, heads.Values)
      ensures err.None? ==> Valid() && Sound(env, heads.Values, nodes.Keys, rank)
      ensures err.Some? ==> Explains(env, err.value)
    {
      var cycle := Finish(env, heads.Values);
      if cycle.Some? {
        return Some(Invalid(cycle.value));
      }
      DeriveActive();
      err := None;
    }
  }

  // ------------------------------------- the maps against the definition

  lemma NotLoadedRefutes(env: map<Id, Seal>, heads: set<Id>, at: Id)
    requires ReachedFrom(Deps(env), heads, at) && at !in env
    ensures !GraphOk(env, heads)
  {
    forall S, rank | Sound(env, heads, S, rank) ensures false {
      ReachedIsLeast(env, heads, S, at);
    }
  }

  lemma ReachedSupports(nodes: map<Id, Seal>, env: map<Id, Seal>, heads: set<Id>)
    requires IsReach(Deps(env), heads, nodes.Keys)
    requires LoadedFrom(nodes, env)
    ensures Supports(env, heads, nodes.Keys)
  {
    forall x: Id | x in heads ensures x in nodes {
      ReachesSelf(Deps(env), x);
      assert ReachedFrom(Deps(env), heads, x);
    }
    forall o, l | o in nodes && l in env[o].links
      ensures l.target in nodes && forall p: Id :: p in l.previous ==> p in nodes
    {
      LinkDepsMembers(env[o].links);
      DepsOf(env, o);
      assert ReachedFrom(Deps(env), heads, o);
      forall x: Id | x in Out(Deps(env), o) ensures x in nodes { ReachedStep(Deps(env), heads, o, x); }
    }
  }

  // The graph's edges are the links of its nodes.
  ghost predicate EdgesOf(nodes: map<Id, Seal>, causes: Edges, revisions: Edges) {
    Represents(causes, CausePairs(nodes)) && Represents(revisions, RevisionPairs(nodes))
  }

  lemma CombinedOut(causes: Edges, revisions: Edges, x: Id)
    ensures Out(Combined(causes, revisions), x) == Out(causes, x) + Out(revisions, x)
  {
  }

  lemma OkMeansAcyclic(nodes: map<Id, Seal>, env: map<Id, Seal>, heads: set<Id>, causes: Edges, revisions: Edges)
    requires EdgesOf(nodes, causes, revisions)
    requires Supports(env, heads, nodes.Keys) && LoadedFrom(nodes, env)
    requires IsReach(Deps(env), heads, nodes.Keys)
    requires GraphOk(env, heads)
    ensures ClosedUnder(Combined(causes, revisions), nodes.Keys) && Acyclic(nodes.Keys, Combined(causes, revisions))
  {
    var S, rank :| Sound(env, heads, S, rank);
    SoundRestricts(nodes, env, heads, S, rank);
    var all := Combined(causes, revisions);
    assert RankedOn(nodes.Keys, all, rank) by {
      LinksRankEdges(nodes, env, heads, causes, revisions, rank);
    }
    RankedIsAcyclic(nodes.Keys, all, rank);
  }

  lemma SoundRestricts(nodes: map<Id, Seal>, env: map<Id, Seal>, heads: set<Id>, S: set<Id>, rank: map<Id, nat>)
    requires Sound(env, heads, S, rank)
    requires IsReach(Deps(env), heads, nodes.Keys)
    ensures nodes.Keys <= S && RanksLinks(env, nodes.Keys, rank)
  {
    forall x: Id | x in nodes ensures x in S {
      assert ReachedFrom(Deps(env), heads, x);
      ReachedIsLeast(env, heads, S, x);
    }
  }

  lemma EdgeWitness(nodes: map<Id, Seal>, causes: Edges, revisions: Edges, a: Id, b: Id)
    requires EdgesOf(nodes, causes, revisions) && b in Out(Combined(causes, revisions), a)
    ensures (exists l :: a in nodes && l in nodes[a].links && l.target == b)
         || (exists o, l :: o in nodes && l in nodes[o].links && l.target == a && b in l.previous)
  {
    CombinedOut(causes, revisions, a);
    if b in Out(causes, a) {
      assert (a, b) in CausePairs(nodes);
    } else {
      assert (a, b) in RevisionPairs(nodes);
    }
  }

  lemma LinksRankEdges(nodes: map<Id, Seal>, env: map<Id, Seal>, heads: set<Id>, causes: Edges, revisions: Edges,
          rank: map<Id, nat>)
    requires EdgesOf(nodes, causes, revisions)
    requires Supports(env, heads, nodes.Keys) && LoadedFrom(nodes, env)
    requires RanksLinks(env, nodes.Keys, rank)
    ensures RankedOn(nodes.Keys, Combined(causes, revisions), rank)
  {
    forall a: Id, b: Id | a in nodes && b in Out(Combined(causes, revisions), a)
      ensures b in nodes && RankOf(rank, b) < RankOf(rank, a)
    {
      EdgeWitness(nodes, causes, revisions, a, b);
    }
  }

  lemma RankMeansRank(nodes: map<Id, Seal>, env: map<Id, Seal>, heads: set<Id>, causes: Edges, revisions: Edges,
          rank: map<Id, nat>)
    requires EdgesOf(nodes, causes, revisions)
    requires Supports(env, heads, nodes.Keys) && LoadedFrom(nodes, env)
    requires RankedOn(nodes.Keys, Combined(causes, revisions), rank)
    ensures Sound(env, heads, nodes.Keys, rank)
    ensures Ranked(causes, rank) && Ranked(revisions, rank)
  {
    forall o, l | o in nodes && l in env[o].links
      ensures RankOf(rank, l.target) < RankOf(rank, o)
      ensures forall p: Id :: p in l.previous ==> RankOf(rank, p) < RankOf(rank, l.target)
    {
      assert (o, l.target) in CausePairs(nodes);
      CombinedOut(causes, revisions, o);
      CombinedOut(causes, revisions, l.target);
      forall p: Id | p in l.previous ensures p in Out(revisions, l.target) {
        assert (l.target, p) in RevisionPairs(nodes);
      }
    }
    forall a: Id, b: Id | b in Out(causes, a) || b in Out(revisions, a)
      ensures RankOf(rank, b) < RankOf(rank, a)
    {
      CombinedOut(causes, revisions, a);
      if b in Out(causes, a) {
        assert (a, b) in CausePairs(nodes);
      } else {
        assert (a, b) in RevisionPairs(nodes);
      }
    }
  }

  // ------------------------------------------- one closure, two observations

  ghost predicate Holds(env: map<Id, Seal>, more: map<Id, Seal>) {
    forall id: Id :: id in env ==> id in more && more[id] == env[id]
  }

  // A closure that loads completely is the same over a larger store.
  lemma SameClosure(env: map<Id, Seal>, more: map<Id, Seal>, heads: set<Id>, S: set<Id>, T: set<Id>)
    requires Holds(env, more) && IsReach(Deps(env), heads, S) && S <= env.Keys && IsReach(Deps(more), heads, T)
    ensures S == T
  {
    forall x: Id | x in heads ensures x in S {
      ReachesSelf(Deps(env), x);
      assert ReachedFrom(Deps(env), heads, x);
    }
    forall a: Id, b: Id | a in S && b in Out(Deps(more), a) ensures b in S {
      assert ReachedFrom(Deps(env), heads, a);
      ReachedStep(Deps(env), heads, a, b);
    }
    forall x: Id {:trigger ReachedFrom(Deps(more), heads, x)} | x in S ensures ReachedFrom(Deps(more), heads, x) {
      assert ReachedFrom(Deps(env), heads, x);
      var h :| h in heads && Reaches(Deps(env), h, x);
      var p :| Joins(Deps(env), p, h, x);
      forall i, j | 0 <= i < j < |p| && j == i + 1 ensures p[j] in Out(Deps(more), p[i]) {
        assert p[j] in Out(Deps(env), p[i]);
      }
      assert Joins(Deps(more), p, h, x);
    }
    WorklistExact(Deps(more), heads, S);
    forall x: Id ensures x in S <==> x in T {
      assert x in S <==> ReachedFrom(Deps(more), heads, x);
    }
  }

  // Two graphs over the same nodes agree on every edge.
  lemma GatheredSame(g: Graph, h: Graph)
    requires g.Gathered() && h.Gathered() && g.nodes == h.nodes
    ensures SameEdges(g.causes, h.causes) && SameEdges(g.revisions, h.revisions) && SameEdges(g.children, h.children)
  {
    var cs, rs := CausePairs(g.nodes), RevisionPairs(g.nodes);
    forall a: Id, b: Id
      ensures b in Out(g.causes, a) <==> b in Out(h.causes, a)
      ensures b in Out(g.revisions, a) <==> b in Out(h.revisions, a)
      ensures b in Out(g.children, a) <==> b in Out(h.children, a)
    {
      assert b in Out(g.causes, a) <==> (a, b) in cs;
      assert b in Out(g.revisions, a) <==> (a, b) in rs;
      assert b in Out(g.children, a) <==> (a, b) in Swap(rs);
    }
  }

  lemma ActiveSame(g: Graph, h: Graph)
    requires SameEdges(g.revisions, h.revisions) && g.heads.Values == h.heads.Values
    requires IsReach(g.revisions, g.heads.Values, g.active) && IsReach(h.revisions, h.heads.Values, h.active)
    ensures g.active == h.active
  {
    SameReach(g.revisions, h.revisions);
    var heads := g.heads.Values;
    forall x: Id ensures x in g.active <==> x in h.active {
      assert ReachedFrom(g.revisions, heads, x) <==> ReachedFrom(h.revisions, heads, x);
    }
  }

  // How often a Seal is the head among these REFs.
  ghost function HeadCount(heads: map<Ref, Id>, among: set<Ref>, x: Id): nat {
    |set ref | ref in among && ref in heads && heads[ref] == x|
  }

  ghost predicate EachHead(s: multiset<Id>, heads: map<Ref, Id>, among: set<Ref>) {
    forall x: Id :: s[x] == HeadCount(heads, among, x)
  }

  lemma HeadCountNext(s: multiset<Id>, heads: map<Ref, Id>, among: set<Ref>, ref: Ref)
    requires ref in heads && ref !in among && EachHead(s, heads, among)
    ensures EachHead(s + multiset{heads[ref]}, heads, among + {ref})
  {
    forall x: Id
      ensures HeadCount(heads, among + {ref}, x) == HeadCount(heads, among, x) + if heads[ref] == x then 1 else 0
    {
      var was, now := set s | s in among && s in heads && heads[s] == x,
                      set s | s in among + {ref} && s in heads && heads[s] == x;
      assert now == if heads[ref] == x then was + {ref} else was;
    }
  }

  // The values of the heads map, in whatever order the map yields them.
  method HeadList(heads: map<Ref, Id>) returns (r: seq<Id>)
    ensures Elems(r) == heads.Values && |r| == |heads|
    ensures EachHead(multiset(r), heads, heads.Keys)
  {
    r := [];
    var todo := heads.Keys;
    while todo != {}
      invariant EachHead(multiset(r), heads, heads.Keys - todo)
      invariant todo <= heads.Keys && |r| == |heads.Keys - todo|
      invariant forall x: Id :: x in r <==> exists ref :: ref in heads.Keys - todo && heads[ref] == x
    {
      var ref :| ref in todo;
      assert heads.Keys - (todo - {ref}) == (heads.Keys - todo) + {ref};
      HeadCountNext(multiset(r), heads, heads.Keys - todo, ref);
      assert multiset(r + [heads[ref]]) == multiset(r) + multiset{heads[ref]};
      todo := todo - {ref};
      r := r + [heads[ref]];
    }
    assert heads.Keys - {} == heads.Keys;
  }

  // ------------------------------- the parts one Seal adds to each relation

  ghost function PairsTo(target: Id, previous: seq<Id>): set<(Id, Id)> {
    set p: Id | p in previous :: (target, p)
  }

  ghost function CauseParts(id: Id, links: seq<CauseLink>): set<(Id, Id)> {
    set l | l in links :: (id, l.target)
  }

  ghost function RevisionParts(links: seq<CauseLink>): set<(Id, Id)> {
    set l, p: Id | l in links && p in l.previous :: (l.target, p)
  }

  ghost function AssertionParts(id: Id, links: seq<CauseLink>): set<AssertionSource> {
    set l | l in links :: AssertionSource(id, l)
  }

  lemma PairsToNext(target: Id, previous: seq<Id>, k: nat)
    requires k < |previous|
    ensures PairsTo(target, previous[..k + 1]) == PairsTo(target, previous[..k]) + {(target, previous[k])}
  {
    TakeNext(previous, k);
  }

  lemma LinkDepsNext(links: seq<CauseLink>, k: nat)
    requires k < |links|
    ensures LinkDeps(links[..k + 1]) == LinkDeps(links[..k]) + ([links[k].target] + links[k].previous)
  {
    assert links[..k + 1][..k] == links[..k];
  }

  lemma Regroup<T>(a: set<T>, b: set<T>, c: set<T>)
    ensures a + b + c == a + (b + c)
  {
  }

  lemma PartsNone(id: Id)
    ensures CauseParts(id, []) == {} && RevisionParts([]) == {} && AssertionParts(id, []) == {}
  {
  }

  lemma PartsNext(id: Id, links: seq<CauseLink>, k: nat)
    requires k < |links|
    ensures CauseParts(id, links[..k + 1]) == CauseParts(id, links[..k]) + {(id, links[k].target)}
    ensures RevisionParts(links[..k + 1]) == RevisionParts(links[..k]) + PairsTo(links[k].target, links[k].previous)
    ensures AssertionParts(id, links[..k + 1]) == AssertionParts(id, links[..k]) + {AssertionSource(id, links[k])}
  {
    TakeNext(links, k);
  }

  lemma PartsAll(nodes: map<Id, Seal>, id: Id, seal: Seal)
    requires id !in nodes
    ensures CausePairs(nodes[id := seal]) == CausePairs(nodes) + CauseParts(id, seal.links)
    ensures RevisionPairs(nodes[id := seal]) == RevisionPairs(nodes) + RevisionParts(seal.links)
    ensures AssertionSet(nodes[id := seal]) == AssertionSet(nodes) + AssertionParts(id, seal.links)
  {
    var more := nodes[id := seal];
    assert forall o, l :: o in more && l in more[o].links <==>
        (o in nodes && l in nodes[o].links) || (o == id && l in seal.links);
    forall o, l | o in nodes && l in nodes[o].links
      ensures (o, l.target) in CausePairs(more) && AssertionSource(o, l) in AssertionSet(more)
    {
      assert more[o] == nodes[o];
    }
    assert more[id] == seal;
    forall e | e in RevisionPairs(nodes) ensures e in RevisionPairs(more) {
      var o, l, p :| o in nodes && l in nodes[o].links && p in l.previous && e == (l.target, p);
      assert more[o] == nodes[o];
    }
  }
}
