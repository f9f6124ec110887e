/** The graph a projection makes, and when it is accepted (internal/migration/project_v5.go:92-94,290-344). */
module ProjectedGraph {
  import opened Ids
  import opened Walks
  import opened DepthFirst
  import opened ObservedGraph
  import opened SealOrder
  import opened Projection
  import opened Text

  ghost function NewIds(seals: seq<ProjectedSeal>): set<Id> {
    set s | s in seals :: s.newId
  }

  // Cause edges of the new Seals and the revision edges their links assert.
  ghost function PairsOf(seals: seq<ProjectedSeal>): set<(Id, Id)> {
    set s, e | s in seals && e in CauseParts(s.newId, s.seal.links) + RevisionParts(s.seal.links) :: e
  }

  ghost predicate Descends(nodes: set<Id>, rel: set<(Id, Id)>, rank: map<Id, nat>) {
    forall a: Id, b: Id :: (a, b) in rel && a in nodes ==> b in nodes && RankOf(rank, b) < RankOf(rank, a)
  }

  // Some rank decreases along every edge, and no edge leaves the nodes.
  ghost predicate Acceptable(nodes: set<Id>, rel: set<(Id, Id)>) {
    exists rank :: Descends(nodes, rel, rank)
  }

  // An edge from a Seal to itself, at a node or at something a node depends on.
  ghost predicate SelfPair(nodes: set<Id>, rel: set<(Id, Id)>, at: Id) {
    (at, at) in rel && (at in nodes || exists n: Id :: n in nodes && (n, at) in rel)
  }

  lemma SelfPairRefutes(nodes: set<Id>, rel: set<(Id, Id)>, at: Id)
    requires SelfPair(nodes, rel, at)
    ensures !Acceptable(nodes, rel)
  {
    forall rank ensures !Descends(nodes, rel, rank) {
      if at !in nodes {
        var n: Id :| n in nodes && (n, at) in rel;
      }
    }
  }

  lemma SearchDecides(nodes: set<Id>, rel: set<(Id, Id)>, m: Edges)
    requires Represents(m, rel)
    ensures Acceptable(nodes, rel) ==> ClosedUnder(m, nodes) && Acyclic(nodes, m)
    ensures forall rank :: RankedOn(nodes, m, rank) ==> Descends(nodes, rel, rank)
  {
    if Acceptable(nodes, rel) {
      var rank :| Descends(nodes, rel, rank);
      assert RankedOn(nodes, m, rank) by {
        forall a: Id, b: Id | a in nodes && b in Out(m, a) ensures b in nodes && RankOf(rank, b) < RankOf(rank, a) {
          assert (a, b) in rel;
        }
      }
      RankedIsAcyclic(nodes, m, rank);
    }
    forall rank | RankedOn(nodes, m, rank) ensures Descends(nodes, rel, rank) {
      forall a: Id, b: Id | (a, b) in rel && a in nodes ensures b in nodes && RankOf(rank, b) < RankOf(rank, a) {
        assert b in Out(m, a);
      }
    }
  }

  // The revision edges of one link.
  method AddPreviousEdges(target: Id, previous: seq<Id>, deps: Edges, ghost rel: set<(Id, Id)>) returns (ok: bool,
          deps': Edges)
    requires Represents(deps, rel)
    ensures ok <==> target !in previous
    ensures ok ==> Represents(deps', rel + PairsTo(target, previous))
  {
    deps' := deps;
    ghost var now := rel;
    for k := 0 to |previous|
      invariant now == rel + PairsTo(target, previous[..k]) && Represents(deps', now) && target !in previous[..k]
    {
      TakeNext(previous, k);
      if previous[k] == target {
        return false, deps';
      }
      PairsToNext(target, previous, k);
      AddEdgeRepresents(deps', now, target, previous[k]);
      deps' := AddEdge(deps', target, previous[k]);
      now := now + {(target, previous[k])};
    }
    assert previous[..|previous|] == previous;
    ok := true;
  }

  // All edges of one projected Seal; an edge from a Seal to itself is refused at once.
  method AddSealEdges(id: Id, links: seq<CauseLink>, deps: Edges, ghost rel: set<(Id,
          Id)>) returns (err: Option<GraphError>, deps': Edges)
    requires Represents(deps, rel)
    ensures err.None? ==> Represents(deps', rel + (CauseParts(id, links) + RevisionParts(links)))
    ensures err.Some? ==> err.value.SelfEdge? && exists at: Id ::
              && err.value.at == at && (at, at) in CauseParts(id, links) + RevisionParts(links)
              && (at == id || (id, at) in CauseParts(id, links))
  {
    deps' := deps;
    ghost var now := rel;
    PartsNone(id);
    assert rel + (CauseParts(id, []) + RevisionParts([])) == rel;
    for k := 0 to |links|
      invariant now == rel + (CauseParts(id, links[..k]) + RevisionParts(links[..k])) && Represents(deps', now)
    {
      var l := links[k];
      assert l in links;
      if l.target == id {
        assert (id, id) in CauseParts(id, links);
        return Some(SelfEdge(id)), deps';
      }
      PartsNext(id, links, k);
      AddEdgeRepresents(deps', now, id, l.target);
      deps' := AddEdge(deps', id, l.target);
      var ok;
      ok, deps' := AddPreviousEdges(l.target, l.previous, deps', now + {(id, l.target)});
      if !ok {
        assert (l.target, l.target) in RevisionParts(links) && (id, l.target) in CauseParts(id, links);
        return Some(SelfEdge(l.target)), deps';
      }
      now := now + {(id, l.target)} + PairsTo(l.target, l.previous);
    }
    assert links[..|links|] == links;
    err := None;
  }

  lemma PairsNext(seals: seq<ProjectedSeal>, k: nat)
    requires k < |seals|
    ensures PairsOf(seals[..k + 1]) == PairsOf(seals[..k])
              + (CauseParts(seals[k].newId, seals[k].seal.links) + RevisionParts(seals[k].seal.links))
    ensures NewIds(seals[..k + 1]) == NewIds(seals[..k]) + {seals[k].newId}
    ensures seals[k].newId in NewIds(seals)
    ensures CauseParts(seals[k].newId, seals[k].seal.links) + RevisionParts(seals[k].seal.links) <= PairsOf(seals)
  {
    TakeNext(seals, k);
    assert seals[k] in seals;
  }

  // An edge from a Seal to itself, or what the search found wrong with all the edges.
  ghost predicate Spoils(seals: seq<ProjectedSeal>, e: GraphError) {
    || (e.SelfEdge? && (e.at, e.at) in PairsOf(seals))
    || exists deps :: Represents(deps, PairsOf(seals)) && Witnesses(NewIds(seals), deps, e)
  }

  // validateProjectedGraph. It accepts exactly the closed graphs with a rank that
  // decreases along every Cause and revision edge.
  method ValidateProjectedGraph(seals: seq<ProjectedSeal>) returns (err: Option<GraphError>)
    ensures err.None? <==> Acceptable(NewIds(seals), PairsOf(seals))
    ensures err.Some? ==> Spoils(seals, err.value)
  {
    var deps: Edges := map[];
    var nodes: set<Id> := {};
    for k := 0 to |seals|
      invariant nodes == NewIds(seals[..k]) && Represents(deps, PairsOf(seals[..k]))
    {
      PairsNext(seals, k);
      nodes := nodes + {seals[k].newId};
      err, deps := AddSealEdges(seals[k].newId, seals[k].seal.links, deps, PairsOf(seals[..k]));
      if err.Some? {
        ghost var at: Id :| (at, at) in CauseParts(seals[k].newId, seals[k].seal.links)
            + RevisionParts(seals[k].seal.links)
                            && (at == seals[k].newId || (seals[k].newId, at) in CauseParts(seals[k].newId,
                                 seals[k].seal.links));
        SelfPairRefutes(NewIds(seals), PairsOf(seals), at);
        return;
      }
    }
    assert seals[..|seals|] == seals;
    var search := new ColourSearch(nodes, deps);
    err := search.Check();
    SearchDecides(nodes, PairsOf(seals), deps);
  }

  // ------------------------------------------------ what acceptance is worth

  lemma PairIn(seals: seq<ProjectedSeal>, s: ProjectedSeal, e: (Id, Id))
    requires s in seals && e in CauseParts(s.newId, s.seal.links) + RevisionParts(s.seal.links)
    ensures e in PairsOf(seals) && s.newId in NewIds(seals)
  {
  }

  lemma PairFrom(seals: seq<ProjectedSeal>, e: (Id, Id)) returns (i: nat)
    requires e in PairsOf(seals)
    ensures i < |seals| && e in CauseParts(seals[i].newId, seals[i].seal.links) + RevisionParts(seals[i].seal.links)
  {
    var s :| s in seals && e in CauseParts(s.newId, s.seal.links) + RevisionParts(s.seal.links);
    i :| 0 <= i < |seals| && seals[i] == s;
  }

  ghost predicate StoresAll(env: map<Id, Seal>, seals: seq<ProjectedSeal>) {
    forall s :: s in seals ==> s.newId in env && env[s.newId] == s.seal
  }

  // A migrated repository can be observed: once the projected Seals are stored, any of
  // them can be heads and the graph of format 5 builds.
  lemma MigratedGraphOk(p: Projected, env: map<Id, Seal>, heads: set<Id>)
    requires Acceptable(NewIds(p.seals), PairsOf(p.seals)) && StoresAll(env, p.seals) && heads <= NewIds(p.seals)
    ensures GraphOk(env, heads)
  {
    var nodes, rel := NewIds(p.seals), PairsOf(p.seals);
    var rank :| Descends(nodes, rel, rank);
    forall o, l | o in nodes && o in env && l in env[o].links
      ensures l.target in nodes && RankOf(rank, l.target) < RankOf(rank, o)
      ensures forall q: Id :: q in l.previous ==> q in nodes && RankOf(rank, q) < RankOf(rank, l.target)
    {
      var s :| s in p.seals && s.newId == o;
      PairIn(p.seals, s, (o, l.target));
      forall q: Id | q in l.previous ensures (l.target, q) in rel {
        assert (l.target, q) in RevisionParts(s.seal.links);
        PairIn(p.seals, s, (l.target, q));
      }
    }
    assert Sound(env, heads, nodes, rank);
  }

  // --------------------------------------------------- exactly when it is accepted

  // A rank of the images that falls along every old Cause link and, for every linked child,
  // to its parent, unless the two collapse into one.
  ghost predicate ClassesFall(dump: seq<SealRecord>, table: map<Id, Payload>, m: Mapping, rank: map<Id, nat>) {
    forall r, l :: r in dump && l in r.payload.links ==> LinkFalls(r.id, l, table, m, rank)
  }

  ghost predicate LinkFalls(o: Id, l: Link, table: map<Id, Payload>, m: Mapping, rank: map<Id, nat>) {
    && RankOf(rank, New(m, l.target)) < RankOf(rank, New(m, o))
    && (ParentOf(table, l.target).Some? && New(m, ParentOf(table, l.target).value) != New(m, l.target) ==>
          RankOf(rank, New(m, ParentOf(table, l.target).value)) < RankOf(rank, New(m, l.target)))
  }

  // The old inventory allows the projection: some rank of the collapse classes falls.
  ghost predicate Migratable(dump: seq<SealRecord>, table: map<Id, Payload>, m: Mapping) {
    exists rank :: ClassesFall(dump, table, m, rank)
  }

  lemma ImageIn(p: Projected, dump: seq<SealRecord>, name: Naming, table: map<Id, Payload>, x: Id)
    requires IsProjection(p, dump, name, table) && x in p.toNew
    ensures p.toNew[x] in NewIds(p.seals)
  {
    var i :| 0 <= i < |dump| && IdsOf(dump)[i] == x;
    assert IsImage(p.seals[i], dump[i], name, table, p.toNew);
    assert p.seals[i] in p.seals;
  }

  // The new Cause edge, and the new revision edge, behind one old link.
  lemma LinkPairs(p: Projected, dump: seq<SealRecord>, name: Naming, table: map<Id, Payload>, i: nat, l: Link)
    requires IsProjection(p, dump, name, table) && i < |dump| && l in dump[i].payload.links
    ensures var m, s := p.toNew, p.seals[i];
            && s.newId == New(m, dump[i].id) && s.newId in NewIds(p.seals)
            && (s.newId, New(m, l.target)) in PairsOf(p.seals)
            && (ParentOf(table, l.target).Some? && New(m, ParentOf(table, l.target).value) != New(m, l.target) ==>
                  (New(m, l.target), New(m, ParentOf(table, l.target).value)) in PairsOf(p.seals))
  {
    var m, s, was := p.toNew, p.seals[i], dump[i].payload.links;
    var t := New(m, l.target);
    assert IsImage(s, dump[i], name, table, m) && s in p.seals;
    assert l.target in TargetsOnto(was, m, t);
    var n :| n in s.seal.links && n.target == t;
    PairIn(p.seals, s, (s.newId, t));
    if ParentOf(table, l.target).Some? && New(m, ParentOf(table, l.target).value) != t {
      var q := New(m, ParentOf(table, l.target).value);
      assert LinkFor(n, was, table, m) && q in PreviousOnto(was, table, m, t);
      assert q in Elems(n.previous);
      assert (t, q) in RevisionParts(s.seal.links);
      PairIn(p.seals, s, (t, q));
    }
  }

  // The old link behind a new Cause edge.
  lemma CauseOrigin(p: Projected, dump: seq<SealRecord>, name: Naming, table: map<Id, Payload>, i: nat, a: Id, b: Id)
      returns (l: Link)
    requires IsProjection(p, dump, name, table)
    requires i < |p.seals| && (a, b) in CauseParts(p.seals[i].newId, p.seals[i].seal.links)
    ensures a == New(p.toNew, dump[i].id) && l in dump[i].payload.links && New(p.toNew, l.target) == b
              && l.target in p.toNew
  {
    assert IsImage(p.seals[i], dump[i], name, table, p.toNew);
    assert TargetsOnto(dump[i].payload.links, p.toNew, b) != {};
    l :| l in dump[i].payload.links && New(p.toNew, l.target) == b;
  }

  // The old link and the old parent edge behind a new revision edge.
  lemma RevisionOrigin(p: Projected, dump: seq<SealRecord>, name: Naming, table: map<Id, Payload>, i: nat, a: Id, b: Id)
      returns (l: Link, q: Id)
    requires IsProjection(p, dump, name, table)
    requires i < |p.seals| && (a, b) in RevisionParts(p.seals[i].seal.links)
    ensures l in dump[i].payload.links && New(p.toNew, l.target) == a && ParentOf(table, l.target) == Some(q)
    ensures b == New(p.toNew, q) && b != a && q in p.toNew
  {
    var m, links := p.toNew, dump[i].payload.links;
    assert IsImage(p.seals[i], dump[i], name, table, m);
    var n :| n in p.seals[i].seal.links && n.target == a && b in n.previous;
    assert LinkFor(n, links, table, m) && b in Elems(n.previous);
    l :| l in links && New(m, l.target) == a && ParentOf(table, l.target).Some?
         && New(m, ParentOf(table, l.target).value) != a && b == New(m, ParentOf(table, l.target).value);
    q := ParentOf(table, l.target).value;
  }

  // A rank of the new graph is one of the classes.
  lemma DescendsMeansFall(p: Projected, dump: seq<SealRecord>, name: Naming, table: map<Id, Payload>,
          rank: map<Id, nat>)
    requires IsProjection(p, dump, name, table) && Descends(NewIds(p.seals), PairsOf(p.seals), rank)
    ensures ClassesFall(dump, table, p.toNew, rank)
  {
    forall r, l | r in dump && l in r.payload.links ensures LinkFalls(r.id, l, table, p.toNew, rank) {
      var i :| 0 <= i < |dump| && dump[i] == r;
      LinkPairs(p, dump, name, table, i, l);
    }
  }

  lemma FallMeansDescends(p: Projected, dump: seq<SealRecord>, name: Naming, table: map<Id, Payload>,
          rank: map<Id, nat>)
    requires IsProjection(p, dump, name, table) && ClassesFall(dump, table, p.toNew, rank)
    ensures Descends(NewIds(p.seals), PairsOf(p.seals), rank)
  {
    forall a: Id, b: Id | (a, b) in PairsOf(p.seals) && a in NewIds(p.seals)
      ensures b in NewIds(p.seals) && RankOf(rank, b) < RankOf(rank, a)
    {
      var i := PairFrom(p.seals, (a, b));
      assert dump[i] in dump;
      if (a, b) in CauseParts(p.seals[i].newId, p.seals[i].seal.links) {
        var l := CauseOrigin(p, dump, name, table, i, a, b);
        assert LinkFalls(dump[i].id, l, table, p.toNew, rank);
        ImageIn(p, dump, name, table, l.target);
      } else {
        var l, q := RevisionOrigin(p, dump, name, table, i, a, b);
        assert LinkFalls(dump[i].id, l, table, p.toNew, rank);
        ImageIn(p, dump, name, table, q);
      }
    }
  }

  // A projection is accepted exactly when the old inventory allows it, whatever collapses.
  lemma AcceptedExactly(p: Projected, dump: seq<SealRecord>, name: Naming, table: map<Id, Payload>)
    requires IsProjection(p, dump, name, table)
    ensures Acceptable(NewIds(p.seals), PairsOf(p.seals)) <==> Migratable(dump, table, p.toNew)
  {
    if rank :| Descends(NewIds(p.seals), PairsOf(p.seals), rank) {
      DescendsMeansFall(p, dump, name, table, rank);
    }
    if rank :| ClassesFall(dump, table, p.toNew, rank) {
      FallMeansDescends(p, dump, name, table, rank);
    }
  }

  // ------------------------------------------------------ what collapses, exactly

  // The same material and flags, and links that turn into the same ones.
  ghost predicate SameImage(a: Payload, b: Payload, table: map<Id, Payload>, m: Mapping) {
    && a.content == b.content && a.attachments == b.attachments && a.root == b.root && a.draft == b.draft
    && AlikeOnto(a.links, b.links, table, m, m)
  }

  // Under their mappings the two link lists say the same about every image.
  ghost predicate AlikeOnto(was: seq<Link>, now: seq<Link>, table: map<Id, Payload>, m: Mapping, n: Mapping) {
    forall t: Id {:trigger TargetsOnto(was, m, t)} {:trigger TargetsOnto(now, n, t)} ::
      && (TargetsOnto(was, m, t) == {} <==> TargetsOnto(now, n, t) == {})
      && PreviousOnto(was, table, m, t) == PreviousOnto(now, table, n, t)
      && MessagesOnto(was, m, t) == MessagesOnto(now, n, t)
  }

  // Two link lists that project the same links are the same list.
  lemma ProjectsUnique(a: seq<CauseLink>, b: seq<CauseLink>, was: seq<Link>, now: seq<Link>, table: map<Id, Payload>,
          m: Mapping, n: Mapping)
    requires Projects(a, was, table, m) && Projects(b, now, table, n) && AlikeOnto(was, now, table, m, n)
    ensures a == b
  {
    forall x | x in a ensures x in b {
      assert TargetsOnto(was, m, x.target) != {};
      var y :| y in b && y.target == x.target;
      SameLink(x, y, was, now, table, m, n);
    }
    forall y | y in b ensures y in a {
      assert TargetsOnto(now, n, y.target) != {};
      var x :| x in a && x.target == y.target;
      SameLink(x, y, was, now, table, m, n);
    }
    LinksByTarget(a, b);
  }

  lemma SameLink(x: CauseLink, y: CauseLink, was: seq<Link>, now: seq<Link>, table: map<Id, Payload>, m: Mapping,
          n: Mapping)
    requires LinkFor(x, was, table, m) && LinkFor(y, now, table, n) && x.target == y.target
    requires PreviousOnto(was, table, m, x.target) == PreviousOnto(now, table, n, y.target)
    requires MessagesOnto(was, m, x.target) == MessagesOnto(now, n, y.target)
    ensures x == y
  {
    SameElems(x.previous, y.previous);
    TextsUnique(x.messages, y.messages);
  }

  // Lists ordered by target with the same members are one list.
  lemma {:induction false} LinksByTarget(a: seq<CauseLink>, b: seq<CauseLink>)
    requires forall i, j :: 0 <= i < j < |a| ==> a[i].target < a[j].target
    requires forall i, j :: 0 <= i < j < |b| ==> b[i].target < b[j].target
    requires forall x :: x in a <==> x in b
    ensures a == b
  {
    assert forall i :: 0 <= i < |a| ==> a[i] in b;
    assert forall i :: 0 <= i < |b| ==> b[i] in a;
    if a != [] && b != [] {
      assert a[0] in b && b[0] in a;
      assert a[0] == b[0];
      forall x ensures x in a[1..] <==> x in b[1..] {
        assert x in a <==> x == a[0] || x in a[1..];
        assert x in b <==> x == b[0] || x in b[1..];
        assert a[0] !in a[1..] && b[0] !in b[1..];
      }
      LinksByTarget(a[1..], b[1..]);
      assert a == [a[0]] + a[1..] && b == [b[0]] + b[1..];
    }
  }

  lemma SealsTellIds(p: Projected, dump: seq<SealRecord>, name: Naming, table: map<Id, Payload>, i: nat, j: nat)
    requires IsProjection(p, dump, name, table) && Distinguishes(name) && i < |dump| && j < |dump|
    ensures dump[i].id in p.toNew && dump[j].id in p.toNew
    ensures p.toNew[dump[i].id] == p.toNew[dump[j].id] <==> p.seals[i].seal == p.seals[j].seal
    ensures Projects(p.seals[i].seal.links, dump[i].payload.links, table, p.toNew)
    ensures p.seals[i].seal == Lift(dump[i].payload, p.seals[i].seal.links)
  {
    var a, b := p.seals[i], p.seals[j];
    assert IsImage(a, dump[i], name, table, p.toNew) && IsImage(b, dump[j], name, table, p.toNew);
    assert name(a.seal) == name(b.seal) ==> a.seal == b.seal;
  }

  // Two old Seals become one exactly when nothing format 5 keeps tells them apart.
  lemma CollapseExactly(p: Projected, dump: seq<SealRecord>, name: Naming, table: map<Id, Payload>, i: nat, j: nat)
    requires IsProjection(p, dump, name, table) && Distinguishes(name) && i < |dump| && j < |dump|
    ensures dump[i].id in p.toNew && dump[j].id in p.toNew
    ensures p.toNew[dump[i].id] == p.toNew[dump[j].id] <==>
            SameImage(dump[i].payload, dump[j].payload, table, p.toNew)
  {
    SealsTellIds(p, dump, name, table, i, j);
    SealsTellIds(p, dump, name, table, j, i);
    var a, b := p.seals[i].seal, p.seals[j].seal;
    if SameImage(dump[i].payload, dump[j].payload, table, p.toNew) {
      ProjectsUnique(a.links, b.links, dump[i].payload.links, dump[j].payload.links, table, p.toNew, p.toNew);
    }
    if a == b {
      OneImage(dump[i].payload, dump[j].payload, a.links, table, p.toNew);
    }
  }

  lemma OneImage(a: Payload, b: Payload, links: seq<CauseLink>, table: map<Id, Payload>, m: Mapping)
    requires Projects(links, a.links, table, m) && Projects(links, b.links, table, m)
              && Lift(a, links) == Lift(b, links)
    ensures SameImage(a, b, table, m)
  {
    forall t: Id
      ensures TargetsOnto(a.links, m, t) == {} <==> TargetsOnto(b.links, m, t) == {}
      ensures PreviousOnto(a.links, table, m, t) == PreviousOnto(b.links, table, m, t)
      ensures MessagesOnto(a.links, m, t) == MessagesOnto(b.links, m, t)
    {
      SameOnto(links, a.links, b.links, table, m, t);
    }
  }

  lemma SameOnto(links: seq<CauseLink>, was: seq<Link>, now: seq<Link>, table: map<Id, Payload>, m: Mapping, t: Id)
    requires Projects(links, was, table, m) && Projects(links, now, table, m)
    ensures TargetsOnto(was, m, t) == {} <==> TargetsOnto(now, m, t) == {}
    ensures PreviousOnto(was, table, m, t) == PreviousOnto(now, table, m, t)
    ensures MessagesOnto(was, m, t) == MessagesOnto(now, m, t)
  {
    if l :| l in links && l.target == t {
      assert LinkFor(l, was, table, m) && LinkFor(l, now, table, m);
    } else {
      NothingOnto(was, table, m, t);
      NothingOnto(now, table, m, t);
    }
  }

  lemma NothingOnto(links: seq<Link>, table: map<Id, Payload>, m: Mapping, t: Id)
    requires TargetsOnto(links, m, t) == {}
    ensures PreviousOnto(links, table, m, t) == {} && MessagesOnto(links, m, t) == {}
  {
    forall l | l in links ensures l.target in TargetsOnto(links, m, New(m, l.target)) {}
  }

  // ------------------------------------------------------------ two consequences

  ghost predicate NothingCollapses(p: Projected) {
    forall a: Id, b: Id :: a in p.toNew && b in p.toNew && p.toNew[a] == p.toNew[b] ==> a == b
  }

  // The place of the record a new Seal stands for.
  ghost function PlaceOf(p: Projected, dump: seq<SealRecord>, x: Id): nat {
    if i :| 0 <= i < |dump| && New(p.toNew, dump[i].id) == x then i else 0
  }

  lemma PlaceIs(p: Projected, dump: seq<SealRecord>, i: nat)
    requires NothingCollapses(p) && NoDup(IdsOf(dump)) && p.toNew.Keys == Elems(IdsOf(dump)) && i < |dump|
    ensures PlaceOf(p, dump, New(p.toNew, dump[i].id)) == i
  {
    var j := PlaceOf(p, dump, New(p.toNew, dump[i].id));
    assert IdsOf(dump)[i] in p.toNew && IdsOf(dump)[j] in p.toNew;
    assert New(p.toNew, dump[j].id) == New(p.toNew, dump[i].id);
  }

  // Listed before another, and so of smaller rank.
  lemma PlaceBefore(p: Projected, dump: seq<SealRecord>, i: nat, x: Id)
    requires NothingCollapses(p) && NoDup(IdsOf(dump)) && p.toNew.Keys == Elems(IdsOf(dump))
    requires i < |dump| && x in IdsOf(dump)[..i]
    ensures New(p.toNew, x) in p.toNew.Values && PlaceOf(p, dump, New(p.toNew, x)) < i
    ensures IdsOf(dump)[PlaceOf(p, dump, New(p.toNew, x))] == x
  {
    var j :| 0 <= j < i && IdsOf(dump)[j] == x;
    assert IdsOf(dump)[j] in p.toNew;
    PlaceIs(p, dump, j);
  }

  ghost function Places(p: Projected, dump: seq<SealRecord>): (rank: map<Id, nat>)
    ensures forall x: Id :: x in p.toNew.Values ==> RankOf(rank, x) == PlaceOf(p, dump, x)
  {
    map x: Id | x in p.toNew.Values :: PlaceOf(p, dump, x)
  }

  // When different old Seals stay different, every canonical inventory is accepted: the
  // order it is listed in is the rank.
  lemma WithoutCollapseAccepted(p: Projected, dump: seq<SealRecord>, name: Naming, table: map<Id, Payload>)
    requires IsProjection(p, dump, name, table) && InOrder(dump) && Tabulates(table, dump) && NothingCollapses(p)
    ensures Acceptable(NewIds(p.seals), PairsOf(p.seals))
  {
    CanonicalDump(dump, table);
    forall r, l | r in dump && l in r.payload.links ensures LinkFalls(r.id, l, table, p.toNew, Places(p, dump)) {
      var i :| 0 <= i < |dump| && dump[i] == r;
      PlacesFall(p, dump, table, i, l);
    }
    assert ClassesFall(dump, table, p.toNew, Places(p, dump));
    AcceptedExactly(p, dump, name, table);
  }

  lemma PlacesFall(p: Projected, dump: seq<SealRecord>, table: map<Id, Payload>, i: nat, l: Link)
    requires NothingCollapses(p) && NoDup(IdsOf(dump)) && p.toNew.Keys == Elems(IdsOf(dump)) && Tabulates(table, dump)
    requires DependencyFirst(Dependencies(table), IdsOf(dump)) && i < |dump| && l in dump[i].payload.links
    ensures LinkFalls(dump[i].id, l, table, p.toNew, Places(p, dump))
  {
    var deps, ids := Dependencies(table), IdsOf(dump);
    assert dump[i] in dump && ids[i] in p.toNew && p.toNew[ids[i]] in p.toNew.Values;
    PlaceIs(p, dump, i);
    assert l.target in Out(deps, ids[i]);
    PlaceBefore(p, dump, i, l.target);
    if ParentOf(table, l.target).Some? {
      var j := PlaceOf(p, dump, New(p.toNew, l.target));
      assert ids[j] == l.target && ParentOf(table, l.target).value in Out(deps, ids[j]);
      PlaceBefore(p, dump, j, ParentOf(table, l.target).value);
    }
  }

  lemma CanonicalDump(dump: seq<SealRecord>, table: map<Id, Payload>)
    requires InOrder(dump) && Tabulates(table, dump)
    ensures DependencyFirst(Dependencies(table), IdsOf(dump))
  {
    var other :| Tabulates(other, dump) && Canonical(Dependencies(other), other.Keys, IdsOf(dump));
    TableUnique(other, table, dump, dump);
    CanonicalOrders(Dependencies(table), table.Keys, IdsOf(dump));
  }

  // A content that was changed and changed back: the first and third Seal become one, and
  // two observers then assert opposite revisions. The inventory is in order, and yet no
  // projection of it is accepted.
  lemma RevertCannotMigrate(name: Naming, x: Id, y: Id) returns (dump: seq<SealRecord>, table: map<Id, Payload>)
    requires Distinguishes(name) && x != y
    ensures InOrder(dump) && Tabulates(table, dump)
    ensures forall p {:trigger IsProjection(p, dump, name, table)} ::
              IsProjection(p, dump, name, table) ==> !Acceptable(NewIds(p.seals), PairsOf(p.seals))
  {
    dump := seq(5, i requires 0 <= i < 5 => SealRecord(i, RevertPayload(x, y, i)));
    table := map i: Id | 0 <= i < 5 :: RevertPayload(x, y, i);
    RevertInOrder(dump, table, x, y);
    forall p | IsProjection(p, dump, name, table) ensures !Acceptable(NewIds(p.seals), PairsOf(p.seals)) {
      RevertCycles(p, dump, name, table, x, y);
      AcceptedExactly(p, dump, name, table);
    }
  }

  // Three revisions of a root, the third with the content of the first, then a Seal that
  // relies on the third and one that relies on the second.
  function RevertPayload(x: Id, y: Id, i: nat): Payload {
    if i == 0 then Payload(None, x, [], [], true, false)
    else if i == 1 then Payload(Some(0), y, [], [], true, false)
    else if i == 2 then Payload(Some(1), x, [], [], true, false)
    else Payload(None, x, [], [Link(if i == 3 then 2 else 1, "")], false, false)
  }

  ghost predicate IsRevert(dump: seq<SealRecord>, table: map<Id, Payload>, x: Id, y: Id) {
    && |dump| == 5 && (forall i: nat :: i < 5 ==> dump[i] == SealRecord(i, RevertPayload(x, y, i)))
    && (forall id: Id :: id in table <==> id < 5)
         && (forall id: Id :: id in table ==> table[id] == RevertPayload(x, y, id))
  }

  // Seals numbered in the order they are listed, each depending on smaller numbers only.
  lemma NumberedIsCanonical(m: Edges, S: set<Id>, order: seq<Id>)
    requires forall k: nat :: k < |order| ==> order[k] == k
    requires forall x: Id :: x in S <==> x < |order|
    requires forall k: nat, d: Id :: k < |order| && d in Out(m, k) ==> d < k
    ensures Canonical(m, S, order)
  {
    forall i: nat, x: Id | i <= |order| ensures x in order[..i] <==> x < i {
      if x < i {
        assert order[..i][x] == x;
      }
    }
    forall i: nat | i < |order| ensures LeastAvailable(m, S, order[..i], order[i]) {
    }
    forall x: Id ensures x in Elems(order) <==> x in S {
      assert order[..|order|] == order;
    }
  }

  lemma RevertInOrder(dump: seq<SealRecord>, table: map<Id, Payload>, x: Id, y: Id)
    requires IsRevert(dump, table, x, y)
    ensures InOrder(dump) && Tabulates(table, dump)
  {
    var deps, ids := Dependencies(table), IdsOf(dump);
    forall k: nat, d: Id | k < 5 && d in Out(deps, k) ensures d < k {
      assert table[k] == RevertPayload(x, y, k);
      RevertDepends(x, y, k, d);
    }
    NumberedIsCanonical(deps, table.Keys, ids);
    CanonicalOrders(deps, table.Keys, ids);
    forall id: Id | id in table ensures SealRecord(id, table[id]) in dump {
      assert dump[id] == SealRecord(id, table[id]);
    }
  }

  lemma RevertDepends(x: Id, y: Id, k: nat, d: Id)
    requires k < 5 && d in DependencyList(RevertPayload(x, y, k))
    ensures d < k
  {
  }

  lemma RevertCycles(p: Projected, dump: seq<SealRecord>, name: Naming, table: map<Id, Payload>, x: Id, y: Id)
    requires Distinguishes(name) && IsProjection(p, dump, name, table) && IsRevert(dump, table, x, y) && x != y
    ensures !Migratable(dump, table, p.toNew)
  {
    var m := p.toNew;
    UnlinkedCollapse(p, dump, name, table, 0, 2);
    UnlinkedCollapse(p, dump, name, table, 0, 1);
    assert dump[3].payload.links == [Link(2, "")] && dump[4].payload.links == [Link(1, "")];
    assert dump[3] in dump && dump[4] in dump;
    OpposedParents(dump, table, m, dump[3], Link(2, ""), 1, dump[4], Link(1, ""), 0);
  }

  // Two linked children that stand for each other's parents leave no rank.
  lemma OpposedParents(dump: seq<SealRecord>, table: map<Id, Payload>, m: Mapping, a: SealRecord, l: Link, q: Id,
          b: SealRecord, k: Link, r: Id)
    requires a in dump && l in a.payload.links && ParentOf(table, l.target) == Some(q)
    requires b in dump && k in b.payload.links && ParentOf(table, k.target) == Some(r)
    requires New(m, q) == New(m, k.target) && New(m, r) == New(m, l.target) && New(m, q) != New(m, r)
    ensures !Migratable(dump, table, m)
  {
    forall rank ensures !ClassesFall(dump, table, m, rank) {
      assert LinkFalls(a.id, l, table, m, rank) ==> RankOf(rank, New(m, q)) < RankOf(rank, New(m, r));
      assert LinkFalls(b.id, k, table, m, rank) ==> RankOf(rank, New(m, r)) < RankOf(rank, New(m, q));
    }
  }

  // Roots without links collapse exactly when their contents are equal.
  lemma UnlinkedCollapse(p: Projected, dump: seq<SealRecord>, name: Naming, table: map<Id, Payload>, i: nat, j: nat)
    requires Distinguishes(name) && IsProjection(p, dump, name, table) && i < |dump| && j < |dump|
    requires dump[i].payload.links == [] && dump[j].payload.links == []
    requires dump[i].payload.attachments == dump[j].payload.attachments
    requires dump[i].payload.root == dump[j].payload.root && dump[i].payload.draft == dump[j].payload.draft
    ensures New(p.toNew, dump[i].id) == New(p.toNew, dump[j].id) <==>
            dump[i].payload.content == dump[j].payload.content
  {
    CollapseExactly(p, dump, name, table, i, j);
    assert IsImage(p.seals[i], dump[i], name, table, p.toNew) && IsImage(p.seals[j], dump[j], name, table, p.toNew);
  }
}
