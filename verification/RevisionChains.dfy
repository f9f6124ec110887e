/**
 Shortest revision chains: the breadth-first searches of revisionProof
 (internal/repository/revision_graph.go:535-576) and logFromObservation
 (internal/repository/history.go:51-86).
 */
module RevisionChains {
  import opened Ids
  import opened Walks
  import opened ObservedGraph

  // d steps lead from source to x, and no walk takes fewer.
  ghost predicate IsDistance(m: Edges, source: Id, x: Id, d: nat) {
    && (exists q :: Joins(m, q, source, x) && |q| == d + 1)
    && forall q :: Joins(m, q, source, x) ==> |q| >= d + 1
  }

  ghost predicate NoCloser(m: Edges, source: Id, x: Id, d: nat) {
    forall q :: Joins(m, q, source, x) ==> |q| >= d + 1
  }

  // Breadth-first state while node u, already taken off the queue, has had the
  // successors in done entered: what has a depth, and in which order the rest waits.
  ghost predicate Searching(m: Edges, source: Id, depth: map<Id, nat>, queue: seq<Id>, u: Id, done: seq<Id>) {
    && source in depth && u in depth
    && (forall x: Id :: x in queue ==> x in depth && depth[u] <= depth[x] <= depth[u] + 1)
    && (forall i, j :: 0 <= i < j < |queue| ==> depth[queue[i]] <= depth[queue[j]])
    && (forall x: Id, y: Id :: x in depth && x !in queue && x != u && y in Out(m, x) ==> y in depth)
    && (forall y: Id :: y in done ==> y in depth)
    && (forall x: Id {:trigger depth[x]} :: x in depth ==> NoCloser(m, source, x, depth[x]))
  }

  // The same between two turns of the loop.
  ghost predicate Waiting(m: Edges, source: Id, depth: map<Id, nat>, queue: seq<Id>) {
    && source in depth
    && (forall x: Id :: x in queue ==> x in depth)
    && (queue != [] ==> forall x: Id :: x in queue ==> depth[queue[0]] <= depth[x] <= depth[queue[0]] + 1)
    && (forall i, j :: 0 <= i < j < |queue| ==> depth[queue[i]] <= depth[queue[j]])
    && (forall x: Id, y: Id :: x in depth && x !in queue && y in Out(m, x) ==> y in depth)
    && (forall x: Id {:trigger depth[x]} :: x in depth ==> NoCloser(m, source, x, depth[x]))
  }

  lemma SearchStart(m: Edges, source: Id)
    ensures Waiting(m, source, map[source := 0], [source])
  {
  }

  lemma SearchTake(m: Edges, source: Id, depth: map<Id, nat>, queue: seq<Id>)
    requires Waiting(m, source, depth, queue) && queue != []
    ensures Searching(m, source, depth, queue[1..], queue[0], [])
  {
    PopFirst(queue);
    forall x: Id | x in queue[1..] ensures x in queue {}
  }

  lemma SearchSeen(m: Edges, source: Id, depth: map<Id, nat>, queue: seq<Id>, u: Id, done: seq<Id>, v: Id)
    requires Searching(m, source, depth, queue, u, done) && v in depth
    ensures Searching(m, source, depth, queue, u, done + [v])
  {
  }

  lemma SearchEnter(m: Edges, source: Id, depth: map<Id, nat>, queue: seq<Id>, u: Id, done: seq<Id>, v: Id)
    requires Searching(m, source, depth, queue, u, done) && v !in depth && v in Out(m, u)
    ensures Searching(m, source, depth[v := depth[u] + 1], queue + [v], u, done + [v])
  {
    forall q | Joins(m, q, source, v) ensures |q| >= depth[u] + 2 {
      WalkLeaves(m, source, depth, queue, u, done, v, q, 0);
    }
    var depth' := depth[v := depth[u] + 1];
    assert NoCloser(m, source, v, depth'[v]);
    forall x: Id {:trigger depth'[x]} | x in depth' ensures NoCloser(m, source, x, depth'[x]) {
      if x != v {
        assert depth'[x] == depth[x];
      }
    }
  }

  // A walk to a node without a depth leaves the nodes with one from u or from the queue.
  lemma {:induction false} WalkLeaves(m: Edges, source: Id, depth: map<Id, nat>, queue: seq<Id>, u: Id,
          done: seq<Id>, v: Id, q: Path, k: nat)
    requires Searching(m, source, depth, queue, u, done) && v !in depth
    requires Joins(m, q, source, v) && k < |q| && q[k] in depth
    ensures |q| >= depth[u] + 2
    decreases |q| - k
  {
    assert k + 1 < |q|;
    assert q[k + 1] in Out(m, q[k]);
    if q[k + 1] in depth {
      WalkLeaves(m, source, depth, queue, u, done, v, q, k + 1);
    } else {
      var x := q[k];
      assert depth[u] <= depth[x];
      WalkPart(m, q, 0, k + 1);
      assert Joins(m, q[0..k + 1], source, x);
      assert NoCloser(m, source, x, depth[x]);
    }
  }

  lemma SearchNext(m: Edges, source: Id, depth: map<Id, nat>, queue: seq<Id>, u: Id)
    requires Searching(m, source, depth, queue, u, Out(m, u))
    ensures Waiting(m, source, depth, queue)
  {
    forall x: Id | x in queue ensures depth[queue[0]] <= depth[x] <= depth[queue[0]] + 1 {
      var i :| 0 <= i < |queue| && queue[i] == x;
      assert queue[0] in queue;
      assert i > 0 ==> depth[queue[0]] <= depth[queue[i]];
    }
  }

  // A second, longer or equal way to a node that has a depth never improves it.
  lemma NeverRelaxed(m: Edges, source: Id, depth: map<Id, nat>, queue: seq<Id>, u: Id, done: seq<Id>, v: Id, q: Path)
    requires Searching(m, source, depth, queue, u, done) && v in depth && v in Out(m, u)
    requires Joins(m, q, source, u) && |q| == depth[u] + 1
    ensures depth[v] <= depth[u] + 1
  {
    assert NoCloser(m, source, v, depth[v]);
    assert Joins(m, q + [v], source, v);
  }

  lemma SearchDone(m: Edges, source: Id, depth: map<Id, nat>)
    requires Waiting(m, source, depth, [])
    ensures forall x: Id {:trigger Reaches(m, source, x)} :: Reaches(m, source, x) ==> x in depth
  {
    assert ClosedUnder(m, depth.Keys);
    forall x: Id | Reaches(m, source, x) ensures x in depth {
      ClosedHoldsReachable(m, depth.Keys, source, x);
    }
  }

  // Walks that attain the recorded depths.
  ghost predicate Attained(m: Edges, source: Id, depth: map<Id, nat>, ways: map<Id, Path>) {
    && ways.Keys == depth.Keys
    && forall x: Id {:trigger ways[x]} :: x in depth ==> Joins(m, ways[x], source, x) && |ways[x]| == depth[x] + 1
  }

  lemma AttainNext(m: Edges, source: Id, depth: map<Id, nat>, ways: map<Id, Path>, u: Id, v: Id)
    requires Attained(m, source, depth, ways) && u in depth && v in Out(m, u) && v !in depth
    ensures Attained(m, source, depth[v := depth[u] + 1], ways[v := ways[u] + [v]])
  {
  }

  // The nodes still without a depth, all of them edge targets.
  ghost function Missing(m: Edges, source: Id, depth: map<Id, nat>): set<Id> {
    Universe(m, {source}) - depth.Keys
  }

  lemma EnterShrinks(m: Edges, source: Id, depth: map<Id, nat>, u: Id, v: Id, d: nat)
    requires v in Out(m, u) && v !in depth
    ensures |Missing(m, source, depth[v := d])| < |Missing(m, source, depth)|
  {
    assert u in m && v in m[u];
    assert Missing(m, source, depth[v := d]) == Missing(m, source, depth) - {v};
  }

  // One node of logFromObservation's search: enter or relax every previous revision.
  method RelaxAll(m: Edges, source: Id, depth0: map<Id, nat>, queue0: seq<Id>, u: Id, ghost ways0: map<Id, Path>)
      returns (depth: map<Id, nat>, queue: seq<Id>, ghost ways: map<Id, Path>)
    requires Searching(m, source, depth0, queue0, u, []) && Attained(m, source, depth0, ways0)
    ensures Waiting(m, source, depth, queue) && Attained(m, source, depth, ways)
    ensures |Missing(m, source, depth)| < |Missing(m, source, depth0)| || (depth == depth0 && queue == queue0)
  {
    depth, queue, ways := depth0, queue0, ways0;
    var next := Out(m, u);
    for i := 0 to |next|
      invariant Searching(m, source, depth, queue, u, next[..i]) && Attained(m, source, depth, ways)
      invariant |Missing(m, source, depth)| < |Missing(m, source, depth0)| || (depth == depth0 && queue == queue0)
    {
      var previous := next[i];
      TakeNext(next, i);
      assert previous in Out(m, u);
      if previous in depth {
        NeverRelaxed(m, source, depth, queue, u, next[..i], previous, ways[u]);
      }
      if previous !in depth || depth[u] + 1 < depth[previous] {
        assert previous !in depth;
        SearchEnter(m, source, depth, queue, u, next[..i], previous);
        AttainNext(m, source, depth, ways, u, previous);
        EnterShrinks(m, source, depth, u, previous, depth[u] + 1);
        ways := ways[previous := ways[u] + [previous]];
        depth := depth[previous := depth[u] + 1];
        queue := queue + [previous];
      } else {
        SearchSeen(m, source, depth, queue, u, next[..i], previous);
      }
    }
    assert next[..|next|] == next;
    SearchNext(m, source, depth, queue, u);
  }

  // MinimumDepth of Log: exactly the reachable Seals, each at its true distance.
  method Depths(m: Edges, head: Id) returns (depths: map<Id, nat>)
    ensures forall x: Id {:trigger Reaches(m, head, x)} :: x in depths <==> Reaches(m, head, x)
    ensures forall x: Id {:trigger depths[x]} :: x in depths ==> IsDistance(m, head, x, depths[x])
  {
    depths := map[head := 0];
    var queue := [head];
    ghost var ways: map<Id, Path> := map[head := [head]];
    DepthsStart(m, head);
    while queue != []
      invariant Waiting(m, head, depths, queue) && Attained(m, head, depths, ways)
      decreases |Missing(m, head, depths)|, |queue|
    {
      var id := queue[0];
      SearchTake(m, head, depths, queue);
      depths, queue, ways := RelaxAll(m, head, depths, queue[1..], id, ways);
    }
    DepthsAreDistances(m, head, depths, ways);
  }

  lemma DepthsStart(m: Edges, head: Id)
    ensures Waiting(m, head, map[head := 0], [head]) && Attained(m, head, map[head := 0], map[head := [head]])
  {
    SearchStart(m, head);
  }

  lemma DepthsAreDistances(m: Edges, head: Id, depths: map<Id, nat>, ways: map<Id, Path>)
    requires Waiting(m, head, depths, []) && Attained(m, head, depths, ways)
    ensures forall x: Id {:trigger Reaches(m, head, x)} :: x in depths <==> Reaches(m, head, x)
    ensures forall x: Id {:trigger depths[x]} :: x in depths ==> IsDistance(m, head, x, depths[x])
  {
    SearchDone(m, head, depths);
    forall x: Id {:trigger depths[x]} | x in depths
      ensures Reaches(m, head, x) && IsDistance(m, head, x, depths[x])
    {
      assert Joins(m, ways[x], head, x);
      assert NoCloser(m, head, x, depths[x]);
    }
  }

  // ------------------------------------------------- revision assertions in scope

  // filter names the observers whose assertions count; the empty filter admits all.
  predicate InScope(filter: set<Id>, a: AssertionSource) {
    filter == {} || a.observer in filter
  }

  ghost predicate ScopedEdge(assertions: map<Id, seq<AssertionSource>>, filter: set<Id>, t: Id, p: Id) {
    exists a :: a in About(assertions, t) && InScope(filter, a) && p in a.link.previous
  }

  ghost predicate ScopedRevisions(m: Edges, assertions: map<Id, seq<AssertionSource>>, filter: set<Id>) {
    && SortedEdges(m)
    && forall t: Id, p: Id {:trigger p in Out(m, t)} {:trigger ScopedEdge(assertions, filter, t, p)} ::
         p in Out(m, t) <==> ScopedEdge(assertions, filter, t, p)
  }

  // The unfiltered revisions of a built graph are all its assertions.
  lemma AllInScope(g: Graph)
    requires g.Gathered() && SortedEdges(g.revisions)
    ensures ScopedRevisions(g.revisions, g.assertions, {})
  {
    forall t: Id, p: Id ensures p in Out(g.revisions, t) <==> ScopedEdge(g.assertions, {}, t, p) {
      assert p in Out(g.revisions, t) <==> (t, p) in RevisionPairs(g.nodes);
      if (t, p) in RevisionPairs(g.nodes) {
        var o, l :| o in g.nodes && l in g.nodes[o].links && p in l.previous && l.target == t;
        assert AssertionSource(o, l) in AssertionSet(g.nodes);
        assert AssertionSource(o, l) in About(g.assertions, t);
      }
      if ScopedEdge(g.assertions, {}, t, p) {
        var a :| a in About(g.assertions, t) && InScope({}, a) && p in a.link.previous;
        assert a in AssertionSet(g.nodes);
      }
    }
  }

  // The previous revisions asserted of one target by the observers in the filter.
  method ScopedPrevious(sources: seq<AssertionSource>, filter: set<Id>) returns (r: seq<Id>)
    requires filter != {}
    ensures Increasing(r)
    ensures forall p: Id :: p in r <==> exists a :: a in sources && InScope(filter, a) && p in a.link.previous
  {
    r := [];
    for i := 0 to |sources|
      invariant NoDup(r)
      invariant forall p: Id :: p in r <==> exists a :: a in sources[..i] && InScope(filter, a) && p in a.link.previous
    {
      TakeNext(sources, i);
      ghost var before := r;
      if sources[i].observer in filter {
        var previous := sources[i].link.previous;
        for j := 0 to |previous|
          invariant NoDup(r)
          invariant forall p: Id :: p in r <==> p in before || p in previous[..j]
        {
          TakeNext(previous, j);
          r := AppendUnique(r, previous[j]);
        }
        assert previous[..|previous|] == previous;
      }
    }
    assert sources[..|sources|] == sources;
    SortIdsIncreasing(r);
    r := SortIds(r);
  }

  // The filtered map while the targets in todo are still to come.
  ghost predicate ScopedSoFar(m: Edges, assertions: map<Id, seq<AssertionSource>>, filter: set<Id>, todo: set<Id>) {
    && SortedEdges(m)
    && forall t: Id, p: Id {:trigger p in Out(m, t)} {:trigger ScopedEdge(assertions, filter, t, p)} ::
         p in Out(m, t) <==> t !in todo && ScopedEdge(assertions, filter, t, p)
  }

  lemma ScopedNext(m: Edges, assertions: map<Id, seq<AssertionSource>>, filter: set<Id>, todo: set<Id>, target: Id,
          previous: seq<Id>)
    requires ScopedSoFar(m, assertions, filter, todo) && target in todo && target in assertions
    requires Increasing(previous)
    requires forall p: Id :: p in previous <==>
              exists a :: a in assertions[target] && InScope(filter, a) && p in a.link.previous
    ensures ScopedSoFar(m[target := previous], assertions, filter, todo - {target})
  {
    var m' := m[target := previous];
    forall t: Id ensures Increasing(Out(m', t)) {
      assert t != target ==> Out(m', t) == Out(m, t);
    }
    forall t: Id, p: Id ensures p in Out(m', t) <==> t !in todo - {target} && ScopedEdge(assertions, filter, t, p) {
      if t != target {
        assert Out(m', t) == Out(m, t);
      } else {
        assert p in previous <==> ScopedEdge(assertions, filter, target, p);
      }
    }
  }

  method FilteredRevisions(g: Graph, filter: set<Id>) returns (r: Edges)
    requires g.Gathered() && SortedEdges(g.revisions)
    ensures ScopedRevisions(r, g.assertions, filter)
  {
    if filter == {} {
      AllInScope(g);
      return g.revisions;
    }
    r := map[];
    var todo := g.assertions.Keys;
    while todo != {}
      invariant todo <= g.assertions.Keys
      invariant ScopedSoFar(r, g.assertions, filter, todo)
      decreases todo
    {
      var target :| target in todo;
      var previous := ScopedPrevious(g.assertions[target], filter);
      ScopedNext(r, g.assertions, filter, todo, target, previous);
      todo := todo - {target};
      r := r[target := previous];
    }
  }

  // --------------------------------------------------------- revisionProof

  datatype RevisionEdge = RevisionEdge(target: Id, previous: Id, sources: seq<AssertionSource>)
  datatype ScopeState = SCOPE_UNOBSERVED | SCOPE_NONE_ASSERTED | SCOPE_ASSERTED
  datatype ScopedObservation = ScopedObservation(target: Id, states: seq<ScopeState>, assertions: seq<AssertionSource>,
                                                 structuralPrevious: seq<Id>)
  datatype RevisionProof = RevisionProof(sealIds: Path, observations: seq<ScopedObservation>, edges: seq<RevisionEdge>)

  // The first of all walks from source to x: by length, then Seal by Seal.
  ghost predicate LeastWay(m: Edges, source: Id, x: Id, way: Path) {
    Joins(m, way, source, x) && forall q :: Joins(m, q, source, x) ==> !PathLess(q, way)
  }

  function Front(p: Path): Path
    requires p != []
  {
    p[..|p| - 1]
  }

  // The chains found so far; a Seal is open while its chain waits in the queue or is current.
  ghost predicate Open(queue: seq<Path>, current: Path, way: Path) {
    way == current || way in queue
  }

  // What the search keeps while the chain current, already taken off, has had the successors
  // in done entered ([] between two turns): every chain is the first of its Seal, and they
  // are taken in order.
  ghost predicate Fanned(m: Edges, source: Id, ways: map<Id, Path>, queue: seq<Path>, current: Path, done: seq<Id>) {
    && source in ways
    && (forall x: Id {:trigger ways[x]} :: x in ways ==> LeastWay(m, source, x, ways[x]))
    && (forall q :: q in queue ==> Waits(ways, queue, current, done, q))
    && (forall i, j :: 0 <= i < j < |queue| ==> PathLess(queue[i], queue[j]))
    && (forall x: Id, y: Id {:trigger ways[x], y in Out(m, x)} ::
          x in ways && !Open(queue, current, ways[x]) && y in Out(m, x) ==> y in ways)
    && (forall y: Id :: y in done ==> y in ways)
  }

  // A queued chain comes after the current one and grew out of it or of one before it.
  ghost predicate Waits(ways: map<Id, Path>, queue: seq<Path>, current: Path, done: seq<Id>, q: Path) {
    && q != [] && Last(q) in ways && ways[Last(q)] == q
    && (current != [] ==> PathLess(current, q) && |q| <= |current| + 1)
    && (|q| >= 2 ==> if current == [] then forall w :: w in queue ==> PathLess(Front(q), w)
                     else PathLess(Front(q), current) || (Front(q) == current && Last(q) in done))
  }

  lemma FanStart(m: Edges, source: Id)
    ensures Fanned(m, source, map[source := [source]], [[source]], [], [])
  {
    PathOrder();
    assert Joins(m, [source], source, source);
    forall q | Joins(m, q, source, source) ensures !PathLess(q, [source]) {
      assert |q| == 1 ==> q == [source];
    }
  }

  lemma FanTake(m: Edges, source: Id, ways: map<Id, Path>, queue: seq<Path>)
    requires Fanned(m, source, ways, queue, [], []) && queue != []
    ensures queue[0] != [] && Last(queue[0]) in ways && ways[Last(queue[0])] == queue[0]
    ensures Fanned(m, source, ways, queue[1..], queue[0], [])
  {
    var current, rest := queue[0], queue[1..];
    assert current in queue && Waits(ways, queue, [], [], current);
    assert queue == [current] + rest;
    assert forall q :: q in queue <==> q == current || q in rest;
    forall q | q in rest ensures Waits(ways, rest, current, [], q) {
      assert Waits(ways, queue, [], [], q);
      var i :| 0 <= i < |rest| && rest[i] == q;
      assert queue[i + 1] == q;
    }
  }

  // A walk to a Seal not found yet leaves the found ones at an open Seal.
  lemma {:induction false} WalkLeavesOpen(m: Edges, source: Id, ways: map<Id, Path>, queue: seq<Path>, current: Path,
          done: seq<Id>, v: Id, q: Path, k: nat) returns (i: nat)
    requires Fanned(m, source, ways, queue, current, done) && v !in ways
    requires Joins(m, q, source, v) && k < |q| && q[k] in ways
    ensures k <= i < |q| - 1 && q[i] in ways && Open(queue, current, ways[q[i]])
    decreases |q| - k
  {
    assert q[k + 1] in Out(m, q[k]);
    if Open(queue, current, ways[q[k]]) {
      i := k;
    } else {
      i := WalkLeavesOpen(m, source, ways, queue, current, done, v, q, k + 1);
    }
  }

  // So the chain grown from the current one is the first to reach a new Seal.
  lemma NewIsLeast(m: Edges, source: Id, ways: map<Id, Path>, queue: seq<Path>, current: Path, done: seq<Id>, v: Id)
    requires Fanned(m, source, ways, queue, current, done) && v !in ways
    requires current != [] && Last(current) in ways && ways[Last(current)] == current && v in Out(m, Last(current))
    ensures LeastWay(m, source, v, current + [v])
  {
    assert LeastWay(m, source, Last(current), current);
    assert Joins(m, current + [v], source, v);
    forall q | Joins(m, q, source, v) ensures !PathLess(q, current + [v]) {
      var i := WalkLeavesOpen(m, source, ways, queue, current, done, v, q, 0);
      WalkPart(m, q, 0, i + 1);
      assert q[0..i + 1] == q[..i + 1];
      OpenIsLater(m, source, ways, queue, current, done, q[i], q[..i + 1]);
      NotBefore(current, q, v, i);
    }
  }

  // No walk to an open Seal comes before the current chain.
  lemma OpenIsLater(m: Edges, source: Id, ways: map<Id, Path>, queue: seq<Path>, current: Path, done: seq<Id>, y: Id,
          q: Path)
    requires Fanned(m, source, ways, queue, current, done) && current != []
    requires y in ways && Open(queue, current, ways[y]) && Joins(m, q, source, y)
    ensures !PathLess(q, current)
  {
    PathOrder();
    assert LeastWay(m, source, y, ways[y]);
    if ways[y] != current {
      assert Waits(ways, queue, current, done, ways[y]);
    }
  }

  lemma NotBefore(current: Path, q: Path, v: Id, i: nat)
    requires i < |q| - 1 && Last(q) == v && !PathLess(q[..i + 1], current)
    ensures !PathLess(q, current + [v])
  {
    PathOrder();
    if i == |q| - 2 {
      assert q == q[..i + 1] + [v];
      if q[..i + 1] != current {
        PathGrow(current, q[..i + 1], v);
      }
    }
  }

  lemma FanEnter(m: Edges, source: Id, ways: map<Id, Path>, queue: seq<Path>, current: Path, done: seq<Id>, v: Id)
    requires Fanned(m, source, ways, queue, current, done) && v !in ways && forall x: Id :: x in done ==> x < v
    requires current != [] && Last(current) in ways && ways[Last(current)] == current && v in Out(m, Last(current))
    ensures Fanned(m, source, ways[v := current + [v]], queue + [current + [v]], current, done + [v])
  {
    var c, ways', queue', done' := current + [v], ways[v := current + [v]], queue + [current + [v]], done + [v];
    assert Front(c) == current && Last(c) == v;
    NewIsLeast(m, source, ways, queue, current, done, v);
    forall q | q in queue ensures PathLess(q, c) && Waits(ways', queue', current, done', q) {
      assert Waits(ways, queue, current, done, q);
      GrownComesLast(current, done, v, q);
    }
    assert PathLess(current, c) && Waits(ways', queue', current, done', c);
    forall x: Id | x in ways' ensures LeastWay(m, source, x, ways'[x]) {
      assert x != v ==> ways'[x] == ways[x];
    }
    forall x: Id, y: Id | x in ways' && !Open(queue', current, ways'[x]) && y in Out(m, x) ensures y in ways' {
      assert x != v by { assert queue'[|queue|] == c; }
      assert ways'[x] == ways[x] && !Open(queue, current, ways[x]);
    }
  }

  lemma GrownComesLast(current: Path, done: seq<Id>, v: Id, q: Path)
    requires current != [] && q != [] && PathLess(current, q) && |q| <= |current| + 1
    requires |q| >= 2 ==> PathLess(Front(q), current) || (Front(q) == current && Last(q) in done)
    requires forall x: Id :: x in done ==> x < v
    ensures PathLess(q, current + [v])
  {
    if |q| == |current| + 1 {
      LexGrow(Front(q), current, Last(q), v);
      assert q == Front(q) + [Last(q)];
    }
  }

  lemma FanSeen(m: Edges, source: Id, ways: map<Id, Path>, queue: seq<Path>, current: Path, done: seq<Id>, v: Id)
    requires Fanned(m, source, ways, queue, current, done) && v in ways
    ensures Fanned(m, source, ways, queue, current, done + [v])
  {
    forall q | q in queue ensures Waits(ways, queue, current, done + [v], q) {
      assert Waits(ways, queue, current, done, q);
    }
  }

  lemma FanNext(m: Edges, source: Id, ways: map<Id, Path>, queue: seq<Path>, current: Path)
    requires current != [] && Last(current) in ways && ways[Last(current)] == current
    requires Fanned(m, source, ways, queue, current, Out(m, Last(current)))
    ensures Fanned(m, source, ways, queue, [], [])
  {
    PathOrder();
    var done := Out(m, Last(current));
    forall q | q in queue ensures Waits(ways, queue, [], [], q) {
      assert Waits(ways, queue, current, done, q);
      forall w | w in queue ensures |q| >= 2 ==> PathLess(Front(q), w) {
        assert Waits(ways, queue, current, done, w);
      }
    }
    forall x: Id, y: Id | x in ways && !Open(queue, [], ways[x]) && y in Out(m, x) ensures y in ways {
      if ways[x] == current {
        assert LeastWay(m, source, x, ways[x]);
      }
    }
  }

  lemma FanDone(m: Edges, source: Id, ways: map<Id, Path>)
    requires Fanned(m, source, ways, [], [], [])
    ensures forall x: Id {:trigger Reaches(m, source, x)} :: Reaches(m, source, x) ==> x in ways
  {
    forall a: Id, b: Id | a in ways && b in Out(m, a) ensures b in ways {
      assert LeastWay(m, source, a, ways[a]);
    }
    assert ClosedUnder(m, ways.Keys);
    forall x: Id | Reaches(m, source, x) ensures x in ways {
      ClosedHoldsReachable(m, ways.Keys, source, x);
    }
  }

  // Nothing found is lost, and every new chain is queued.
  ghost predicate Extended(ways0: map<Id, Path>, queue0: seq<Path>, ways: map<Id, Path>, queue: seq<Path>) {
    && (forall x: Id {:trigger ways0[x]} :: x in ways0 ==> x in ways && ways[x] == ways0[x])
    && (forall x: Id {:trigger ways[x]} :: x in ways && x !in ways0 ==> ways[x] in queue)
    && forall q :: q in queue0 ==> q in queue
  }

  lemma ExtendedNext(ways0: map<Id, Path>, queue0: seq<Path>, ways: map<Id, Path>, queue: seq<Path>, v: Id, c: Path)
    requires Extended(ways0, queue0, ways, queue) && v !in ways
    ensures Extended(ways0, queue0, ways[v := c], queue + [c])
  {
    assert (queue + [c])[|queue|] == c;
  }

  lemma ExtendedTwice(w0: map<Id, Path>, q0: seq<Path>, w1: map<Id, Path>, q1: seq<Path>, w2: map<Id, Path>,
          q2: seq<Path>)
    requires Extended(w0, q0, w1, q1) && Extended(w1, q1, w2, q2)
    ensures Extended(w0, q0, w2, q2)
  {
  }

  lemma EarlierLess(s: seq<Id>, i: nat)
    requires Increasing(s) && i < |s|
    ensures s[..i + 1] == s[..i] + [s[i]] && s[i] in s && forall x: Id :: x in s[..i] ==> x < s[i]
  {
  }

  // One edge of the search: a Seal not seen before gets its chain.
  method ExtendOne(m: Edges, source: Id, current: Path, v: Id, queue0: seq<Path>, seen0: set<Id>,
          ghost ways0: map<Id, Path>, ghost done: seq<Id>)
      returns (queue: seq<Path>, seen: set<Id>, ghost ways: map<Id, Path>)
    requires Fanned(m, source, ways0, queue0, current, done) && seen0 == ways0.Keys
    requires current != [] && Last(current) in ways0 && ways0[Last(current)] == current
    requires v in Out(m, Last(current)) && forall x: Id :: x in done ==> x < v
    ensures Fanned(m, source, ways, queue, current, done + [v]) && seen == ways.Keys
    ensures Extended(ways0, queue0, ways, queue)
    ensures |Unseen(m, source, seen)| < |Unseen(m, source, seen0)| || (ways == ways0 && queue == queue0)
  {
    if v in seen0 {
      FanSeen(m, source, ways0, queue0, current, done, v);
      return queue0, seen0, ways0;
    }
    FanEnter(m, source, ways0, queue0, current, done, v);
    ExtendedNext(ways0, queue0, ways0, queue0, v, current + [v]);
    UnseenShrinks(m, source, seen0, Last(current), v);
    queue, seen, ways := queue0 + [current + [v]], seen0 + {v}, ways0[v := current + [v]];
  }

  // One node of the search: queue a longer chain for every node not seen before.
  method ExtendChains(m: Edges, source: Id, current: Path, queue0: seq<Path>, seen0: set<Id>,
          ghost ways0: map<Id, Path>)
      returns (queue: seq<Path>, seen: set<Id>, ghost ways: map<Id, Path>)
    requires Fanned(m, source, ways0, queue0, current, []) && seen0 == ways0.Keys && SortedEdges(m)
    requires current != [] && Last(current) in ways0 && ways0[Last(current)] == current
    ensures Fanned(m, source, ways, queue, [], []) && seen == ways.Keys
    ensures |Unseen(m, source, seen)| < |Unseen(m, source, seen0)| || (ways == ways0 && queue == queue0)
    ensures Extended(ways0, queue0, ways, queue)
  {
    queue, seen, ways := queue0, seen0, ways0;
    var next := Out(m, Last(current));
    assert Increasing(next);
    for i := 0 to |next|
      invariant Fanned(m, source, ways, queue, current, next[..i]) && seen == ways.Keys
      invariant Extended(ways0, queue0, ways, queue)
      invariant |Unseen(m, source, seen)| < |Unseen(m, source, seen0)| || (ways == ways0 && queue == queue0)
    {
      ghost var queue1, ways1 := queue, ways;
      EarlierLess(next, i);
      queue, seen, ways := ExtendOne(m, source, current, next[i], queue, seen, ways, next[..i]);
      ExtendedTwice(ways0, queue0, ways1, queue1, ways, queue);
    }
    assert next[..|next|] == next;
    FanNext(m, source, ways, queue, current);
  }

  // The nodes still without a chain, all of them edge targets.
  ghost function Unseen(m: Edges, source: Id, seen: set<Id>): set<Id> {
    Universe(m, {source}) - seen
  }

  lemma UnseenShrinks(m: Edges, source: Id, seen: set<Id>, u: Id, v: Id)
    requires v in Out(m, u) && v !in seen
    ensures |Unseen(m, source, seen + {v})| < |Unseen(m, source, seen)|
  {
    assert u in m && v in m[u];
    assert Unseen(m, source, seen + {v}) == Unseen(m, source, seen) - {v};
  }

  // The state of the search: the target is still ahead once it was seen.
  ghost predicate Ahead(m: Edges, source: Id, target: Id, ways: map<Id, Path>, queue: seq<Path>, seen: set<Id>) {
    Fanned(m, source, ways, queue, [], []) && seen == ways.Keys && (target in ways ==> ways[target] in queue)
  }

  // The first queued chain does not end at the target.
  method PassChain(m: Edges, source: Id, target: Id, queue0: seq<Path>, seen0: set<Id>, ghost ways0: map<Id, Path>)
      returns (queue: seq<Path>, seen: set<Id>, ghost ways: map<Id, Path>)
    requires Ahead(m, source, target, ways0, queue0, seen0) && queue0 != [] && SortedEdges(m)
    requires queue0[0] != [] ==> Last(queue0[0]) != target
    ensures Ahead(m, source, target, ways, queue, seen)
    ensures |Unseen(m, source, seen)| < |Unseen(m, source, seen0)| || (seen == seen0 && |queue| < |queue0|)
  {
    FanTake(m, source, ways0, queue0);
    queue, seen, ways := ExtendChains(m, source, queue0[0], queue0[1..], seen0, ways0);
    StillAhead(m, source, target, ways0, queue0, ways, queue);
  }

  lemma StillAhead(m: Edges, source: Id, target: Id, ways0: map<Id, Path>, queue0: seq<Path>, ways: map<Id, Path>,
          queue: seq<Path>)
    requires Fanned(m, source, ways0, queue0, [], []) && queue0 != [] && Extended(ways0, queue0[1..], ways, queue)
    requires target in ways0 ==> ways0[target] in queue0
    requires queue0[0] != [] ==> Last(queue0[0]) != target
    ensures target in ways ==> ways[target] in queue
  {
    if target in ways0 {
      assert LeastWay(m, source, target, ways0[target]);
      assert queue0 == [queue0[0]] + queue0[1..];
    }
  }

  // The first of the shortest chains from source to target, or nothing when there is none.
  method ShortestChain(m: Edges, source: Id, target: Id) returns (path: Path)
    requires SortedEdges(m)
    ensures path != [] <==> Reaches(m, source, target)
    ensures path != [] ==> LeastWay(m, source, target, path) && IsDistance(m, source, target, |path| - 1)
  {
    var queue: seq<Path> := [[source]];
    var seen := {source};
    ghost var ways: map<Id, Path> := map[source := [source]];
    FanStart(m, source);
    while queue != []
      invariant Ahead(m, source, target, ways, queue, seen)
      decreases |Unseen(m, source, seen)|, |queue|
    {
      var current := queue[0];
      FanTake(m, source, ways, queue);
      if Last(current) == target {
        LeastIsDistance(m, source, target, current);
        return current;
      }
      queue, seen, ways := PassChain(m, source, target, queue, seen, ways);
    }
    FanDone(m, source, ways);
    path := [];
  }

  lemma LeastIsDistance(m: Edges, source: Id, x: Id, way: Path)
    requires LeastWay(m, source, x, way)
    ensures IsDistance(m, source, x, |way| - 1) && Reaches(m, source, x)
  {
  }

  ghost predicate Backs(assertions: map<Id, seq<AssertionSource>>, filter: set<Id>, e: RevisionEdge) {
    && e.sources != []
    && forall a :: a in e.sources <==>
         && a in About(assertions, e.target) && InScope(filter, a)
         && e.previous in a.link.previous
  }

  // The in-scope assertions that name this previous revision, in their order.
  ghost function Supporting(sources: seq<AssertionSource>, filter: set<Id>, previous: Id): seq<AssertionSource> {
    if sources == [] then []
    else
      var last := sources[|sources| - 1];
      Supporting(sources[..|sources| - 1], filter, previous)
      + if InScope(filter, last) && previous in last.link.previous then [last] else []
  }

  lemma SupportingNext(sources: seq<AssertionSource>, filter: set<Id>, previous: Id, i: nat)
    requires i < |sources|
    ensures Supporting(sources[..i + 1], filter, previous) == Supporting(sources[..i], filter, previous)
              + if InScope(filter, sources[i]) && previous in sources[i].link.previous then [sources[i]] else []
  {
    assert sources[..i + 1][..i] == sources[..i];
  }

  // The in-scope assertions behind one edge of the chain.
  method EdgeSources(sources: seq<AssertionSource>, filter: set<Id>, previous: Id) returns (r: seq<AssertionSource>)
    ensures forall a :: a in r <==> a in sources && InScope(filter, a) && previous in a.link.previous
    ensures (forall a :: a in sources ==> NoDup(a.link.previous)) ==> r == Supporting(sources, filter, previous)
  {
    r := [];
    for i := 0 to |sources|
      invariant forall a :: a in r <==> a in sources[..i] && InScope(filter, a) && previous in a.link.previous
      invariant (forall a :: a in sources ==> NoDup(a.link.previous)) ==>
                  r == Supporting(sources[..i], filter, previous)
    {
      TakeNext(sources, i);
      SupportingNext(sources, filter, previous, i);
      var assertion := sources[i];
      if filter != {} && assertion.observer !in filter {
        continue;
      }
      ghost var before := r;
      for j := 0 to |assertion.link.previous|
        invariant forall a :: a in r <==> a in before || (a == assertion && previous in assertion.link.previous[..j])
        invariant NoDup(assertion.link.previous) ==>
                    r == before + if previous in assertion.link.previous[..j] then [assertion] else []
      {
        TakeNext(assertion.link.previous, j);
        if assertion.link.previous[j] == previous {
          r := r + [assertion];
        }
      }
      assert assertion.link.previous[..|assertion.link.previous|] == assertion.link.previous;
    }
    assert sources[..|sources|] == sources;
  }

  ghost predicate Proves(proof: RevisionProof, m: Edges, assertions: map<Id, seq<AssertionSource>>, filter: set<Id>,
          source: Id, target: Id) {
    && proof.sealIds != [] && LeastWay(m, source, target, proof.sealIds)
    && IsDistance(m, source, target, |proof.sealIds| - 1)
    && |proof.observations| == |proof.sealIds| && |proof.edges| == |proof.sealIds| - 1
    && (forall i :: 0 <= i < |proof.sealIds| ==>
          ObservesScope(proof.observations[i], assertions, filter, proof.sealIds[i]))
    && forall i :: 0 <= i < |proof.edges| ==> EdgeProved(proof.sealIds, i, proof.edges[i], assertions, filter)
  }

  ghost predicate EdgeProved(path: Path, i: nat, e: RevisionEdge, assertions: map<Id, seq<AssertionSource>>,
          filter: set<Id>) {
    i + 1 < |path| && e.target == path[i] && e.previous == path[i + 1] && Backs(assertions, filter, e)
  }

  method ChainEdges(path: Path, revisions: Edges, assertions: map<Id, seq<AssertionSource>>, filter: set<Id>)
      returns (edges: seq<RevisionEdge>)
    requires IsWalk(revisions, path) && ScopedRevisions(revisions, assertions, filter)
    ensures |edges| == |path| - 1
    ensures forall i :: 0 <= i < |edges| ==> EdgeProved(path, i, edges[i], assertions, filter)
  {
    edges := [];
    for i := 0 to |path| - 1
      invariant |edges| == i
      invariant forall k :: 0 <= k < i ==> EdgeProved(path, k, edges[k], assertions, filter)
    {
      var sources := EdgeSources(About(assertions, path[i]), filter, path[i + 1]);
      assert path[i + 1] in Out(revisions, path[i]);
      assert ScopedEdge(assertions, filter, path[i], path[i + 1]);
      edges := edges + [RevisionEdge(path[i], path[i + 1], sources)];
    }
  }

  // ---------------------------------------------- what is asserted in scope

  // The in-scope assertions, in order.
  function Scoped(sources: seq<AssertionSource>, filter: set<Id>): seq<AssertionSource> {
    if sources == [] then []
    else
      var last := sources[|sources| - 1];
      Scoped(sources[..|sources| - 1], filter) + if InScope(filter, last) then [last] else []
  }

  lemma {:induction false} ScopedMembers(sources: seq<AssertionSource>, filter: set<Id>)
    ensures forall a :: a in Scoped(sources, filter) <==> a in sources && InScope(filter, a)
  {
    if sources != [] {
      ScopedMembers(sources[..|sources| - 1], filter);
      assert sources == sources[..|sources| - 1] + [sources[|sources| - 1]];
    }
  }

  method ScopedAssertions(sources: seq<AssertionSource>, filter: set<Id>) returns (r: seq<AssertionSource>)
    ensures r == Scoped(sources, filter)
  {
    r := [];
    for i := 0 to |sources|
      invariant r == Scoped(sources[..i], filter)
    {
      assert sources[..i + 1][..i] == sources[..i];
      if filter == {} || sources[i].observer in filter {
        r := r + [sources[i]];
      }
    }
    assert sources[..|sources|] == sources;
  }

  predicate SaysNone(assertions: seq<AssertionSource>) {
    exists i :: 0 <= i < |assertions| && assertions[i].link.previous == []
  }

  predicate SaysSome(assertions: seq<AssertionSource>) {
    exists i :: 0 <= i < |assertions| && assertions[i].link.previous != []
  }

  function StatesOf(assertions: seq<AssertionSource>): seq<ScopeState> {
    if assertions == [] then [SCOPE_UNOBSERVED]
    else
      (if SaysNone(assertions) then [SCOPE_NONE_ASSERTED] else [])
      + (if SaysSome(assertions) then [SCOPE_ASSERTED] else [])
  }

  // The scoped assertions about id, what they say of its previous revisions and which those are.
  ghost predicate ObservesScope(o: ScopedObservation, assertions: map<Id, seq<AssertionSource>>, filter: set<Id>,
          id: Id)
  {
    && o.target == id && o.assertions == Scoped(About(assertions, id), filter) && o.states == StatesOf(o.assertions)
    && Increasing(o.structuralPrevious)
    && forall p: Id {:trigger ScopedEdge(assertions, filter, id, p)} ::
         p in o.structuralPrevious <==> ScopedEdge(assertions, filter, id, p)
  }

  // One pass over the scoped assertions.
  method ReadAssertions(assertions: seq<AssertionSource>) returns (none: bool, asserted: bool, previous: seq<Id>)
    ensures none == SaysNone(assertions) && asserted == SaysSome(assertions)
    ensures Increasing(previous)
    ensures forall p: Id :: p in previous <==> exists a :: a in assertions && p in a.link.previous
  {
    none, asserted, previous := false, false, [];
    for i := 0 to |assertions|
      invariant none == SaysNone(assertions[..i]) && asserted == SaysSome(assertions[..i])
      invariant NoDup(previous)
      invariant forall p: Id :: p in previous <==> exists a :: a in assertions[..i] && p in a.link.previous
    {
      TakeNext(assertions, i);
      SaysNext(assertions, i);
      if assertions[i].link.previous == [] {
        none := true;
      } else {
        asserted := true;
      }
      previous := AppendAllUnique(previous, assertions[i].link.previous);
    }
    assert assertions[..|assertions|] == assertions;
    SortIdsIncreasing(previous);
    previous := SortIds(previous);
  }

  lemma SaysNext(assertions: seq<AssertionSource>, i: nat)
    requires i < |assertions|
    ensures SaysNone(assertions[..i + 1]) <==> SaysNone(assertions[..i]) || assertions[i].link.previous == []
    ensures SaysSome(assertions[..i + 1]) <==> SaysSome(assertions[..i]) || assertions[i].link.previous != []
  {
    var more, less := assertions[..i + 1], assertions[..i];
    assert more[i] == assertions[i] && forall k :: 0 <= k < i ==> more[k] == less[k];
  }

  method AppendAllUnique(to: seq<Id>, more: seq<Id>) returns (r: seq<Id>)
    requires NoDup(to)
    ensures NoDup(r) && forall p: Id :: p in r <==> p in to || p in more
  {
    r := to;
    for j := 0 to |more|
      invariant NoDup(r)
      invariant forall p: Id :: p in r <==> p in to || p in more[..j]
    {
      TakeNext(more, j);
      r := AppendUnique(r, more[j]);
    }
    assert more[..|more|] == more;
  }

  method ScopedRevisionObservation(assertions: map<Id, seq<AssertionSource>>, id: Id, filter: set<Id>)
      returns (o: ScopedObservation)
    ensures ObservesScope(o, assertions, filter, id)
  {
    var scoped := ScopedAssertions(About(assertions, id), filter);
    ScopedMembers(About(assertions, id), filter);
    var none, asserted, previous := ReadAssertions(scoped);
    var states := [];
    if scoped == [] {
      states := [SCOPE_UNOBSERVED];
    } else {
      if none {
        states := states + [SCOPE_NONE_ASSERTED];
      }
      if asserted {
        states := states + [SCOPE_ASSERTED];
      }
    }
    o := ScopedObservation(id, states, scoped, previous);
    forall p: Id ensures p in previous <==> ScopedEdge(assertions, filter, id, p) {}
  }

  // A Seal nothing in scope speaks of has no previous revision in scope, and conversely.
  lemma StatesTell(o: ScopedObservation, assertions: map<Id, seq<AssertionSource>>, filter: set<Id>, id: Id)
    requires ObservesScope(o, assertions, filter, id)
    ensures SCOPE_ASSERTED in o.states <==> o.structuralPrevious != []
    ensures SCOPE_UNOBSERVED in o.states <==> forall a :: a in About(assertions, id) ==> !InScope(filter, a)
  {
    ScopedMembers(About(assertions, id), filter);
    assert o.assertions != [] ==> o.assertions[0] in o.assertions;
    if SaysSome(o.assertions) {
      var i :| 0 <= i < |o.assertions| && o.assertions[i].link.previous != [];
      var p := o.assertions[i].link.previous[0];
      assert o.assertions[i] in o.assertions && p in o.assertions[i].link.previous;
      assert ScopedEdge(assertions, filter, id, p);
    }
    if o.structuralPrevious != [] {
      var p := o.structuralPrevious[0];
      assert p in o.structuralPrevious && ScopedEdge(assertions, filter, id, p);
      var a :| a in About(assertions, id) && InScope(filter, a) && p in a.link.previous;
      assert a in o.assertions;
    }
  }

  // The observations along the chain.
  method ChainObservations(path: Path, assertions: map<Id, seq<AssertionSource>>, filter: set<Id>)
      returns (r: seq<ScopedObservation>)
    ensures |r| == |path| && forall i :: 0 <= i < |path| ==> ObservesScope(r[i], assertions, filter, path[i])
  {
    r := [];
    for i := 0 to |path|
      invariant |r| == i && forall k :: 0 <= k < i ==> ObservesScope(r[k], assertions, filter, path[k])
    {
      var o := ScopedRevisionObservation(assertions, path[i], filter);
      r := r + [o];
    }
  }

  // revisionProof: a shortest in-scope chain with what is asserted in scope of each of its
  // Seals, and a non-empty, complete list of supporting assertions on every edge; it fails
  // only when there is no chain.
  method ProveRevision(g: Graph, source: Id, target: Id, revisions: Edges, filter: set<Id>)
      returns (r: Option<RevisionProof>)
    requires ScopedRevisions(revisions, g.assertions, filter)
    ensures r.Some? <==> Reaches(revisions, source, target)
    ensures r.Some? ==> Proves(r.value, revisions, g.assertions, filter, source, target)
  {
    var path := ShortestChain(revisions, source, target);
    if path == [] {
      return None;
    }
    var observations := ChainObservations(path, g.assertions, filter);
    var edges := ChainEdges(path, revisions, g.assertions, filter);
    r := Some(RevisionProof(path, observations, edges));
  }
}
