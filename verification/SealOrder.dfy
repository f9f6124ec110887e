/** The dependency-first order of format-4 Seals (internal/migration/universal_blob_v1.go). */
module SealOrder {
  import opened Ids
  import opened Walks

  datatype Link = Link(target: Id, message: string)
  datatype Payload = Payload(parent: Option<Id>, content: Id, attachments: seq<Attachment>, links: seq<Link>,
      root: bool, draft: bool)
  datatype SealRecord = SealRecord(id: Id, payload: Payload)

  datatype OrderError = Absent(seal: Id, dependency: Id) | Cycle | Duplicate(id: Id)

  // The parent revision, then the Cause targets.
  function DependencyList(p: Payload): (r: seq<Id>)
    ensures forall x: Id :: x in r <==> (p.parent == Some(x) || exists l :: l in p.links && l.target == x)
  {
    var targets := seq(|p.links|, i requires 0 <= i < |p.links| => p.links[i].target);
    assert forall l :: l in p.links ==> exists i :: 0 <= i < |p.links| && p.links[i] == l && targets[i] == l.target;
    (if p.parent.Some? then [p.parent.value] else []) + targets
  }

  function Dependencies(seals: map<Id, Payload>): Edges {
    map id | id in seals :: DependencyList(seals[id])
  }

  // A Seal depends on its parent and on what it links.
  lemma DependencyEdges(seals: map<Id, Payload>, a: Id, b: Id)
    ensures b in Out(Dependencies(seals), a) <==>
            a in seals && (seals[a].parent == Some(b) || exists l :: l in seals[a].links && l.target == b)
  {
  }

  // --------------------------------------------------------- what an order is

  ghost predicate DependencyFirst(m: Edges, order: seq<Id>) {
    forall i: nat, d: Id :: i < |order| && d in Out(m, order[i]) ==> d in order[..i]
  }

  ghost predicate Orders(m: Edges, S: set<Id>, order: seq<Id>) {
    NoDup(order) && Elems(order) == S && DependencyFirst(m, order)
  }

  // x could come next: it is left over and all its dependencies are placed.
  ghost predicate Available(m: Edges, S: set<Id>, placed: seq<Id>, x: Id) {
    x in S && x !in placed && forall d: Id :: d in Out(m, x) ==> d in placed
  }

  ghost predicate LeastAvailable(m: Edges, S: set<Id>, placed: seq<Id>, x: Id) {
    Available(m, S, placed, x) && forall y: Id :: Available(m, S, placed, y) ==> x <= y
  }

  // The order that always takes the least Seal whose dependencies are placed.
  ghost predicate Greedy(m: Edges, S: set<Id>, order: seq<Id>) {
    forall i: nat {:trigger LeastAvailable(m, S, order[..i], order[i])} :: i < |order| ==>
        LeastAvailable(m, S, order[..i], order[i])
  }

  ghost predicate Canonical(m: Edges, S: set<Id>, order: seq<Id>) {
    Greedy(m, S, order) && Elems(order) == S
  }

  lemma CanonicalOrders(m: Edges, S: set<Id>, order: seq<Id>)
    requires Canonical(m, S, order)
    ensures Orders(m, S, order)
  {
    forall i, j | 0 <= i < j < |order| ensures order[i] != order[j] {
      assert LeastAvailable(m, S, order[..j], order[j]);
      assert order[..j][i] == order[i];
    }
    forall i: nat, d: Id | i < |order| && d in Out(m, order[i]) ensures d in order[..i] {
      assert LeastAvailable(m, S, order[..i], order[i]);
    }
  }

  // No dependency-first order comes before it: it is the lexicographically least one.
  lemma {:induction false} CanonicalIsLeast(m: Edges, S: set<Id>, order: seq<Id>, other: seq<Id>, k: nat)
    requires Canonical(m, S, order) && Orders(m, S, other)
    requires k <= |order| && k <= |other| && order[..k] == other[..k]
    ensures |order| == |other| && (order[k..] == other[k..] || LexLess(order[k..], other[k..]))
    decreases |order| - k
  {
    CanonicalOrders(m, S, order);
    NoDupSize(order);
    NoDupSize(other);
    if k < |order| {
      assert Available(m, S, other[..k], other[k]) by {
        assert other[k] in Elems(other);
        assert other[k] !in other[..k];
      }
      assert LeastAvailable(m, S, order[..k], order[k]);
      if order[k] == other[k] {
        TakeNext(order, k);
        TakeNext(other, k);
        CanonicalIsLeast(m, S, order, other, k + 1);
        assert order[k..] == [order[k]] + order[k + 1..] && other[k..] == [other[k]] + other[k + 1..];
      }
    }
  }

  lemma CanonicalUnique(m: Edges, S: set<Id>, a: seq<Id>, b: seq<Id>)
    requires Canonical(m, S, a) && Canonical(m, S, b)
    ensures a == b
  {
    CanonicalOrders(m, S, a);
    CanonicalOrders(m, S, b);
    CanonicalIsLeast(m, S, a, b, 0);
    CanonicalIsLeast(m, S, b, a, 0);
    assert a[0..] == a && b[0..] == b;
    LexTotal(a, b);
  }

  // An order ranks the Seals by their place, so its graph is closed and acyclic.
  lemma OrderedIsAcyclic(m: Edges, S: set<Id>, order: seq<Id>)
    requires Orders(m, S, order)
    ensures ClosedUnder(m, S) && Acyclic(S, m)
  {
    var rank := map x: Id | x in S :: Place(order, x);
    forall a: Id, b: Id | a in S && b in Out(m, a) ensures b in S && RankOf(rank, b) < RankOf(rank, a) {
      var i := Place(order, a);
      assert b in order[..i];
      assert b in Elems(order);
      PlaceBefore(order, i, b);
    }
    RankedIsAcyclic(S, m, rank);
  }

  ghost function Place(order: seq<Id>, x: Id): (i: nat)
    ensures x in order ==> i < |order| && order[i] == x
  {
    if x in order then var i :| 0 <= i < |order| && order[i] == x; i else 0
  }

  lemma PlaceBefore(order: seq<Id>, i: nat, x: Id)
    requires NoDup(order) && i <= |order| && x in order[..i]
    ensures Place(order, x) < i
  {
    var j :| 0 <= j < i && order[j] == x;
    assert order[Place(order, x)] == x;
  }

  // ------------------------------------------------ when the list runs dry early

  ghost predicate WaitsWithin(m: Edges, U: set<Id>, y: Id) {
    exists d: Id :: d in Out(m, y) && d in U
  }

  ghost predicate AllWaitWithin(m: Edges, U: set<Id>) {
    forall y: Id {:trigger WaitsWithin(m, U, y)} :: y in U ==> WaitsWithin(m, U, y)
  }

  lemma {:induction false} LongWalk(m: Edges, U: set<Id>, x: Id, n: nat) returns (p: Path)
    requires x in U && AllWaitWithin(m, U)
    ensures IsWalk(m, p) && p[0] == x && |p| == n + 1 && forall y :: y in p ==> y in U
    decreases n
  {
    if n == 0 {
      p := [x];
    } else {
      assert WaitsWithin(m, U, x);
      var d: Id :| d in Out(m, x) && d in U;
      var rest := LongWalk(m, U, d, n - 1);
      p := [x] + rest;
      PrependWalk(m, x, rest);
    }
  }

  lemma PrependWalk(m: Edges, x: Id, rest: Path)
    requires IsWalk(m, rest) && rest[0] in Out(m, x)
    ensures IsWalk(m, [x] + rest)
  {
  }

  // A walk longer than the set it stays in comes back to where it was.
  lemma RepeatIsCycle(m: Edges, S: set<Id>, p: Path, i: nat, j: nat)
    requires IsWalk(m, p) && i < j < |p| && p[i] == p[j] && p[i] in S
    ensures !Acyclic(S, m)
  {
    WalkPart(m, p, i, j + 1);
    var cycle := p[i..j + 1];
    assert IsWalk(m, cycle) && |cycle| >= 2 && cycle[0] == p[i] && Last(cycle) == p[j];
  }

  // Seals that always wait for one another contain a cycle.
  lemma StuckIsCyclic(m: Edges, S: set<Id>, U: set<Id>, x: Id)
    requires U <= S && x in U && AllWaitWithin(m, U)
    ensures !Acyclic(S, m)
  {
    var p := LongWalk(m, U, x, |U|);
    if NoDup(p) {
      NoDupBound(p, U);
      assert false;
    }
    var i, j :| 0 <= i < j < |p| && p[i] == p[j];
    assert p[i] in p;
    RepeatIsCycle(m, S, p, i, j);
  }

  // ------------------------------------------------------------- the counters

  function Count(remaining: map<Id, nat>, id: Id): nat {
    if id in remaining then remaining[id] else 0
  }

  ghost function Waiting(m: Edges, id: Id, placed: set<Id>): nat {
    |Elems(Out(m, id)) - placed|
  }

  // (d, x) for every x among the Seals so far that depends on d.
  ghost function DependentPairs(m: Edges, S: set<Id>): set<(Id, Id)> {
    set x, d | x in S && d in Out(m, x) :: (d, x)
  }

  ghost function PairsOnto(entered: set<Id>, id: Id): set<(Id, Id)> {
    set d | d in entered :: (d, id)
  }

  // remaining counts each Seal's missing dependencies; keys are never given a zero.
  ghost predicate Counted(m: Edges, S: set<Id>, remaining: map<Id, nat>) {
    && remaining.Keys <= S
    && (forall x: Id :: x in S ==> Count(remaining, x) == |Elems(Out(m, x))|)
    && (forall x: Id :: x in remaining ==> remaining[x] > 0)
  }

  // Part-way through the dependencies of id.
  ghost predicate Counting(m: Edges, done: set<Id>, id: Id, entered: set<Id>, remaining: map<Id, nat>) {
    && remaining.Keys <= done + {id}
    && (forall x: Id :: x in done ==> Count(remaining, x) == |Elems(Out(m, x))|)
    && Count(remaining, id) == |entered|
    && (forall x: Id :: x in remaining ==> remaining[x] > 0)
  }

  lemma EnterOne(m: Edges, done: set<Id>, id: Id, entered: set<Id>, remaining: map<Id, nat>, d: Id)
    requires Counting(m, done, id, entered, remaining) && id !in done && d !in entered
    ensures Counting(m, done, id, entered + {d}, remaining[id := Count(remaining, id) + 1])
  {
  }

  lemma EnterPair(dependents: Edges, rel: set<(Id, Id)>, entered: set<Id>, id: Id, d: Id)
    requires Represents(dependents, rel + PairsOnto(entered, id)) && d !in entered && (d, id) !in rel
    ensures Represents(dependents[d := Out(dependents, d) + [id]], rel + PairsOnto(entered + {d}, id))
  {
    assert (d, id) !in rel + PairsOnto(entered, id);
    assert id !in Out(dependents, d);
    AddEdgeRepresents(dependents, rel + PairsOnto(entered, id), d, id);
    assert rel + PairsOnto(entered + {d}, id) == rel + PairsOnto(entered, id) + {(d, id)};
  }

  lemma PairsDone(m: Edges, done: set<Id>, id: Id)
    ensures DependentPairs(m, done) + PairsOnto(Elems(Out(m, id)), id) == DependentPairs(m, done + {id})
  {
  }

  // A dependency that is not listed, or a cycle although all are.
  ghost predicate NotOrderedBecause(m: Edges, S: set<Id>, e: OrderError) {
    match e
    case Absent(seal, dependency) => seal in S && dependency in Out(m, seal) && dependency !in S
    case Cycle => ClosedUnder(m, S) && !Acyclic(S, m)
    case Duplicate(id) => false
  }

  // Enter one Seal's dependencies, each once; stop at one that is not among the Seals.
  method Enter(S: set<Id>, id: Id, list: seq<Id>, remaining: map<Id, nat>, dependents: Edges, ghost m: Edges,
          ghost done: set<Id>)
      returns (err: Option<OrderError>, remaining': map<Id, nat>, dependents': Edges)
    requires list == Out(m, id) && id !in done
    requires Counted(m, done, remaining) && Represents(dependents, DependentPairs(m, done))
    ensures err.None? <==> forall d: Id :: d in list ==> d in S
    ensures err.None? ==> Counted(m, done + {id}, remaining') && Represents(dependents', DependentPairs(m, done + {id}))
    ensures err.Some? ==> err.value.Absent? && err.value.seal == id
    ensures err.Some? ==> err.value.dependency in list && err.value.dependency !in S
  {
    remaining', dependents' := remaining, dependents;
    var seen: set<Id> := {};
    ghost var rel := DependentPairs(m, done);
    assert rel + PairsOnto({}, id) == rel;
    var k := 0;
    while k < |list|
      invariant k <= |list| && seen == Elems(list[..k]) && seen <= S
      invariant Counting(m, done, id, seen, remaining') && Represents(dependents', rel + PairsOnto(seen, id))
    {
      var d := list[k];
      SeenNext(list, k);
      if d !in S {
        return Some(Absent(id, d)), remaining', dependents';
      }
      if d !in seen {
        EnterOne(m, done, id, seen, remaining', d);
        EnterPair(dependents', rel, seen, id, d);
        remaining' := remaining'[id := Count(remaining', id) + 1];
        dependents' := dependents'[d := Out(dependents', d) + [id]];
        seen := seen + {d};
      }
      k := k + 1;
    }
    assert list[..k] == list;
    PairsDone(m, done, id);
    err := None;
  }

  lemma SeenNext(list: seq<Id>, k: nat)
    requires k < |list|
    ensures Elems(list[..k + 1]) == Elems(list[..k]) + {list[k]}
    ensures list[k] in Elems(list[..k]) ==> Elems(list[..k + 1]) == Elems(list[..k])
  {
    TakeNext(list, k);
  }

  // The first loop, over the Seals in any order.
  method Tally(seals: map<Id, Payload>, ghost m: Edges) returns (err: Option<OrderError>, remaining: map<Id, nat>,
          dependents: Edges)
    requires m == Dependencies(seals)
    ensures err.None? <==> ClosedUnder(m, seals.Keys)
    ensures err.Some? ==> NotOrderedBecause(m, seals.Keys, err.value)
    ensures err.None? ==> Counted(m, seals.Keys, remaining) && Represents(dependents, DependentPairs(m, seals.Keys))
  {
    err, remaining, dependents := None, map[], map[];
    var todo := seals.Keys;
    while todo != {}
      invariant todo <= seals.Keys && err.None?
      invariant Counted(m, seals.Keys - todo, remaining) && Represents(dependents, DependentPairs(m, seals.Keys - todo))
      invariant forall a: Id, d: Id :: a in seals.Keys - todo && d in Out(m, a) ==> d in seals
    {
      var id :| id in todo;
      err, remaining,
          dependents := Enter(seals.Keys, id, DependencyList(seals[id]), remaining, dependents, m, seals.Keys - todo);
      if err.Some? {
        assert id in seals.Keys && err.value.dependency in Out(m, id);
        return;
      }
      assert seals.Keys - (todo - {id}) == seals.Keys - todo + {id};
      todo := todo - {id};
    }
    assert seals.Keys - todo == seals.Keys;
  }

  // -------------------------------------------------------------- the ready list

  // ready holds exactly the Seals that could come next.
  ghost predicate ReadyFor(m: Edges, S: set<Id>, placed: seq<Id>, ready: seq<Id>) {
    NoDup(ready) && forall x: Id :: x in ready <==> Available(m, S, placed, x)
  }

  ghost predicate CountsFor(m: Edges, S: set<Id>, placed: set<Id>, remaining: map<Id, nat>) {
    forall x: Id :: x in S ==> Count(remaining, x) == Waiting(m, x, placed)
  }

  lemma WaitingNone(m: Edges, x: Id, placed: seq<Id>)
    ensures Waiting(m, x, Elems(placed)) == 0 <==> forall d: Id :: d in Out(m, x) ==> d in placed
  {
    var missing := Elems(Out(m, x)) - Elems(placed);
    if |missing| == 0 {
      assert missing == {};
      forall d: Id | d in Out(m, x) ensures d in placed {
        assert d !in missing;
      }
    } else {
      assert missing != {};
    }
  }

  lemma WaitingLess(m: Edges, x: Id, placed: set<Id>, id: Id)
    requires id !in placed
    ensures Waiting(m, x, placed + {id}) == Waiting(m, x, placed) - (if id in Out(m, x) then 1 else 0)
  {
    var before, after := Elems(Out(m, x)) - placed, Elems(Out(m, x)) - (placed + {id});
    if id in Out(m, x) {
      assert after == before - {id} && id in before;
    } else {
      assert after == before;
    }
  }

  // Part-way through the dependents of id, which has just been placed.
  ghost predicate Releasing(m: Edges, S: set<Id>, placed: seq<Id>, id: Id, released: seq<Id>, remaining: map<Id,
          nat>, ready: seq<Id>) {
    && NoDup(ready)
    && (forall x: Id :: x in S ==>
          Count(remaining, x) + (if x in released then 1 else 0) == Waiting(m, x, Elems(placed)))
    && (forall x: Id :: x in ready <==>
         && x != id
         && (Available(m, S, placed, x) || (x in released && Count(remaining, x) == 0)))
  }

  lemma ReleaseOne(m: Edges, S: set<Id>, placed: seq<Id>, id: Id, released: seq<Id>, remaining: map<Id, nat>,
          ready: seq<Id>, x: Id)
    requires Releasing(m, S, placed, id, released, remaining, ready)
    requires id !in placed && x in S && x !in released && id in Out(m, x) && x != id
    ensures Count(remaining, x) > 0
    ensures var counts := remaining[x := Count(remaining, x) - 1];
            Releasing(m, S, placed, id, released + [x], counts, if counts[x] == 0 then ready + [x] else ready)
  {
    WaitingNone(m, x, placed);
    var counts := remaining[x := Count(remaining, x) - 1];
    var next := if counts[x] == 0 then ready + [x] else ready;
    var more := released + [x];
    forall y: Id | y in S ensures Count(counts, y) + (if y in more then 1 else 0) == Waiting(m, y, Elems(placed)) {
      if y != x {
        assert Count(counts, y) == Count(remaining, y);
      }
    }
  }

  lemma ReleasedCounts(m: Edges, S: set<Id>, placed: seq<Id>, id: Id, released: seq<Id>, remaining: map<Id, nat>,
          ready: seq<Id>)
    requires Releasing(m, S, placed, id, released, remaining, ready) && id !in placed
    requires forall x: Id :: x in released <==> x in S && id in Out(m, x)
    ensures CountsFor(m, S, Elems(placed + [id]), remaining)
  {
    assert Elems(placed + [id]) == Elems(placed) + {id};
    forall x: Id | x in S ensures Count(remaining, x) == Waiting(m, x, Elems(placed + [id])) {
      WaitingLess(m, x, Elems(placed), id);
    }
  }

  // With id placed, x can come next if it could before or if id was all it waited for.
  lemma AvailableNow(m: Edges, S: set<Id>, placed: seq<Id>, id: Id, x: Id)
    requires id !in placed && Available(m, S, placed, id) && ClosedUnder(m, Elems(placed)) && x in S && x != id
    ensures Available(m, S, placed + [id], x) <==>
              Available(m, S, placed, x) || (id in Out(m, x) && Waiting(m, x, Elems(placed + [id])) == 0)
  {
    WaitingNone(m, x, placed + [id]);
    WaitingNone(m, x, placed);
    assert x in Elems(placed) && id in Out(m, x) ==> id in Elems(placed);
  }

  lemma ReleaseEnd(m: Edges, S: set<Id>, placed: seq<Id>, id: Id, released: seq<Id>, remaining: map<Id, nat>,
          ready: seq<Id>)
    requires Releasing(m, S, placed, id, released, remaining, ready)
    requires Available(m, S, placed, id) && ClosedUnder(m, Elems(placed))
    requires forall x: Id :: x in released <==> x in S && id in Out(m, x)
    ensures ReadyFor(m, S, placed + [id], ready) && CountsFor(m, S, Elems(placed + [id]), remaining)
  {
    ReleasedCounts(m, S, placed, id, released, remaining, ready);
    forall x: Id ensures x in ready <==> Available(m, S, placed + [id], x) {
      if x in S && x != id {
        AvailableNow(m, S, placed, id, x);
        assert Count(remaining, x) == Waiting(m, x, Elems(placed + [id]));
      }
    }
  }

  // Place id and release what waited for it alone.
  method Release(S: set<Id>, dependents: Edges, placed: seq<Id>, id: Id, rest: seq<Id>, remaining: map<Id, nat>,
          ghost m: Edges, ghost ready: seq<Id>)
      returns (remaining': map<Id, nat>, ready': seq<Id>)
    requires Represents(dependents, DependentPairs(m, S)) && ClosedUnder(m, Elems(placed))
    requires ReadyFor(m, S, placed, ready) && CountsFor(m, S, Elems(placed), remaining)
    requires NoDup(rest) && Available(m, S, placed, id) && forall x: Id :: x in rest <==> x in ready && x != id
    ensures ReadyFor(m, S, placed + [id], ready') && CountsFor(m, S, Elems(placed + [id]), remaining')
  {
    remaining', ready' := remaining, rest;
    var waiting := Out(dependents, id);
    var k := 0;
    ReleaseStart(m, S, placed, id, ready, rest, remaining);
    while k < |waiting|
      invariant k <= |waiting| && Releasing(m, S, placed, id, waiting[..k], remaining', ready')
    {
      var x := waiting[k];
      TakeNext(waiting, k);
      assert x in waiting;
      assert NoDup(Out(dependents, id));
      ReleaseOne(m, S, placed, id, waiting[..k], remaining', ready', x);
      remaining' := remaining'[x := Count(remaining', x) - 1];
      if remaining'[x] == 0 {
        ready' := ready' + [x];
      }
      k := k + 1;
    }
    assert waiting[..k] == waiting;
    ReleaseEnd(m, S, placed, id, waiting, remaining', ready');
  }

  lemma ReleaseStart(m: Edges, S: set<Id>, placed: seq<Id>, id: Id, ready: seq<Id>, rest: seq<Id>,
          remaining: map<Id, nat>)
    requires ReadyFor(m, S, placed, ready) && CountsFor(m, S, Elems(placed), remaining)
    requires NoDup(rest) && forall x: Id :: x in rest <==> x in ready && x != id
    ensures Releasing(m, S, placed, id, [], remaining, rest)
  {
  }

  // The Seals no dependency holds back: counted zero, or never counted.
  method FirstReady(S: set<Id>, remaining: map<Id, nat>, ghost m: Edges) returns (ready: seq<Id>)
    requires Counted(m, S, remaining)
    ensures ReadyFor(m, S, [], ready) && CountsFor(m, S, {}, remaining)
  {
    ready := [];
    var todo := S;
    while todo != {}
      invariant todo <= S && NoDup(ready)
      invariant forall x: Id :: x in ready <==> x in S - todo && Count(remaining, x) == 0
    {
      var id :| id in todo;
      if (id in remaining && remaining[id] == 0) || id !in remaining {
        assert id !in ready;
        ready := ready + [id];
      }
      todo := todo - {id};
    }
    forall x: Id ensures x in ready <==> Available(m, S, [], x) {
      WaitingNone(m, x, []);
      assert Elems<Id>([]) == {};
    }
  }

  lemma PlaceNext(m: Edges, S: set<Id>, order: seq<Id>, id: Id)
    requires Greedy(m, S, order) && ClosedUnder(m, Elems(order)) && LeastAvailable(m, S, order, id)
    ensures Greedy(m, S, order + [id]) && ClosedUnder(m, Elems(order + [id]))
  {
    var next := order + [id];
    forall i: nat | i < |next| ensures LeastAvailable(m, S, next[..i], next[i]) {
      assert next[..i] == if i < |order| then order[..i] else order;
    }
  }

  // topologicalSealOrder. It succeeds exactly when the Seals name only Seals of the
  // inventory and no Seal depends on itself through others, and then its result is the
  // canonical order, whatever order the maps are walked in.
  method TopologicalSealOrder(seals: map<Id, Payload>) returns (res: Result<seq<Id>, OrderError>)
    ensures res.Success? <==> ClosedUnder(Dependencies(seals), seals.Keys) && Acyclic(seals.Keys, Dependencies(seals))
    ensures res.Success? ==> Canonical(Dependencies(seals), seals.Keys, res.value)
    ensures res.Failure? ==> NotOrderedBecause(Dependencies(seals), seals.Keys, res.error)
  {
    ghost var m := Dependencies(seals);
    var err, remaining, dependents := Tally(seals, m);
    if err.Some? {
      return Failure(err.value);
    }
    res := PlaceInTurn(seals.Keys, remaining, dependents, m);
  }

  // Everything after the first loop: place what is ready; anything left over is a cycle.
  method PlaceInTurn(S: set<Id>, remaining: map<Id, nat>, dependents: Edges,
          ghost m: Edges) returns (res: Result<seq<Id>, OrderError>)
    requires ClosedUnder(m, S) && Counted(m, S, remaining) && Represents(dependents, DependentPairs(m, S))
    ensures res.Success? <==> Acyclic(S, m)
    ensures res.Success? ==> Canonical(m, S, res.value)
    ensures res.Failure? ==> res.error == Cycle
  {
    var ready := FirstReady(S, remaining, m);
    var order := PlaceAll(S, remaining, dependents, ready, m);
    CanonicalSize(m, S, order);
    if |order| != |S| {
      AllWait(m, S, order);
      return Failure(Cycle);
    }
    assert Elems(order) == S;
    CanonicalOrders(m, S, order);
    OrderedIsAcyclic(m, S, order);
    res := Success(order);
  }

  // The state of the ready loop.
  ghost predicate Placing(m: Edges, S: set<Id>, order: seq<Id>, ready: seq<Id>, remaining: map<Id, nat>) {
    && Greedy(m, S, order) && ClosedUnder(m, Elems(order))
    && ReadyFor(m, S, order, ready) && CountsFor(m, S, Elems(order), remaining)
  }

  // Place the least ready Seal until none is ready.
  method PlaceAll(S: set<Id>, counts: map<Id, nat>, dependents: Edges, first: seq<Id>,
          ghost m: Edges) returns (order: seq<Id>)
    requires Represents(dependents, DependentPairs(m, S)) && ReadyFor(m, S, [], first) && CountsFor(m, S, {}, counts)
    ensures Greedy(m, S, order) && forall x: Id :: !Available(m, S, order, x)
  {
    var remaining, ready := counts, first;
    order := [];
    StartPlacing(m, S, ready, remaining);
    while ready != []
      invariant Placing(m, S, order, ready, remaining)
      decreases |S - Elems(order)|
    {
      var id;
      id, remaining, ready := PlaceOne(S, dependents, order, ready, remaining, m);
      PlacedLess(S, order, id);
      order := order + [id];
    }
    NoneReady(m, S, order, remaining);
  }

  lemma PlacedLess(S: set<Id>, order: seq<Id>, id: Id)
    requires id in S && id !in order
    ensures |S - Elems(order + [id])| < |S - Elems(order)|
  {
    assert S - Elems(order + [id]) == S - Elems(order) - {id};
  }

  lemma NoneReady(m: Edges, S: set<Id>, order: seq<Id>, remaining: map<Id, nat>)
    requires Placing(m, S, order, [], remaining)
    ensures Greedy(m, S, order) && forall x: Id :: !Available(m, S, order, x)
  {
    forall x: Id ensures !Available(m, S, order, x) {
      assert x in [] <==> Available(m, S, order, x);
    }
  }

  lemma StartPlacing(m: Edges, S: set<Id>, ready: seq<Id>, remaining: map<Id, nat>)
    requires ReadyFor(m, S, [], ready) && CountsFor(m, S, {}, remaining)
    ensures Placing(m, S, [], ready, remaining)
  {
    assert Elems<Id>([]) == {};
  }

  method PlaceOne(S: set<Id>, dependents: Edges, order: seq<Id>, ready: seq<Id>, remaining: map<Id, nat>,
          ghost m: Edges)
      returns (id: Id, remaining': map<Id, nat>, ready': seq<Id>)
    requires Represents(dependents, DependentPairs(m, S)) && Placing(m, S, order, ready, remaining) && ready != []
    ensures Placing(m, S, order + [id], ready', remaining') && id in S && id !in order
  {
    var sorted := SortIds(ready);
    SortIdsIncreasing(ready);
    id := sorted[0];
    LeastReady(m, S, order, ready, sorted);
    PlaceNext(m, S, order, id);
    remaining', ready' := Release(S, dependents, order, id, sorted[1..], remaining, m, ready);
  }

  lemma LeastReady(m: Edges, S: set<Id>, placed: seq<Id>, ready: seq<Id>, sorted: seq<Id>)
    requires ReadyFor(m, S, placed, ready) && Increasing(sorted) && sorted != []
    requires forall x: Id :: x in sorted <==> x in ready
    ensures LeastAvailable(m, S, placed, sorted[0])
    ensures NoDup(sorted[1..]) && forall x: Id :: x in sorted[1..] <==> x in ready && x != sorted[0]
  {
    PopFirst(sorted);
  }

  lemma CanonicalSize(m: Edges, S: set<Id>, order: seq<Id>)
    requires Greedy(m, S, order)
    ensures Elems(order) <= S && NoDup(order)
    ensures |order| + |S - Elems(order)| == |S|
  {
    forall i, j | 0 <= i < j < |order| ensures order[i] != order[j] {
      assert LeastAvailable(m, S, order[..j], order[j]);
      assert order[..j][i] == order[i];
    }
    forall x | x in order ensures x in S {
      var i :| 0 <= i < |order| && order[i] == x;
      assert LeastAvailable(m, S, order[..i], order[i]);
    }
    NoDupSize(order);
    assert S == Elems(order) + (S - Elems(order));
  }

  lemma AllWait(m: Edges, S: set<Id>, order: seq<Id>)
    requires ClosedUnder(m, S) && Greedy(m, S, order) && |order| != |S|
    requires forall x: Id :: !Available(m, S, order, x)
    ensures !Acyclic(S, m)
  {
    CanonicalSize(m, S, order);
    var U := S - Elems(order);
    assert U != {};
    var x :| x in U;
    forall y: Id | y in U ensures WaitsWithin(m, U, y) {
      assert !Available(m, S, order, y);
    }
    StuckIsCyclic(m, S, U, x);
  }

  // ----------------------------------------------------------- the document

  function IdsOf(seals: seq<SealRecord>): (r: seq<Id>)
    ensures |r| == |seals| && forall i :: 0 <= i < |r| ==> r[i] == seals[i].id
  {
    seq(|seals|, i requires 0 <= i < |seals| => seals[i].id)
  }

  ghost predicate Tabulates(table: map<Id, Payload>, seals: seq<SealRecord>) {
    && (forall r :: r in seals ==> r.id in table && table[r.id] == r.payload)
    && (forall id: Id :: id in table ==> SealRecord(id, table[id]) in seals)
  }

  ghost predicate Repeated(ids: seq<Id>, id: Id) {
    exists i, j :: 0 <= i < j < |ids| && ids[i] == id && ids[j] == id
  }

  method Tabulate(seals: seq<SealRecord>) returns (res: Result<map<Id, Payload>, OrderError>)
    ensures res.Success? <==> NoDup(IdsOf(seals))
    ensures res.Success? ==> Tabulates(res.value, seals)
    ensures res.Failure? ==> res.error.Duplicate? && Repeated(IdsOf(seals), res.error.id)
  {
    var table: map<Id, Payload> := map[];
    var k := 0;
    while k < |seals|
      invariant k <= |seals| && Tabulates(table, seals[..k]) && NoDup(IdsOf(seals[..k]))
    {
      TakeNext(seals, k);
      if seals[k].id in table {
        DuplicateAt(table, seals, k);
        return Failure(Duplicate(seals[k].id));
      }
      TabulateNext(table, seals, k);
      table := table[seals[k].id := seals[k].payload];
      k := k + 1;
    }
    assert seals[..k] == seals;
    res := Success(table);
  }

  lemma DuplicateAt(table: map<Id, Payload>, seals: seq<SealRecord>, k: nat)
    requires k < |seals| && Tabulates(table, seals[..k]) && seals[k].id in table
    ensures !NoDup(IdsOf(seals)) && Repeated(IdsOf(seals), seals[k].id)
  {
    var r := SealRecord(seals[k].id, table[seals[k].id]);
    assert r in seals[..k];
    var i :| 0 <= i < k && seals[i] == r;
    assert IdsOf(seals)[i] == IdsOf(seals)[k];
  }

  lemma TabulateNext(table: map<Id, Payload>, seals: seq<SealRecord>, k: nat)
    requires k < |seals| && Tabulates(table, seals[..k]) && NoDup(IdsOf(seals[..k])) && seals[k].id !in table
    ensures Tabulates(table[seals[k].id := seals[k].payload], seals[..k + 1]) && NoDup(IdsOf(seals[..k + 1]))
  {
    TakeNext(seals, k);
    var ids, more := IdsOf(seals[..k]), IdsOf(seals[..k + 1]);
    forall i, j | 0 <= i < j < |more| ensures more[i] != more[j] {
      if j == k {
        assert seals[..k][i] in seals[..k];
      } else {
        assert ids[i] != ids[j];
      }
    }
    assert seals[k] == SealRecord(seals[k].id, seals[k].payload);
  }

  lemma TableUnique(a: map<Id, Payload>, b: map<Id, Payload>, s: seq<SealRecord>, t: seq<SealRecord>)
    requires Tabulates(a, s) && Tabulates(b, t) && forall r :: r in s <==> r in t
    ensures a == b
  {
    forall id: Id ensures (id in a <==> id in b) && (id in a ==> a[id] == b[id]) {
      assert id in a ==> SealRecord(id, a[id]) in s;
      assert id in b ==> SealRecord(id, b[id]) in t;
    }
    assert a.Keys == b.Keys;
  }

  // The one accepted order of these Seals.
  ghost predicate InOrder(seals: seq<SealRecord>) {
    && NoDup(IdsOf(seals))
    && exists table :: Tabulates(table, seals) && Canonical(Dependencies(table), table.Keys, IdsOf(seals))
  }

  ghost predicate Orderable(seals: seq<SealRecord>) {
    && NoDup(IdsOf(seals))
    && exists table :: Tabulates(table, seals) && ClosedUnder(Dependencies(table), table.Keys)
         && Acyclic(table.Keys, Dependencies(table))
  }

  // Two canonical documents with the same Seals list them alike: one order for every
  // input permutation, and canonicalising again changes nothing.
  lemma InOrderUnique(s: seq<SealRecord>, t: seq<SealRecord>)
    requires InOrder(s) && InOrder(t) && forall r :: r in s <==> r in t
    ensures s == t
  {
    var a :| Tabulates(a, s) && Canonical(Dependencies(a), a.Keys, IdsOf(s));
    var b :| Tabulates(b, t) && Canonical(Dependencies(b), b.Keys, IdsOf(t));
    TableUnique(a, b, s, t);
    CanonicalUnique(Dependencies(a), a.Keys, IdsOf(s), IdsOf(t));
    forall i | 0 <= i < |s| ensures s[i] == t[i] {
      assert s[i] in s && t[i] in t;
      assert IdsOf(s)[i] == IdsOf(t)[i];
    }
  }

  // Two records under one identity, or what is wrong with their dependencies.
  ghost predicate Unordered(seals: seq<SealRecord>, e: OrderError) {
    if e.Duplicate? then Repeated(IdsOf(seals), e.id)
    else exists table :: Tabulates(table, seals) && NotOrderedBecause(Dependencies(table), table.Keys, e)
  }

  // The Seal array of CanonicalizeUniversalBlobV1. It succeeds exactly on orderable
  // inventories and rearranges them into the canonical order.
  method OrderSeals(seals: seq<SealRecord>) returns (res: Result<seq<SealRecord>, OrderError>)
    ensures res.Success? <==> Orderable(seals)
    ensures res.Success? ==> InOrder(res.value) && |res.value| == |seals| && forall r :: r in res.value <==> r in seals
    ensures res.Failure? ==> Unordered(seals, res.error)
  {
    var tabulated := Tabulate(seals);
    if tabulated.Failure? {
      return Failure(tabulated.error);
    }
    var table := tabulated.value;
    var order := TopologicalSealOrder(table);
    if order.Failure? {
      NotOrderable(table, seals);
      return Failure(order.error);
    }
    var ordered := Arrange(table, order.value, seals);
    res := Success(ordered);
  }

  lemma NotOrderable(table: map<Id, Payload>, seals: seq<SealRecord>)
    requires Tabulates(table, seals) && !(ClosedUnder(Dependencies(table), table.Keys)
              && Acyclic(table.Keys, Dependencies(table)))
    ensures !Orderable(seals)
  {
    forall other | Tabulates(other, seals) ensures other == table {
      TableUnique(other, table, seals, seals);
    }
  }

  method Arrange(table: map<Id, Payload>, order: seq<Id>, ghost was: seq<SealRecord>) returns (ordered: seq<SealRecord>)
    requires Tabulates(table, was) && NoDup(IdsOf(was)) && Canonical(Dependencies(table), table.Keys, order)
    ensures IdsOf(ordered) == order && InOrder(ordered) && |ordered| == |was|
    ensures forall r :: r in ordered <==> r in was
  {
    ordered := [];
    var k := 0;
    CanonicalOrders(Dependencies(table), table.Keys, order);
    forall id | id in order ensures id in table {
      assert id in Elems(order);
    }
    while k < |order|
      invariant k <= |order| && |ordered| == k && forall i :: 0 <= i < k ==>
                  ordered[i] == SealRecord(order[i], table[order[i]])
    {
      ordered := ordered + [SealRecord(order[k], table[order[k]])];
      k := k + 1;
    }
    assert IdsOf(ordered) == order;
    ArrangedSame(table, order, was, ordered);
  }

  lemma ArrangedSame(table: map<Id, Payload>, order: seq<Id>, was: seq<SealRecord>, ordered: seq<SealRecord>)
    requires Tabulates(table, was) && NoDup(IdsOf(was)) && Canonical(Dependencies(table), table.Keys, order)
              && NoDup(order)
    requires |ordered| == |order| && IdsOf(ordered) == order
    requires forall i :: 0 <= i < |order| ==> order[i] in table && ordered[i] == SealRecord(order[i], table[order[i]])
    ensures InOrder(ordered) && |ordered| == |was|
    ensures forall r :: r in ordered <==> r in was
  {
    forall r ensures r in ordered <==> r in was {
      if r in was {
        assert r.id in Elems(order);
        var i :| 0 <= i < |order| && order[i] == r.id;
        assert ordered[i] == r;
      }
    }
    assert Tabulates(table, ordered);
    NoDupSize(order);
    NoDupSize(IdsOf(was));
    forall id: Id ensures id in Elems(IdsOf(was)) <==> id in table.Keys {
      if id in table {
        var i :| 0 <= i < |was| && was[i] == SealRecord(id, table[id]);
        assert IdsOf(was)[i] == id;
      }
      if id in IdsOf(was) {
        var i :| 0 <= i < |was| && IdsOf(was)[i] == id;
        assert was[i] in was;
      }
    }
    assert Elems(IdsOf(was)) == table.Keys;
  }

  lemma InOrderOrderable(seals: seq<SealRecord>)
    requires InOrder(seals)
    ensures Orderable(seals)
  {
    var table :| Tabulates(table, seals) && Canonical(Dependencies(table), table.Keys, IdsOf(seals));
    CanonicalOrders(Dependencies(table), table.Keys, IdsOf(seals));
    OrderedIsAcyclic(Dependencies(table), table.Keys, IdsOf(seals));
  }

  ghost predicate Identified(identify: Payload -> Id, seals: seq<SealRecord>) {
    forall i :: 0 <= i < |seals| ==> identify(seals[i].payload) == seals[i].id
  }

  // validateUniversalSeals: the importer accepts exactly the canonical order of Seals that
  // carry their own identities.
  method ValidateSeals(identify: Payload -> Id, seals: seq<SealRecord>) returns (ok: bool)
    ensures ok <==> Identified(identify, seals) && InOrder(seals)
  {
    var i := 0;
    while i < |seals|
      invariant i <= |seals| && forall j :: 0 <= j < i ==> identify(seals[j].payload) == seals[j].id
    {
      if identify(seals[i].payload) != seals[i].id {
        return false;
      }
      i := i + 1;
    }
    var tabulated := Tabulate(seals);
    if tabulated.Failure? {
      return false;
    }
    var table := tabulated.value;
    var expected := TopologicalSealOrder(table);
    if expected.Failure? {
      NotOrderable(table, seals);
      if InOrder(seals) {
        InOrderOrderable(seals);
      }
      return false;
    }
    ok := IdsOf(seals) == expected.value;
    ExpectedOnly(table, seals, expected.value);
  }

  lemma ExpectedOnly(table: map<Id, Payload>, seals: seq<SealRecord>, order: seq<Id>)
    requires Tabulates(table, seals) && NoDup(IdsOf(seals)) && Canonical(Dependencies(table), table.Keys, order)
    ensures InOrder(seals) <==> IdsOf(seals) == order
  {
    forall other | Tabulates(other, seals) ensures other == table {
      TableUnique(other, table, seals, seals);
    }
    if InOrder(seals) {
      var a :| Tabulates(a, seals) && Canonical(Dependencies(a), a.Keys, IdsOf(seals));
      CanonicalUnique(Dependencies(a), a.Keys, IdsOf(seals), order);
    }
  }
}
