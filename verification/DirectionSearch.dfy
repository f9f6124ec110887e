/** The budgeted search for Cause paths through a Seal (internal/repository/trace_direction_graph.go:186-314). */
module DirectionSearch {
  import opened Ids
  import opened Walks
  import opened ObservedGraph

  datatype Member = Member(seal: Id, direct: bool, indirect: bool, directPath: Path, indirectPath: Path)

  // ------------------------------------------------------ orientation

  function Rev(p: Path): (r: Path)
    ensures |r| == |p| && forall i :: 0 <= i < |p| ==> r[i] == p[|p| - 1 - i]
  {
    seq(|p|, i requires 0 <= i < |p| => p[|p| - 1 - i])
  }

  // The search grows walks away from the center; a reverse search reports them
  // turned around, so that a reported path always follows the Cause arrow.
  function View(g: Path, reverse: bool): Path {
    if reverse then Rev(g) else g
  }

  function AppendDirectionPath(path: Path, next: Id, reverse: bool): Path {
    if reverse then [next] + path else path + [next]
  }

  lemma ViewGrow(g: Path, next: Id, reverse: bool)
    ensures AppendDirectionPath(View(g, reverse), next, reverse) == View(g + [next], reverse)
    ensures forall x: Id :: x in View(g, reverse) <==> x in g
    ensures |View(g, reverse)| == |g|
  {
    if reverse {
      assert AppendDirectionPath(Rev(g), next, true) == Rev(g + [next]);
      forall x: Id | x in g ensures x in Rev(g) {
        var i :| 0 <= i < |g| && g[i] == x;
        assert Rev(g)[|g| - 1 - i] == x;
      }
    }
  }

  function BetterDirectionPath(current: Path, candidate: Path): Path {
    if current == [] || PathLess(candidate, current) then candidate else current
  }

  // Edges followed against the arrow.
  ghost predicate Reversed(edges: Edges, causes: Edges) {
    && SortedEdges(edges)
    && forall a: Id, b: Id {:trigger b in Out(edges, a)} {:trigger a in Out(causes, b)} :: b in Out(edges, a) <==>
         a in Out(causes, b)
  }

  // ------------------------------------------------------ simple walks

  // A walk from the center through observed nodes that repeats none.
  ghost predicate Simple(edges: Edges, nodes: set<Id>, center: Id, g: Path) {
    IsWalk(edges, g) && NoDup(g) && g[0] == center && forall i :: 1 <= i < |g| ==> g[i] in nodes
  }

  lemma SimpleGrow(edges: Edges, nodes: set<Id>, center: Id, g: Path, next: Id)
    requires Simple(edges, nodes, center, g) && next in Out(edges, Last(g)) && next in nodes && next !in g
    ensures Simple(edges, nodes, center, g + [next])
  {
  }

  lemma SimpleCut(edges: Edges, nodes: set<Id>, center: Id, g: Path, k: nat)
    requires Simple(edges, nodes, center, g) && 0 < k < |g|
    ensures Simple(edges, nodes, center, g[..k]) && g[k] in Out(edges, Last(g[..k])) && g[k] in nodes && g[k] !in g[..k]
  {
    WalkPart(edges, g, 0, k);
    assert g[0..k] == g[..k];
    assert g[k] in Out(edges, g[k - 1]);
  }

  // ---------------------------------------------- what the queue owes

  // Every simple walk not generated yet begins with one that is still queued.
  ghost predicate Owed(edges: Edges, nodes: set<Id>, center: Id, gen: set<Path>, queued: seq<Path>) {
    forall g: Path {:trigger Simple(edges, nodes, center, g)} ::
      Simple(edges, nodes, center, g) && |g| >= 2 ==> g in gen || Started(queued, g)
  }

  ghost predicate Started(queued: seq<Path>, g: Path) {
    exists k :: 0 < k < |g| && g[..k] in queued
  }

  // The same while u has been taken off and its edges in done were followed.
  ghost predicate OwedAt(edges: Edges, nodes: set<Id>, center: Id, gen: set<Path>, queued: seq<Path>, u: Path,
          done: seq<Id>) {
    forall g: Path {:trigger Simple(edges, nodes, center, g)} ::
      Simple(edges, nodes, center, g) && |g| >= 2 ==>
        g in gen || Started(queued, g) || (|g| > |u| && g[..|u|] == u && g[|u|] !in done)
  }

  lemma OwedStart(edges: Edges, nodes: set<Id>, center: Id)
    ensures Owed(edges, nodes, center, {}, [[center]])
  {
    forall g: Path | Simple(edges, nodes, center, g) && |g| >= 2 ensures Started([[center]], g) {
      assert g[..1] == [center];
    }
  }

  lemma OwedTake(edges: Edges, nodes: set<Id>, center: Id, gen: set<Path>, queued: seq<Path>)
    requires queued != [] && Owed(edges, nodes, center, gen, queued)
    ensures OwedAt(edges, nodes, center, gen, queued[1..], queued[0], [])
  {
    forall g: Path | Simple(edges, nodes, center, g) && |g| >= 2 && g !in gen
      ensures Started(queued[1..], g) || (|g| > |queued[0]| && g[..|queued[0]|] == queued[0])
    {
      var k :| 0 < k < |g| && g[..k] in queued;
      if g[..k] != queued[0] {
        assert queued == [queued[0]] + queued[1..];
        assert g[..k] in queued[1..];
      }
    }
  }

  lemma OwedFollow(edges: Edges, nodes: set<Id>, center: Id, gen: set<Path>, queued: seq<Path>, u: Path,
          done: seq<Id>, next: Id)
    requires OwedAt(edges, nodes, center, gen, queued, u, done)
    ensures OwedAt(edges, nodes, center, gen + {u + [next]}, queued + [u + [next]], u, done + [next])
  {
    forall g: Path | Simple(edges, nodes, center, g) && |g| >= 2 && g !in gen + {u + [next]}
      ensures Started(queued + [u + [next]], g) || (|g| > |u| && g[..|u|] == u && g[|u|] !in done + [next])
    {
      if Started(queued, g) {
        var k :| 0 < k < |g| && g[..k] in queued;
        assert g[..k] in queued + [u + [next]];
      } else if g[|u|] == next {
        assert g[..|u| + 1] == u + [next];
        assert g != u + [next];
      }
    }
  }

  // An edge that is not followed starts no simple walk.
  lemma OwedSkip(edges: Edges, nodes: set<Id>, center: Id, gen: set<Path>, queued: seq<Path>, u: Path, done: seq<Id>,
          next: Id)
    requires OwedAt(edges, nodes, center, gen, queued, u, done) && u != []
    requires next !in nodes || next in u
    ensures OwedAt(edges, nodes, center, gen, queued, u, done + [next])
  {
    forall g: Path | Simple(edges, nodes, center, g) && |g| >= 2 && g !in gen && !Started(queued, g)
      ensures g[|u|] != next
    {
      SimpleCut(edges, nodes, center, g, |u|);
    }
  }

  lemma OwedNext(edges: Edges, nodes: set<Id>, center: Id, gen: set<Path>, queued: seq<Path>, u: Path)
    requires u != [] && OwedAt(edges, nodes, center, gen, queued, u, Out(edges, Last(u)))
    ensures Owed(edges, nodes, center, gen, queued)
  {
    forall g: Path | Simple(edges, nodes, center, g) && |g| >= 2 && g !in gen
      ensures Started(queued, g)
    {
      if !Started(queued, g) {
        SimpleCut(edges, nodes, center, g, |u|);
      }
    }
  }

  // ------------------------------------------------ breadth-first lengths

  // Queued walks have length level or level + 1, in that order; generated ones are no longer.
  ghost predicate Levelled(queued: seq<Path>, gen: set<Path>, level: nat) {
    && (forall i :: 0 <= i < |queued| ==> level <= |queued[i]| <= level + 1)
    && (forall i, j :: 0 <= i < j < |queued| ==> |queued[i]| <= |queued[j]|)
    && (forall g :: g in gen ==> |g| <= level + 1)
  }

  // --------------------------------------------------- the members map

  ghost predicate EndsAt(g: Path, x: Id) {
    g != [] && Last(g) == x
  }

  // One of a member's two routes: the best generated path of its kind, if there is any.
  ghost predicate Route(found: bool, path: Path, x: Id, gen: set<Path>, reverse: bool, long: bool) {
    && (found ==> exists g :: Generates(gen, x, long, g) && path == View(g, reverse))
    && (!found ==> path == [])
    && forall g :: Generates(gen, x, long, g) ==> found && !PathLess(View(g, reverse), path)
  }

  ghost predicate Generates(gen: set<Path>, x: Id, long: bool, g: Path) {
    g in gen && EndsAt(g, x) && |g| >= 2 && (long <==> |g| >= 3)
  }

  ghost predicate Tells(m: Member, x: Id, gen: set<Path>, reverse: bool) {
    && m.seal == x && (m.direct || m.indirect)
    && Route(m.direct, m.directPath, x, gen, reverse, false)
    && Route(m.indirect, m.indirectPath, x, gen, reverse, true)
  }

  ghost predicate MembersTell(members: map<Id, Member>, gen: set<Path>, reverse: bool) {
    && (forall g :: g in gen ==> |g| >= 2 && Last(g) in members)
    && forall x: Id :: x in members ==> Tells(members[x], x, gen, reverse)
  }

  function MemberAt(members: map<Id, Member>, x: Id): Member {
    if x in members then members[x] else Member(x, false, false, [], [])
  }

  function Noted(m: Member, next: Id, candidate: Path): Member {
    if |candidate| == 2 then
      m.(seal := next, direct := true, directPath := BetterDirectionPath(m.directPath, candidate))
    else
      m.(seal := next, indirect := true, indirectPath := BetterDirectionPath(m.indirectPath, candidate))
  }

  lemma BetterIsLeast(current: Path, candidate: Path, w: Path)
    requires current != [] ==> !PathLess(w, current)
    requires current == [] ==> w == candidate
    ensures !PathLess(w, BetterDirectionPath(current, candidate))
    ensures !PathLess(candidate, BetterDirectionPath(current, candidate))
  {
    PathOrder();
  }

  // A generated path of the route's kind improves it; one of the other kind leaves it alone.
  lemma RouteAdd(found: bool, path: Path, x: Id, gen: set<Path>, reverse: bool, long: bool, g: Path)
    requires Route(found, path, x, gen, reverse, long) && EndsAt(g, x) && |g| >= 2 && (long <==> |g| >= 3)
    ensures Route(true, BetterDirectionPath(path, View(g, reverse)), x, gen + {g}, reverse, long)
  {
    var better := BetterDirectionPath(path, View(g, reverse));
    assert Generates(gen + {g}, x, long, g);
    if better != View(g, reverse) {
      var w :| Generates(gen, x, long, w) && path == View(w, reverse);
      assert Generates(gen + {g}, x, long, w);
    }
    forall w | Generates(gen + {g}, x, long, w) ensures !PathLess(View(w, reverse), better) {
      if w != g {
        assert Generates(gen, x, long, w);
        ViewGrow(w, 0, reverse);
        RouteNonempty(found, path, x, gen, reverse, long, w);
        BetterIsLeast(path, View(g, reverse), View(w, reverse));
      } else {
        if path == [] {
          BetterIsLeast(path, View(g, reverse), View(g, reverse));
        } else {
          BetterIsLeastSelf(path, View(g, reverse));
        }
      }
    }
  }

  lemma BetterIsLeastSelf(current: Path, candidate: Path)
    ensures !PathLess(candidate, BetterDirectionPath(current, candidate))
  {
    PathOrder();
  }

  lemma RouteNonempty(found: bool, path: Path, x: Id, gen: set<Path>, reverse: bool, long: bool, w: Path)
    requires Route(found, path, x, gen, reverse, long) && Generates(gen, x, long, w)
    ensures path != [] && !PathLess(View(w, reverse), path)
  {
    var g :| Generates(gen, x, long, g) && path == View(g, reverse);
    ViewGrow(g, 0, reverse);
  }

  lemma RouteOther(found: bool, path: Path, x: Id, gen: set<Path>, reverse: bool, long: bool, g: Path)
    requires Route(found, path, x, gen, reverse, long)
    requires !EndsAt(g, x) || (long <==> |g| < 3)
    ensures Route(found, path, x, gen + {g}, reverse, long)
  {
    if found {
      var w :| Generates(gen, x, long, w) && path == View(w, reverse);
      assert Generates(gen + {g}, x, long, w);
    }
    forall w | Generates(gen + {g}, x, long, w) ensures Generates(gen, x, long, w) {}
  }

  lemma NotedOne(m: Member, x: Id, gen: set<Path>, reverse: bool, g: Path)
    requires |g| >= 2 && EndsAt(g, x)
    requires Route(m.direct, m.directPath, x, gen, reverse, false)
    requires Route(m.indirect, m.indirectPath, x, gen, reverse, true)
    ensures Tells(Noted(m, x, View(g, reverse)), x, gen + {g}, reverse)
  {
    ViewGrow(g, 0, reverse);
    if |g| == 2 {
      RouteAdd(m.direct, m.directPath, x, gen, reverse, false, g);
      RouteOther(m.indirect, m.indirectPath, x, gen, reverse, true, g);
    } else {
      RouteOther(m.direct, m.directPath, x, gen, reverse, false, g);
      RouteAdd(m.indirect, m.indirectPath, x, gen, reverse, true, g);
    }
  }

  lemma NotedTells(members: map<Id, Member>, gen: set<Path>, reverse: bool, g: Path)
    requires MembersTell(members, gen, reverse) && |g| >= 2
    ensures MembersTell(members[Last(g) := Noted(MemberAt(members, Last(g)), Last(g), View(g, reverse))], gen + {g},
              reverse)
  {
    var x := Last(g);
    var m := MemberAt(members, x);
    var m' := Noted(m, x, View(g, reverse));
    NotedOne(m, x, gen, reverse, g);
    var members' := members[x := m'];
    forall y: Id | y in members' ensures Tells(members'[y], y, gen + {g}, reverse) {
      if y != x {
        RouteOther(members[y].direct, members[y].directPath, y, gen, reverse, false, g);
        RouteOther(members[y].indirect, members[y].indirectPath, y, gen, reverse, true, g);
      }
    }
  }

  // ------------------------------------------------------- the search

  // UsedVisits: shared by the closure and the two searches of one observation.
  class Visits {
    var used: nat
    constructor ()
      ensures used == 0
    {
      used := 0;
    }
  }

  // The paths on the queue, as the walks they show.
  ghost predicate Mirrors(queue: seq<Path>, walks: seq<Path>, reverse: bool) {
    |queue| == |walks| && forall i :: 0 <= i < |queue| ==> queue[i] == View(walks[i], reverse)
  }

  ghost predicate AllSimple(edges: Edges, nodes: set<Id>, center: Id, walks: seq<Path>, gen: set<Path>) {
    (forall i :: 0 <= i < |walks| ==> Simple(edges, nodes, center, walks[i]))
    && forall g :: g in gen ==> Simple(edges, nodes, center, g) && |g| >= 2
  }

  lemma TakeSimple(edges: Edges, nodes: set<Id>, center: Id, queue: seq<Path>, walks: seq<Path>, gen: set<Path>,
          reverse: bool, level: nat)
    requires queue != [] && Mirrors(queue, walks, reverse) && AllSimple(edges, nodes, center, walks, gen)
    requires Levelled(walks, gen, level)
    ensures Mirrors(queue[1..], walks[1..], reverse) && AllSimple(edges, nodes, center, walks[1..], gen)
    ensures Simple(edges, nodes, center, walks[0]) && queue[0] == View(walks[0], reverse)
    ensures Levelled(walks[1..], gen, |walks[0]|)
    ensures EndsTogether(walks[0], queue[0], reverse)
  {
  }

  // The end the search continues from.
  ghost predicate EndsTogether(u: Path, path: Path, reverse: bool) {
    u != [] && path != [] && Last(u) == if reverse then path[0] else Last(path)
  }

  // Everything the inner loop keeps while it follows the edges out of u.
  ghost predicate Following(edges: Edges, nodes: set<Id>, center: Id, reverse: bool, queue: seq<Path>,
          members: map<Id, Member>,
                            walks: seq<Path>, gen: set<Path>, u: Path, done: seq<Id>) {
    && Mirrors(queue, walks, reverse) && AllSimple(edges, nodes, center, walks, gen)
    && Levelled(walks, gen, |u|) && OwedAt(edges, nodes, center, gen, walks, u, done)
    && MembersTell(members, gen, reverse)
  }

  lemma FollowOne(edges: Edges, nodes: set<Id>, center: Id, reverse: bool, queue: seq<Path>, members: map<Id, Member>,
                  walks: seq<Path>, gen: set<Path>, u: Path, done: seq<Id>, next: Id)
    requires Following(edges, nodes, center, reverse, queue, members, walks, gen, u, done)
    requires Simple(edges, nodes, center, u) && next in Out(edges, Last(u)) && next in nodes && next !in u
    ensures Following(edges, nodes, center, reverse, queue + [View(u + [next], reverse)],
                      members[next := Noted(MemberAt(members, next), next, View(u + [next], reverse))],
                      walks + [u + [next]], gen + {u + [next]}, u, done + [next])
  {
    var g := u + [next];
    SimpleGrow(edges, nodes, center, u, next);
    OwedFollow(edges, nodes, center, gen, walks, u, done, next);
    NotedTells(members, gen, reverse, g);
    LevelledGrow(walks, gen, u, g);
  }

  lemma LevelledGrow(walks: seq<Path>, gen: set<Path>, u: Path, g: Path)
    requires Levelled(walks, gen, |u|) && |g| == |u| + 1
    ensures Levelled(walks + [g], gen + {g}, |u|)
  {
  }

  // ------------------------------------------------ one visit per walk

  function Front(g: Path): Path
    requires g != []
  {
    g[..|g| - 1]
  }

  // ------------------------------------------------- in which order

  // The queue is in order: behind what was taken off, and what was generated grew out of that.
  ghost predicate Orderly(center: Id, walks: seq<Path>, gen: set<Path>, taken: set<Path>) {
    && (forall i, j :: 0 <= i < j < |walks| ==> PathLess(walks[i], walks[j]))
    && (forall t, w :: t in taken && w in walks ==> PathLess(t, w))
    && (forall g :: g in gen ==> |g| >= 2 && Front(g) in taken && (g in taken || g in walks))
    && (forall w :: w in walks || w in taken ==> w == [center] || w in gen)
    && ([center] in taken || [center] in walks)
  }

  // The same while u has been taken off and its edges in done were followed.
  ghost predicate OrderlyAt(center: Id, walks: seq<Path>, gen: set<Path>, taken: set<Path>, u: Path, done: seq<Id>) {
    && Orderly(center, walks, gen, taken) && u in taken && u != []
    && (forall t :: t in taken ==> t == u || PathLess(t, u))
    && forall g :: g in gen && Front(g) == u ==> Last(g) in done
  }

  lemma OrderTake(center: Id, walks: seq<Path>, gen: set<Path>, taken: set<Path>)
    requires walks != [] && walks[0] != [] && Orderly(center, walks, gen, taken)
    ensures OrderlyAt(center, walks[1..], gen, taken + {walks[0]}, walks[0], []) && walks[0] !in taken
  {
    var u, rest := walks[0], walks[1..];
    assert u in walks && walks == [u] + rest;
    assert !PathLess(u, u) by { PathOrder(); }
    forall w | w in rest ensures w in walks && PathLess(u, w) {
      var i :| 0 <= i < |rest| && rest[i] == w;
      assert walks[i + 1] == w;
    }
    forall g | g in gen ensures Front(g) in taken && Front(g) != u && (g in taken + {u} || g in rest) {
      assert g in walks ==> g == u || g in rest;
    }
  }

  // What u grows by its next edge comes behind everything that is queued.
  lemma GrownIsLast(center: Id, walks: seq<Path>, gen: set<Path>, taken: set<Path>, u: Path, done: seq<Id>, next: Id,
          w: Path)
    requires OrderlyAt(center, walks, gen, taken, u, done)
    requires w in walks && |w| <= |u| + 1 && forall x: Id :: x in done ==> x < next
    ensures PathLess(w, u + [next])
  {
    if |w| == |u| + 1 {
      assert w in gen;
      LexGrow(Front(w), u, Last(w), next);
      assert w == Front(w) + [Last(w)];
    }
  }

  // Following a new edge generates a new walk, and it is the last in order.
  lemma OrderOne(center: Id, walks: seq<Path>, gen: set<Path>, taken: set<Path>, u: Path, done: seq<Id>, next: Id)
    requires OrderlyAt(center, walks, gen, taken, u, done) && Levelled(walks, gen, |u|)
    requires forall x: Id :: x in done ==> x < next
    ensures u + [next] !in gen
    ensures OrderlyAt(center, walks + [u + [next]], gen + {u + [next]}, taken, u, done + [next])
  {
    var v := u + [next];
    assert Front(v) == u && Last(v) == next;
    PathOrder();
    forall w | w in walks ensures PathLess(w, v) {
      GrownIsLast(center, walks, gen, taken, u, done, next, w);
    }
    assert PathLess(u, v);
  }

  // What was taken off comes before every other walk.
  lemma {:induction false} SoonerIsTaken(edges: Edges, nodes: set<Id>, center: Id, walks: seq<Path>, gen: set<Path>,
          taken: set<Path>, v: Path, w: Path)
    requires AllSimple(edges, nodes, center, walks, gen) && Owed(edges, nodes, center, gen, walks)
    requires Orderly(center, walks, gen, taken)
    requires Simple(edges, nodes, center, v) && w in taken && PathLess(v, w)
    ensures v in taken
    decreases |v|
  {
    PathOrder();
    if |v| == 1 {
      assert v == [center];
    } else {
      SimpleCut(edges, nodes, center, v, |v| - 1);
      assert PathLess(Front(v), v);
      SoonerIsTaken(edges, nodes, center, walks, gen, taken, Front(v), w);
      GrownFromTaken(edges, nodes, center, walks, gen, taken, v);
    }
  }

  // Exactly the one-step growths of what was taken off are generated.
  lemma GrownFromTaken(edges: Edges, nodes: set<Id>, center: Id, walks: seq<Path>, gen: set<Path>, taken: set<Path>,
          v: Path)
    requires Owed(edges, nodes, center, gen, walks) && Orderly(center, walks, gen, taken)
    requires Simple(edges, nodes, center, v) && |v| >= 2
    ensures v in gen <==> Front(v) in taken
  {
    if Front(v) in taken && v !in gen {
      var k :| 0 < k < |v| && v[..k] in walks;
      PrefixNotLater(v, k);
    }
  }

  lemma PrefixNotLater(v: Path, k: nat)
    requires 0 < k < |v|
    ensures !PathLess(Front(v), v[..k])
  {
    PathOrder();
    assert k == |v| - 1 ==> v[..k] == Front(v);
  }

  // One edge followed: the walk it grows is generated, queued and noted.
  lemma FollowStep(edges: Edges, nodes: set<Id>, center: Id, reverse: bool, queue: seq<Path>, members: map<Id, Member>,
                   walks: seq<Path>, gen: set<Path>, taken: set<Path>, u: Path, done: seq<Id>, next: Id)
    requires Following(edges, nodes, center, reverse, queue, members, walks, gen, u, done)
    requires OrderlyAt(center, walks, gen, taken, u, done) && forall x: Id :: x in done ==> x < next
    requires Simple(edges, nodes, center, u) && next in Out(edges, Last(u))
    requires next in nodes && next !in View(u, reverse)
    ensures Following(edges, nodes, center, reverse,
                      queue + [AppendDirectionPath(View(u, reverse), next, reverse)],
                      members[next := Noted(MemberAt(members, next), next,
                                            AppendDirectionPath(View(u, reverse), next, reverse))],
                      walks + [u + [next]], gen + {u + [next]}, u, done + [next])
    ensures OrderlyAt(center, walks + [u + [next]], gen + {u + [next]}, taken, u, done + [next])
    ensures |gen + {u + [next]}| == |gen| + 1
  {
    ViewGrow(u, next, reverse);
    FollowOne(edges, nodes, center, reverse, queue, members, walks, gen, u, done, next);
    OrderOne(center, walks, gen, taken, u, done, next);
  }

  lemma SkipStep(edges: Edges, nodes: set<Id>, center: Id, reverse: bool, queue: seq<Path>, members: map<Id, Member>,
                 walks: seq<Path>, gen: set<Path>, taken: set<Path>, u: Path, done: seq<Id>, next: Id)
    requires Following(edges, nodes, center, reverse, queue, members, walks, gen, u, done)
    requires OrderlyAt(center, walks, gen, taken, u, done) && (next !in nodes || next in View(u, reverse))
    ensures Following(edges, nodes, center, reverse, queue, members, walks, gen, u, done + [next])
    ensures OrderlyAt(center, walks, gen, taken, u, done + [next])
  {
    ViewGrow(u, next, reverse);
    OwedSkip(edges, nodes, center, gen, walks, u, done, next);
  }

  // Follow one edge out of one path, unless it leaves the observation or closes a cycle.
  method FollowEdge(edges: Edges, nodes: set<Id>, center: Id, reverse: bool, path: Path, queue0: seq<Path>,
          members0: map<Id, Member>, next: Id, ghost u: Path, ghost done: seq<Id>, ghost walks0: seq<Path>,
          ghost gen0: set<Path>, ghost taken: set<Path>)
      returns (queue: seq<Path>, members: map<Id, Member>, ghost walks: seq<Path>, ghost gen: set<Path>)
    requires Simple(edges, nodes, center, u) && path == View(u, reverse) && next in Out(edges, Last(u))
    requires Following(edges, nodes, center, reverse, queue0, members0, walks0, gen0, u, done)
    requires OrderlyAt(center, walks0, gen0, taken, u, done) && forall x: Id :: x in done ==> x < next
    ensures Following(edges, nodes, center, reverse, queue, members, walks, gen, u, done + [next])
    ensures OrderlyAt(center, walks, gen, taken, u, done + [next]) && |walks| + |gen0| == |walks0| + |gen|
  {
    if next !in nodes || next in path {
      SkipStep(edges, nodes, center, reverse, queue0, members0, walks0, gen0, taken, u, done, next);
      return queue0, members0, walks0, gen0;
    }
    FollowStep(edges, nodes, center, reverse, queue0, members0, walks0, gen0, taken, u, done, next);
    var candidate := AppendDirectionPath(path, next, reverse);
    members := members0[next := Noted(MemberAt(members0, next), next, candidate)];
    queue := queue0 + [candidate];
    walks, gen := walks0 + [u + [next]], gen0 + {u + [next]};
  }

  // Follow every edge out of one path.
  method FollowEdges(edges: Edges, nodes: set<Id>, center: Id, reverse: bool, path: Path, queue0: seq<Path>,
          members0: map<Id, Member>, ghost u: Path, ghost walks0: seq<Path>, ghost gen0: set<Path>,
          ghost taken: set<Path>)
      returns (queue: seq<Path>, members: map<Id, Member>, ghost walks: seq<Path>, ghost gen: set<Path>)
    requires Simple(edges, nodes, center, u) && path == View(u, reverse) && EndsTogether(u, path, reverse)
    requires Following(edges, nodes, center, reverse, queue0, members0, walks0, gen0, u, [])
    requires OrderlyAt(center, walks0, gen0, taken, u, []) && SortedEdges(edges)
    ensures Following(edges, nodes, center, reverse, queue, members, walks, gen, u, Out(edges, Last(u)))
    ensures Orderly(center, walks, gen, taken) && |walks| + |gen0| == |walks0| + |gen|
  {
    queue, members, walks, gen := queue0, members0, walks0, gen0;
    var end := path[|path| - 1];
    if reverse {
      end := path[0];
    }
    var nexts := Out(edges, end);
    assert Increasing(nexts);
    for i := 0 to |nexts|
      invariant Following(edges, nodes, center, reverse, queue, members, walks, gen, u, nexts[..i])
      invariant OrderlyAt(center, walks, gen, taken, u, nexts[..i]) && |walks| + |gen0| == |walks0| + |gen|
    {
      TakeNext(nexts, i);
      queue, members, walks, gen :=
        FollowEdge(edges, nodes, center, reverse, path, queue, members, nexts[i], u, nexts[..i], walks, gen, taken);
    }
    assert nexts[..|nexts|] == nexts;
  }

  // What the search keeps from one visit to the next.
  ghost predicate Searching(edges: Edges, nodes: set<Id>, center: Id, reverse: bool, queue: seq<Path>,
          members: map<Id, Member>, walks: seq<Path>, gen: set<Path>, taken: set<Path>, level: nat) {
    && Mirrors(queue, walks, reverse) && AllSimple(edges, nodes, center, walks, gen)
    && Levelled(walks, gen, level) && Owed(edges, nodes, center, gen, walks)
    && MembersTell(members, gen, reverse) && Orderly(center, walks, gen, taken)
  }

  lemma SearchStart(edges: Edges, nodes: set<Id>, center: Id, reverse: bool)
    ensures Searching(edges, nodes, center, reverse, [[center]], map[], [[center]], {}, {}, 1)
  {
    assert View([center], reverse) == [center];
    OwedStart(edges, nodes, center);
  }

  // The next walk is taken off.
  lemma TakeStep(edges: Edges, nodes: set<Id>, center: Id, reverse: bool, queue: seq<Path>, members: map<Id, Member>,
                 walks: seq<Path>, gen: set<Path>, taken: set<Path>, level: nat)
    requires queue != [] && Searching(edges, nodes, center, reverse, queue, members, walks, gen, taken, level)
    ensures walks != [] && Simple(edges, nodes, center, walks[0]) && queue[0] == View(walks[0], reverse)
    ensures EndsTogether(walks[0], queue[0], reverse) && walks[0] !in taken
    ensures Following(edges, nodes, center, reverse, queue[1..], members, walks[1..], gen, walks[0], [])
    ensures OrderlyAt(center, walks[1..], gen, taken + {walks[0]}, walks[0], [])
  {
    TakeSimple(edges, nodes, center, queue, walks, gen, reverse, level);
    OwedTake(edges, nodes, center, gen, walks);
    OrderTake(center, walks, gen, taken);
  }

  // One visit.
  method VisitFirst(edges: Edges, nodes: set<Id>, center: Id, reverse: bool, queue0: seq<Path>,
          members0: map<Id, Member>, ghost walks0: seq<Path>, ghost gen0: set<Path>, ghost taken0: set<Path>,
          ghost level0: nat)
      returns (queue: seq<Path>, members: map<Id, Member>, ghost walks: seq<Path>, ghost gen: set<Path>,
          ghost taken: set<Path>, ghost level: nat)
    requires Searching(edges, nodes, center, reverse, queue0, members0, walks0, gen0, taken0, level0)
    requires queue0 != [] && SortedEdges(edges)
    ensures Searching(edges, nodes, center, reverse, queue, members, walks, gen, taken, level)
    ensures |taken| == |taken0| + 1 && |walks| + 1 + |gen0| == |walks0| + |gen|
  {
    TakeStep(edges, nodes, center, reverse, queue0, members0, walks0, gen0, taken0, level0);
    ghost var u := walks0[0];
    taken, level := taken0 + {u}, |u|;
    queue, members, walks, gen :=
      FollowEdges(edges, nodes, center, reverse, queue0[0], queue0[1..], members0, u, walks0[1..], gen0, taken);
    OwedNext(edges, nodes, center, gen, walks, u);
  }

  // directionMembers, up to the order of its result.
  method SearchMembers(edges: Edges, nodes: set<Id>, center: Id, reverse: bool, max: nat, visits: Visits)
      returns (members: map<Id, Member>, complete: bool, ghost walks: seq<Path>, ghost gen: set<Path>, ghost level: nat,
          ghost taken: set<Path>)
    requires visits.used <= max && SortedEdges(edges)
    modifies visits
    ensures old(visits.used) <= visits.used <= max
    ensures !complete ==> visits.used == max
    ensures visits.used + |walks| == old(visits.used) + |gen| + 1
    ensures AllSimple(edges, nodes, center, walks, gen) && Levelled(walks, gen, level)
    ensures Owed(edges, nodes, center, gen, walks) && MembersTell(members, gen, reverse)
    ensures complete <==> walks == []
    ensures Orderly(center, walks, gen, taken) && |taken| == visits.used - old(visits.used)
  {
    var queue: seq<Path> := [[center]];
    members, walks, gen, level, taken := map[], [[center]], {}, 1, {};
    SearchStart(edges, nodes, center, reverse);
    while queue != []
      invariant old(visits.used) <= visits.used <= max
      invariant Searching(edges, nodes, center, reverse, queue, members, walks, gen, taken, level)
      invariant visits.used + |walks| == old(visits.used) + |gen| + 1
      invariant |taken| == visits.used - old(visits.used)
      decreases max - visits.used
    {
      if visits.used >= max {
        return members, false, walks, gen, level, taken;
      }
      queue, members, walks, gen, taken, level :=
        VisitFirst(edges, nodes, center, reverse, queue, members, walks, gen, taken, level);
      visits.used := visits.used + 1;
    }
    complete := true;
  }

  // ------------------------------------- what the members say of the graph

  // A Cause path that repeats no Seal, from the center to x (reverse: from x to the center).
  ghost predicate IsRoute(causes: Edges, nodes: set<Id>, center: Id, reverse: bool, x: Id, p: Path) {
    && IsWalk(causes, p) && NoDup(p) && (forall y: Id :: y in p ==> y == center || y in nodes)
    && if reverse then p[0] == x && Last(p) == center else p[0] == center && Last(p) == x
  }

  // The edges a search follows, forwards or backwards.
  ghost predicate Followed(edges: Edges, causes: Edges, reverse: bool) {
    if reverse then Reversed(edges, causes) else edges == causes
  }

  // Turning a walk around.
  lemma RevWalk(m: Edges, m': Edges, p: Path)
    requires IsWalk(m, p) && NoDup(p)
    requires forall a: Id, b: Id :: b in Out(m, a) ==> a in Out(m', b)
    ensures IsWalk(m', Rev(p)) && NoDup(Rev(p))
    ensures Rev(p)[0] == Last(p) && Last(Rev(p)) == p[0]
  {
    var r := Rev(p);
    forall i, j | 0 <= i < j < |r| && j == i + 1 ensures r[j] in Out(m', r[i]) {
      assert p[|p| - 1 - i] in Out(m, p[|p| - 1 - j]);
    }
  }

  lemma ViewTwice(p: Path, reverse: bool)
    ensures View(View(p, reverse), reverse) == p
  {
    assert Rev(Rev(p)) == p;
  }

  lemma SimpleIsRoute(edges: Edges, causes: Edges, nodes: set<Id>, center: Id, reverse: bool, g: Path)
    requires Followed(edges, causes, reverse) && Simple(edges, nodes, center, g)
    ensures IsRoute(causes, nodes, center, reverse, Last(g), View(g, reverse)) && |View(g, reverse)| == |g|
  {
    ViewGrow(g, 0, reverse);
    if reverse {
      RevWalk(edges, causes, g);
    }
    forall y: Id | y in View(g, reverse) ensures y == center || y in nodes {
      var i :| 0 <= i < |g| && g[i] == y;
    }
  }

  lemma InteriorObserved(nodes: set<Id>, center: Id, g: Path)
    requires NoDup(g) && g != [] && g[0] == center && forall y: Id :: y in g ==> y == center || y in nodes
    ensures forall i :: 1 <= i < |g| ==> g[i] in nodes
  {
    forall i | 1 <= i < |g| ensures g[i] in nodes {
      var c, y := g[0], g[i];
      assert y in g && c != y;
    }
  }

  lemma ReverseRoute(edges: Edges, causes: Edges, nodes: set<Id>, center: Id, x: Id, p: Path)
    requires Reversed(edges, causes) && IsRoute(causes, nodes, center, true, x, p)
    ensures IsWalk(edges, Rev(p)) && NoDup(Rev(p)) && Rev(p)[0] == center && Last(Rev(p)) == x
    ensures forall y: Id :: y in Rev(p) ==> y == center || y in nodes
  {
    RevWalk(causes, edges, p);
    ViewGrow(p, 0, true);
  }

  lemma RouteIsSimple(edges: Edges, causes: Edges, nodes: set<Id>, center: Id, reverse: bool, x: Id, p: Path)
    requires Followed(edges, causes, reverse) && IsRoute(causes, nodes, center, reverse, x, p)
    ensures Simple(edges, nodes, center, View(p, reverse)) && EndsAt(View(p, reverse), x)
    ensures |View(p, reverse)| == |p|
  {
    if reverse {
      ReverseRoute(edges, causes, nodes, center, x, p);
    }
    InteriorObserved(nodes, center, View(p, reverse));
  }

  // True of every reported member, even when the budget ran out: its paths are genuine,
  // and no indirect path of the whole observed graph is shorter than the recorded one.
  ghost predicate Genuine(m: Member, causes: Edges, nodes: set<Id>, center: Id, reverse: bool) {
    && (m.direct || m.indirect)
    && (m.direct ==> |m.directPath| == 2 && IsRoute(causes, nodes, center, reverse, m.seal, m.directPath))
    && (m.indirect ==> |m.indirectPath| >= 3 && IsRoute(causes, nodes, center, reverse, m.seal, m.indirectPath))
    && (m.indirect ==>
          forall q: Path :: IsRoute(causes, nodes, center, reverse, m.seal, q) && |q| >= 3 ==> |m.indirectPath| <= |q|)
  }

  // After a complete search the record is final: both kinds are found when they exist and
  // the indirect path is the least one, by length and then lexicographically.
  ghost predicate Final(m: Member, causes: Edges, nodes: set<Id>, center: Id, reverse: bool) {
    && (forall q: Path :: IsRoute(causes, nodes, center, reverse, m.seal, q) && |q| == 2 ==>
         m.direct && m.directPath == q)
    && (forall q: Path :: IsRoute(causes, nodes, center, reverse, m.seal, q) && |q| >= 3 ==>
         m.indirect && !PathLess(q, m.indirectPath))
  }

  // What is still to be generated is at least as long as what was.
  lemma LaterIsLonger(edges: Edges, causes: Edges, nodes: set<Id>, center: Id, reverse: bool,
                      walks: seq<Path>, gen: set<Path>, level: nat, x: Id, q: Path)
    requires Followed(edges, causes, reverse) && Levelled(walks, gen, level) && Owed(edges, nodes, center, gen, walks)
    requires IsRoute(causes, nodes, center, reverse, x, q) && |q| >= 3
    ensures (exists w :: Generates(gen, x, true, w) && |w| == |q| && w == View(q, reverse)) || |q| >= level + 1
  {
    RouteIsSimple(edges, causes, nodes, center, reverse, x, q);
    var w := View(q, reverse);
    if w in gen {
      assert Generates(gen, x, true, w);
    } else {
      var k :| 0 < k < |w| && w[..k] in walks;
    }
  }

  lemma MemberGenuine(edges: Edges, causes: Edges, nodes: set<Id>, center: Id, reverse: bool, m: Member,
                      walks: seq<Path>, gen: set<Path>, level: nat)
    requires Followed(edges, causes, reverse) && AllSimple(edges, nodes, center, walks, gen)
              && Levelled(walks, gen, level)
    requires Owed(edges, nodes, center, gen, walks) && Tells(m, m.seal, gen, reverse)
    ensures Genuine(m, causes, nodes, center, reverse)
  {
    if m.direct {
      var g :| Generates(gen, m.seal, false, g) && m.directPath == View(g, reverse);
      SimpleIsRoute(edges, causes, nodes, center, reverse, g);
    }
    if m.indirect {
      var g :| Generates(gen, m.seal, true, g) && m.indirectPath == View(g, reverse);
      SimpleIsRoute(edges, causes, nodes, center, reverse, g);
      forall q: Path | IsRoute(causes, nodes, center, reverse, m.seal, q) && |q| >= 3
        ensures |m.indirectPath| <= |q|
      {
        LaterIsLonger(edges, causes, nodes, center, reverse, walks, gen, level, m.seal, q);
      }
    }
  }

  // With nothing left in the queue every route was generated.
  lemma RouteGenerated(edges: Edges, causes: Edges, nodes: set<Id>, center: Id, reverse: bool, gen: set<Path>, x: Id,
          q: Path)
    requires Followed(edges, causes, reverse) && Owed(edges, nodes, center, gen, [])
    requires IsRoute(causes, nodes, center, reverse, x, q) && |q| >= 2
    ensures Generates(gen, x, |q| >= 3, View(q, reverse)) && View(View(q, reverse), reverse) == q
  {
    RouteIsSimple(edges, causes, nodes, center, reverse, x, q);
    assert !Started([], View(q, reverse));
    ViewTwice(q, reverse);
  }

  lemma MemberFinal(edges: Edges, causes: Edges, nodes: set<Id>, center: Id, reverse: bool, m: Member, gen: set<Path>)
    requires Followed(edges, causes, reverse) && AllSimple(edges, nodes, center, [], gen)
    requires Owed(edges, nodes, center, gen, []) && Tells(m, m.seal, gen, reverse)
    ensures Final(m, causes, nodes, center, reverse)
  {
    forall q: Path | IsRoute(causes, nodes, center, reverse, m.seal, q) && |q| >= 3
      ensures m.indirect && !PathLess(q, m.indirectPath)
    {
      RouteGenerated(edges, causes, nodes, center, reverse, gen, m.seal, q);
    }
    forall q: Path | IsRoute(causes, nodes, center, reverse, m.seal, q) && |q| == 2
      ensures m.direct && m.directPath == q
    {
      RouteGenerated(edges, causes, nodes, center, reverse, gen, m.seal, q);
      var g :| Generates(gen, m.seal, false, g) && m.directPath == View(g, reverse);
      SimpleIsRoute(edges, causes, nodes, center, reverse, g);
      PairRoute(causes, nodes, center, reverse, m.seal, q, m.directPath);
    }
  }

  lemma PairRoute(causes: Edges, nodes: set<Id>, center: Id, reverse: bool, x: Id, p: Path, q: Path)
    requires IsRoute(causes, nodes, center, reverse, x, p) && IsRoute(causes, nodes, center, reverse, x, q)
    requires |p| == 2 && |q| == 2
    ensures p == q
  {
  }

  // A complete search finds every Seal some route joins to the center.
  lemma AllFound(edges: Edges, causes: Edges, nodes: set<Id>, center: Id, reverse: bool, members: map<Id, Member>,
          gen: set<Path>, x: Id)
    requires Followed(edges, causes, reverse) && AllSimple(edges, nodes, center, [], gen)
    requires Owed(edges, nodes, center, gen, []) && MembersTell(members, gen, reverse)
    requires exists q: Path :: IsRoute(causes, nodes, center, reverse, x, q) && |q| >= 2
    ensures x in members
  {
    var q: Path :| IsRoute(causes, nodes, center, reverse, x, q) && |q| >= 2;
    RouteGenerated(edges, causes, nodes, center, reverse, gen, x, q);
  }

  // Cause edges turned around.
  method ReverseCauses(causes: Edges) returns (r: Edges)
    requires SortedEdges(causes)
    ensures Reversed(r, causes)
  {
    r := map[];
    var todo := causes.Keys;
    while todo != {}
      invariant todo <= causes.Keys
      invariant forall a: Id :: NoDup(Out(r, a))
      invariant forall a: Id, b: Id {:trigger b in Out(r, a)} {:trigger a in Out(causes, b)} :: b in Out(r, a) <==>
                  b !in todo && a in Out(causes, b)
    {
      var dependent :| dependent in todo;
      r := ReverseOne(r, causes, todo, dependent);
      todo := todo - {dependent};
    }
    ghost var unsorted := r;
    r := SortEdges(r);
    forall x: Id
      ensures Increasing(Out(r, x)) && forall y: Id :: y in Out(r, x) <==> y in Out(unsorted, x)
    {
      SortIdsIncreasing(Out(unsorted, x));
    }
  }

  method ReverseOne(m: Edges, causes: Edges, ghost todo: set<Id>, dependent: Id) returns (r: Edges)
    requires dependent in todo && SortedEdges(causes)
    requires forall a: Id :: NoDup(Out(m, a))
    requires forall a: Id, b: Id {:trigger b in Out(m, a)} {:trigger a in Out(causes, b)} :: b in Out(m, a) <==>
              b !in todo && a in Out(causes, b)
    ensures forall a: Id :: NoDup(Out(r, a))
    ensures forall a: Id, b: Id {:trigger b in Out(r, a)} {:trigger a in Out(causes, b)} ::
              b in Out(r, a) <==> b !in todo - {dependent} && a in Out(causes, b)
  {
    r := m;
    var targets := Out(causes, dependent);
    for i := 0 to |targets|
      invariant forall a: Id :: NoDup(Out(r, a))
      invariant forall a: Id, b: Id {:trigger b in Out(r, a)} {:trigger a in Out(causes, b)} ::
                  b in Out(r, a) <==> b in Out(m, a) || (b == dependent && a in targets[..i])
    {
      TakeNext(targets, i);
      AddEdgeOut(r, targets[i], dependent);
      r := AddEdge(r, targets[i], dependent);
    }
    assert targets[..|targets|] == targets;
  }

  lemma AddEdgeOut(m: Edges, a: Id, b: Id)
    requires forall x: Id :: NoDup(Out(m, x))
    ensures forall x: Id :: NoDup(Out(AddEdge(m, a, b), x))
    ensures forall x: Id, y: Id :: y in Out(AddEdge(m, a, b), x) <==> y in Out(m, x) || (x == a && y == b)
  {
    var r := AddEdge(m, a, b);
    assert NoDup(Out(m, a));
    forall x: Id
      ensures NoDup(Out(r, x)) && forall y: Id :: y in Out(r, x) <==> y in Out(m, x) || (x == a && y == b)
    {
      assert x != a ==> Out(r, x) == Out(m, x);
    }
  }

  // What one direction reports; complete says whether the search ended by itself.
  ghost predicate Reports(r: seq<Member>, causes: Edges, nodes: set<Id>, center: Id, reverse: bool, complete: bool) {
    && (forall i, j :: 0 <= i < j < |r| ==> r[i].seal < r[j].seal)
    && (forall m :: m in r ==> Genuine(m, causes, nodes, center, reverse))
    && (complete ==> forall m :: m in r ==> Final(m, causes, nodes, center, reverse))
    && (complete ==> forall x: Id, q: Path :: IsRoute(causes, nodes, center, reverse, x, q) && |q| >= 2 ==>
          exists m :: m in r && m.seal == x)
  }

  // ------------------------------------------------ what a search costs

  // A Cause path of one step or more that repeats no Seal and begins (reverse: ends) at the center.
  ghost predicate RouteOf(causes: Edges, nodes: set<Id>, center: Id, reverse: bool, p: Path) {
    |p| >= 2 && IsRoute(causes, nodes, center, reverse, if reverse then p[0] else Last(p), p)
  }

  ghost predicate Routes(found: set<Path>, causes: Edges, nodes: set<Id>, center: Id, reverse: bool) {
    forall p :: p in found ==> RouteOf(causes, nodes, center, reverse, p)
  }

  ghost predicate AllRoutes(found: set<Path>, causes: Edges, nodes: set<Id>, center: Id, reverse: bool) {
    forall p: Path {:trigger RouteOf(causes, nodes, center, reverse, p)} ::
      p in found <==> RouteOf(causes, nodes, center, reverse, p)
  }

  // One visit for the center and one for every route found; all routes unless the budget ran
  // out, and then those the visits led to.
  ghost predicate Spent(found: set<Path>, causes: Edges, nodes: set<Id>, center: Id, reverse: bool, before: nat,
          after: nat, max: nat) {
    && Routes(found, causes, nodes, center, reverse)
    && before <= after && FoundBy(found, causes, nodes, center, reverse, after - before)
    && if before + 1 + |found| <= max then
         AllRoutes(found, causes, nodes, center, reverse) && after == before + 1 + |found|
       else
         after == max
  }

  // The end of a route away from the center.
  function FarEnd(p: Path, reverse: bool): Id
    requires p != []
  {
    if reverse then p[0] else Last(p)
  }

  // The route without its far end.
  function Shorter(p: Path, reverse: bool): Path
    requires p != []
  {
    if reverse then p[1..] else p[..|p| - 1]
  }

  // Routes in the order the search meets them: by length, then Seal by Seal away from the center.
  predicate Sooner(p: Path, q: Path, reverse: bool) {
    PathLess(View(p, reverse), View(q, reverse))
  }

  // What may be taken off the queue: the center alone, or a route.
  ghost predicate Visit(causes: Edges, nodes: set<Id>, center: Id, reverse: bool, p: Path) {
    p == [center] || RouteOf(causes, nodes, center, reverse, p)
  }

  // The visited ones are the first so many, whatever the budget.
  ghost predicate FirstVisits(visited: set<Path>, causes: Edges, nodes: set<Id>, center: Id, reverse: bool, n: nat) {
    && |visited| == n
    && (forall v :: v in visited ==> Visit(causes, nodes, center, reverse, v))
    && (forall v: Path, w: Path {:trigger Visit(causes, nodes, center, reverse, v), w in visited} ::
          Visit(causes, nodes, center, reverse, v) && w in visited && Sooner(v, w, reverse) ==> v in visited)
  }

  // The routes found are those that extend one of the first n visits by one Seal.
  ghost predicate FoundBy(found: set<Path>, causes: Edges, nodes: set<Id>, center: Id, reverse: bool, n: nat) {
    exists visited :: FirstVisits(visited, causes, nodes, center, reverse, n)
      && forall p: Path {:trigger RouteOf(causes, nodes, center, reverse, p)} {:trigger p in found} ::
           p in found <==> RouteOf(causes, nodes, center, reverse, p) && Shorter(p, reverse) in visited
  }

  // So the budget alone decides what is found.
  lemma FoundUnique(a: set<Path>, b: set<Path>, causes: Edges, nodes: set<Id>, center: Id, reverse: bool, n: nat)
    requires FoundBy(a, causes, nodes, center, reverse, n) && FoundBy(b, causes, nodes, center, reverse, n)
    ensures a == b
  {
    var v :| FirstVisits(v, causes, nodes, center, reverse, n)
      && forall p: Path {:trigger p in a} ::
           p in a <==> RouteOf(causes, nodes, center, reverse, p) && Shorter(p, reverse) in v;
    var w :| FirstVisits(w, causes, nodes, center, reverse, n)
      && forall p: Path {:trigger p in b} ::
           p in b <==> RouteOf(causes, nodes, center, reverse, p) && Shorter(p, reverse) in w;
    VisitsUnique(v, w, causes, nodes, center, reverse, n);
    forall p ensures p in a <==> p in b {}
  }

  lemma SoonerTotal(p: Path, q: Path, reverse: bool)
    ensures p == q || Sooner(p, q, reverse) || Sooner(q, p, reverse)
  {
    PathOrder();
    ViewTwice(p, reverse);
    ViewTwice(q, reverse);
  }

  lemma VisitsUnique(v: set<Path>, w: set<Path>, causes: Edges, nodes: set<Id>, center: Id, reverse: bool, n: nat)
    requires FirstVisits(v, causes, nodes, center, reverse, n) && FirstVisits(w, causes, nodes, center, reverse, n)
    ensures v == w
  {
    if x :| x in v && x !in w {
      if y :| y in w && y !in v {
        SoonerTotal(x, y, reverse);
        assert false;
      }
      assert w <= v - {x};
      SubsetSize(w, v - {x});
    } else {
      SubsetSize(v, w);
      if y :| y in w && y !in v {
        assert v <= w - {y};
        SubsetSize(v, w - {y});
      }
    }
  }

  // A route found counts for the member at its far end: by kind, and the best one is recorded.
  ghost predicate Counts(m: Member, p: Path, reverse: bool) {
    && p != [] && m.seal == FarEnd(p, reverse)
    && if |p| == 2 then m.direct && !PathLess(p, m.directPath) else m.indirect && !PathLess(p, m.indirectPath)
  }

  // A member records routes that were found, each under its kind.
  ghost predicate Records(m: Member, found: set<Path>) {
    && (if m.direct then m.directPath in found && |m.directPath| == 2 else m.directPath == [])
    && (if m.indirect then m.indirectPath in found && |m.indirectPath| >= 3 else m.indirectPath == [])
  }

  // Every route found is accounted for, and nothing else is recorded.
  ghost predicate Covers(r: seq<Member>, found: set<Path>, reverse: bool) {
    && (forall p :: p in found ==> exists m :: m in r && Counts(m, p, reverse))
    && (forall m :: m in r ==> Records(m, found))
  }

  ghost function Views(gen: set<Path>, reverse: bool): set<Path> {
    set g | g in gen :: View(g, reverse)
  }

  lemma {:induction false} ViewsSize(gen: set<Path>, reverse: bool)
    ensures |Views(gen, reverse)| == |gen|
  {
    if gen == {} {
      assert Views({}, reverse) == {};
    } else {
      var g :| g in gen;
      ViewsSize(gen - {g}, reverse);
      assert Views(gen, reverse) == Views(gen - {g}, reverse) + {View(g, reverse)};
      forall h | h in gen - {g} ensures View(h, reverse) != View(g, reverse) {
        ViewTwice(h, reverse);
        ViewTwice(g, reverse);
      }
    }
  }

  // The generated walks, read along the arrows, are the routes found.
  lemma GeneratedAreRoutes(edges: Edges, causes: Edges, nodes: set<Id>, center: Id, reverse: bool, walks: seq<Path>,
          gen: set<Path>)
    requires Followed(edges, causes, reverse) && AllSimple(edges, nodes, center, walks, gen)
    requires Owed(edges, nodes, center, gen, walks)
    ensures Routes(Views(gen, reverse), causes, nodes, center, reverse)
    ensures walks == [] ==> AllRoutes(Views(gen, reverse), causes, nodes, center, reverse)
  {
    forall g | g in gen ensures RouteOf(causes, nodes, center, reverse, View(g, reverse)) {
      SimpleIsRoute(edges, causes, nodes, center, reverse, g);
    }
    if walks == [] {
      forall p: Path | RouteOf(causes, nodes, center, reverse, p) ensures p in Views(gen, reverse) {
        RouteGenerated(edges, causes, nodes, center, reverse, gen, if reverse then p[0] else Last(p), p);
      }
    }
  }

  // What was taken off the queue, read along the arrows, are the first visits.
  lemma TakenAreFirst(edges: Edges, causes: Edges, nodes: set<Id>, center: Id, reverse: bool, walks: seq<Path>,
          gen: set<Path>, taken: set<Path>)
    requires Followed(edges, causes, reverse) && AllSimple(edges, nodes, center, walks, gen)
    requires Owed(edges, nodes, center, gen, walks) && Orderly(center, walks, gen, taken)
    ensures FirstVisits(Views(taken, reverse), causes, nodes, center, reverse, |taken|)
  {
    var visited := Views(taken, reverse);
    ViewsSize(taken, reverse);
    assert View([center], reverse) == [center];
    forall t | t in taken ensures Visit(causes, nodes, center, reverse, View(t, reverse)) {
      if t != [center] {
        SimpleIsRoute(edges, causes, nodes, center, reverse, t);
      }
    }
    forall v: Path, w: Path | Visit(causes, nodes, center, reverse, v) && w in visited && Sooner(v, w, reverse)
      ensures v in visited
    {
      VisitIsSimple(edges, causes, nodes, center, reverse, v);
      var t :| t in taken && w == View(t, reverse);
      ViewTwice(t, reverse);
      ViewTwice(v, reverse);
      SoonerIsTaken(edges, nodes, center, walks, gen, taken, View(v, reverse), t);
    }
  }

  lemma VisitIsSimple(edges: Edges, causes: Edges, nodes: set<Id>, center: Id, reverse: bool, v: Path)
    requires Followed(edges, causes, reverse) && Visit(causes, nodes, center, reverse, v)
    ensures Simple(edges, nodes, center, View(v, reverse)) && |View(v, reverse)| == |v|
  {
    if v == [center] {
      assert View(v, reverse) == [center];
    } else {
      RouteIsSimple(edges, causes, nodes, center, reverse, FarEnd(v, reverse), v);
    }
  }

  lemma ViewShorter(p: Path, reverse: bool)
    requires p != []
    ensures View(Shorter(p, reverse), reverse) == Front(View(p, reverse)) && View(p, reverse) != []
    ensures FarEnd(p, reverse) == Last(View(p, reverse))
  {
    if reverse {
      assert Rev(p[1..]) == Rev(p)[..|p| - 1];
    }
  }

  lemma FoundInOrder(edges: Edges, causes: Edges, nodes: set<Id>, center: Id, reverse: bool, walks: seq<Path>,
          gen: set<Path>, taken: set<Path>)
    requires Followed(edges, causes, reverse) && AllSimple(edges, nodes, center, walks, gen)
    requires Owed(edges, nodes, center, gen, walks) && Orderly(center, walks, gen, taken)
    ensures FoundBy(Views(gen, reverse), causes, nodes, center, reverse, |taken|)
  {
    var found, visited := Views(gen, reverse), Views(taken, reverse);
    TakenAreFirst(edges, causes, nodes, center, reverse, walks, gen, taken);
    GeneratedAreRoutes(edges, causes, nodes, center, reverse, walks, gen);
    forall p: Path | RouteOf(causes, nodes, center, reverse, p)
      ensures p in found <==> Shorter(p, reverse) in visited
    {
      var g := View(p, reverse);
      VisitIsSimple(edges, causes, nodes, center, reverse, p);
      GrownFromTaken(edges, nodes, center, walks, gen, taken, g);
      ViewShorter(p, reverse);
      InViews(gen, reverse, p);
      InViews(taken, reverse, Shorter(p, reverse));
    }
  }

  lemma InViews(gen: set<Path>, reverse: bool, p: Path)
    ensures p in Views(gen, reverse) <==> View(p, reverse) in gen
  {
    ViewTwice(p, reverse);
    if p in Views(gen, reverse) {
      var g :| g in gen && p == View(g, reverse);
      ViewTwice(g, reverse);
    }
  }

  // directionMembers: sorted members with genuine, shortest routes; all of them when complete,
  // and otherwise those the first visits led to.
  method DirectionMembers(causes: Edges, nodes: set<Id>, center: Id, reverse: bool, max: nat, visits: Visits)
      returns (r: seq<Member>, complete: bool, ghost found: set<Path>)
    requires visits.used <= max && SortedEdges(causes)
    modifies visits
    ensures old(visits.used) <= visits.used <= max
    ensures Reports(r, causes, nodes, center, reverse, complete) && Covers(r, found, reverse)
    ensures Spent(found, causes, nodes, center, reverse, old(visits.used), visits.used, max)
    ensures complete <==> old(visits.used) + 1 + |found| <= max
  {
    var edges := causes;
    if reverse {
      edges := ReverseCauses(causes);
    }
    var members;
    ghost var walks, gen, level, taken;
    members, complete, walks, gen, level, taken := SearchMembers(edges, nodes, center, reverse, max, visits);
    r := SortedMembers(members);
    found := Views(gen, reverse);
    ViewsSize(gen, reverse);
    GeneratedAreRoutes(edges, causes, nodes, center, reverse, walks, gen);
    FoundInOrder(edges, causes, nodes, center, reverse, walks, gen, taken);
    MembersReport(edges, causes, nodes, center, reverse, members, walks, gen, level, r);
    MembersCover(members, gen, reverse, r);
  }

  lemma MembersCover(members: map<Id, Member>, gen: set<Path>, reverse: bool, r: seq<Member>)
    requires MembersTell(members, gen, reverse)
    requires forall m: Member :: m in r <==> m.seal in members && members[m.seal] == m
    ensures Covers(r, Views(gen, reverse), reverse)
  {
    forall p | p in Views(gen, reverse) ensures exists m :: m in r && Counts(m, p, reverse) {
      var g :| g in gen && p == View(g, reverse);
      var x := Last(g);
      FoundCounts(members[x], gen, reverse, g);
      assert members[x] in r;
    }
    forall m | m in r ensures Records(m, Views(gen, reverse)) {
      FoundRecorded(m, gen, reverse);
    }
  }

  lemma FoundCounts(m: Member, gen: set<Path>, reverse: bool, g: Path)
    requires g in gen && |g| >= 2 && Tells(m, Last(g), gen, reverse)
    ensures Counts(m, View(g, reverse), reverse)
  {
    ViewGrow(g, 0, reverse);
    assert Generates(gen, Last(g), |g| >= 3, g);
  }

  lemma FoundRecorded(m: Member, gen: set<Path>, reverse: bool)
    requires Tells(m, m.seal, gen, reverse)
    ensures Records(m, Views(gen, reverse))
  {
    if m.direct {
      var g :| Generates(gen, m.seal, false, g) && m.directPath == View(g, reverse);
      ViewGrow(g, 0, reverse);
    }
    if m.indirect {
      var g :| Generates(gen, m.seal, true, g) && m.indirectPath == View(g, reverse);
      ViewGrow(g, 0, reverse);
    }
  }

  // What a sorted members map says of the observed graph.
  lemma MembersReport(edges: Edges, causes: Edges, nodes: set<Id>, center: Id, reverse: bool, members: map<Id, Member>,
          walks: seq<Path>, gen: set<Path>, level: nat, r: seq<Member>)
    requires Followed(edges, causes, reverse) && AllSimple(edges, nodes, center, walks, gen)
    requires Levelled(walks, gen, level) && Owed(edges, nodes, center, gen, walks) && MembersTell(members, gen, reverse)
    requires forall i, j :: 0 <= i < j < |r| ==> r[i].seal < r[j].seal
    requires forall m: Member :: m in r <==> m.seal in members && members[m.seal] == m
    ensures Reports(r, causes, nodes, center, reverse, walks == [])
  {
    forall m | m in r
      ensures Genuine(m, causes, nodes, center, reverse) && (walks == [] ==> Final(m, causes, nodes, center, reverse))
    {
      MemberGenuine(edges, causes, nodes, center, reverse, m, walks, gen, level);
      if walks == [] {
        MemberFinal(edges, causes, nodes, center, reverse, m, gen);
      }
    }
    if walks == [] {
      forall x: Id, q: Path | IsRoute(causes, nodes, center, reverse, x, q) && |q| >= 2
        ensures exists m :: m in r && m.seal == x
      {
        AllFound(edges, causes, nodes, center, reverse, members, gen, x);
        assert members[x] in r;
      }
    }
  }

  method SortedMembers(members: map<Id, Member>) returns (r: seq<Member>)
    requires forall x: Id :: x in members ==> members[x].seal == x
    ensures forall i, j :: 0 <= i < j < |r| ==> r[i].seal < r[j].seal
    ensures forall m: Member :: m in r <==> m.seal in members && members[m.seal] == m
  {
    r := [];
    var ids := SortedKeys(members.Keys);
    for i := 0 to |ids|
      invariant |r| == i && forall k :: 0 <= k < i ==>
                  r[k].seal == ids[k] && ids[k] in members && r[k] == members[ids[k]]
    {
      assert ids[i] in ids;
      r := r + [members[ids[i]]];
    }
    forall m: Member | m.seal in members && members[m.seal] == m ensures m in r {
      var k :| 0 <= k < |ids| && ids[k] == m.seal;
      assert r[k] == m;
    }
  }

  ghost predicate EdgesWithin(causes: Edges, nodes: set<Id>) {
    forall a: Id, b: Id {:trigger b in Out(causes, a)} :: b in Out(causes, a) ==> a in nodes && b in nodes
  }

  // In an acyclic graph whose nodes hold every edge, a route exists exactly when one
  // Seal is strictly above the other.
  lemma RouteIffReaches(causes: Edges, nodes: set<Id>, rank: map<Id, nat>, center: Id, reverse: bool, x: Id)
    requires Ranked(causes, rank) && EdgesWithin(causes, nodes)
    ensures (exists q: Path :: IsRoute(causes, nodes, center, reverse, x, q) && |q| >= 2)
            <==> x != center && if reverse then Reaches(causes, x, center) else Reaches(causes, center, x)
  {
    var a, b := if reverse then x else center, if reverse then center else x;
    if q: Path :| IsRoute(causes, nodes, center, reverse, x, q) && |q| >= 2 {
      assert Joins(causes, q, a, b);
    }
    if x != center && Reaches(causes, a, b) {
      var q :| Joins(causes, q, a, b);
      WalkSimple(causes, rank, q);
      assert |q| >= 2;
      WalkObserved(causes, nodes, q);
      assert IsRoute(causes, nodes, center, reverse, x, q);
    }
  }

  lemma WalkObserved(causes: Edges, nodes: set<Id>, q: Path)
    requires IsWalk(causes, q) && |q| >= 2 && EdgesWithin(causes, nodes)
    ensures forall y: Id :: y in q ==> y in nodes
  {
    forall y: Id | y in q ensures y in nodes {
      var i :| 0 <= i < |q| && q[i] == y;
      var k := if i == 0 then 0 else i - 1;
      var s, t := q[k], q[k + 1];
      assert t in Out(causes, s);
    }
  }
}
