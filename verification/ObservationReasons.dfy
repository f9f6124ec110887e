/** Bounded witnesses with complete membership (internal/repository/observation_inspect.go:258-316). */
module ObservationReasons {
  import opened Ids
  import opened Walks
  import opened ObservedGraph
  import opened StalePaths
  import opened Admission

  datatype Kind = OUTSIDE_ACTIVE | ACTIVE_NON_LEAF
  datatype Reason = Reason(subject: Id, target: Id, kind: Kind, direct: bool, paths: seq<Path>, pathsComplete: bool)
  datatype WalkError = CauseCycle(at: Id) | Unloadable(at: Id)

  // The Cause targets of each loadable Seal, in link order.
  function CausesOf(env: map<Id, Seal>): Edges {
    map id | id in env :: LinkTargets(env[id].links)
  }

  // ------------------------------------------ every path, in visiting order

  ghost function Left(env: map<Id, Seal>, path: Path): nat {
    |env.Keys - Elems(path)|
  }

  lemma LeftShrinks(env: map<Id, Seal>, path: Path, id: Id)
    requires id in env && id !in path
    ensures Left(env, path + [id]) < Left(env, path)
  {
    assert env.Keys - Elems(path + [id]) == (env.Keys - Elems(path)) - {id};
  }

  // No load fails and no Cause walk closes on itself below id.
  ghost predicate Clean(env: map<Id, Seal>, path: Path, id: Id)
    decreases Left(env, path), 0
  {
    id !in path && id in env && (LeftShrinks(env, path, id); CleanAll(env, path + [id], LinkTargets(env[id].links)))
  }

  ghost predicate CleanAll(env: map<Id, Seal>, path: Path, targets: seq<Id>)
    decreases Left(env, path), |targets| + 1
  {
    forall i :: 0 <= i < |targets| ==> Clean(env, path, targets[i])
  }

  ghost function Enumerate(env: map<Id, Seal>, path: Path, id: Id): seq<Path>
    decreases Left(env, path), 0
  {
    if id in path || id !in env then []
    else
      LeftShrinks(env, path, id);
      [path + [id]] + EnumerateAll(env, path + [id], LinkTargets(env[id].links))
  }

  ghost function EnumerateAll(env: map<Id, Seal>, path: Path, targets: seq<Id>): seq<Path>
    decreases Left(env, path), |targets| + 1
  {
    if targets == [] then []
    else EnumerateAll(env, path, targets[..|targets| - 1]) + Enumerate(env, path, targets[|targets| - 1])
  }

  // p continues path with a Cause walk that starts at id.
  ghost predicate Continues(env: map<Id, Seal>, path: Path, id: Id, p: Path) {
    |p| > |path| && p[..|path|] == path && p[|path|] == id && IsWalk(CausesOf(env), p[|path|..])
  }

  lemma {:induction false} EnumerateExact(env: map<Id, Seal>, path: Path, id: Id, p: Path)
    requires Clean(env, path, id)
    ensures p in Enumerate(env, path, id) <==> Continues(env, path, id, p)
    decreases Left(env, path), 0
  {
    LeftShrinks(env, path, id);
    var next := path + [id];
    var targets := LinkTargets(env[id].links);
    EnumerateAllExact(env, next, targets, p);
    assert p in Enumerate(env, path, id) <==> p == next || p in EnumerateAll(env, next, targets);
    assert Out(CausesOf(env), id) == targets;
    if Continues(env, path, id, p) && p != next {
      ContinuesOn(env, path, id, p);
    }
    if t: Id :| t in targets && Continues(env, next, t, p) {
      ContinuesBack(env, path, id, t, p);
    }
    if p == next {
      assert p[|path|..] == [id];
    }
  }

  // A longer continuation goes on through one of the Causes.
  lemma ContinuesOn(env: map<Id, Seal>, path: Path, id: Id, p: Path)
    requires Continues(env, path, id, p) && p != path + [id]
    ensures |p| > |path| + 1 && p[|path| + 1] in Out(CausesOf(env), id) && Continues(env, path + [id], p[|path| + 1], p)
  {
    var q, next := p[|path|..], path + [id];
    assert p == path + q;
    assert q[1] in Out(CausesOf(env), q[0]) by {
      assert |q| > 1 || q == [id];
    }
    WalkPart(CausesOf(env), q, 1, |q|);
    assert p[|next|..] == q[1..|q|];
    assert p[..|next|] == next;
  }

  lemma ContinuesBack(env: map<Id, Seal>, path: Path, id: Id, t: Id, p: Path)
    requires t in Out(CausesOf(env), id) && Continues(env, path + [id], t, p)
    ensures Continues(env, path, id, p)
  {
    var q := p[|path| + 1..];
    assert p == path + [id] + q;
    assert p[|path|..] == [id] + q && p[..|path|] == path;
    StepWalk(CausesOf(env), id, q);
  }

  lemma StepWalk(m: Edges, a: Id, q: Path)
    requires IsWalk(m, q) && q[0] in Out(m, a)
    ensures IsWalk(m, [a] + q)
  {
  }

  lemma {:induction false} EnumerateAllExact(env: map<Id, Seal>, path: Path, targets: seq<Id>, p: Path)
    requires CleanAll(env, path, targets)
    ensures p in EnumerateAll(env, path, targets) <==> exists t: Id :: t in targets && Continues(env, path, t, p)
    decreases Left(env, path), |targets| + 1
  {
    if targets != [] {
      var init, last := targets[..|targets| - 1], targets[|targets| - 1];
      assert forall i :: 0 <= i < |init| ==> init[i] == targets[i];
      assert Clean(env, path, targets[|targets| - 1]);
      EnumerateAllExact(env, path, init, p);
      EnumerateExact(env, path, last, p);
      PopLast(targets);
    }
  }

  // Where the walk stops: at a Seal it passed already, or at one that does not load.
  ghost predicate Stops(env: map<Id, Seal>, path: Path, id: Id, e: WalkError) {
    exists p :: Continues(env, path, id, p) && Last(p) == e.at
      && match e
         case CauseCycle(at) => at in p[..|p| - 1]
         case Unloadable(at) => at !in env
  }

  lemma StopsHere(env: map<Id, Seal>, path: Path, id: Id)
    ensures id in path ==> Stops(env, path, id, CauseCycle(id))
    ensures id !in env ==> Stops(env, path, id, Unloadable(id))
  {
    var p := path + [id];
    assert p[|path|..] == [id] && p[..|path|] == path;
    assert Continues(env, path, id, p) && Last(p) == id;
  }

  lemma StopsBelow(env: map<Id, Seal>, path: Path, id: Id, t: Id, e: WalkError)
    requires id in env && t in LinkTargets(env[id].links) && Stops(env, path + [id], t, e)
    ensures Stops(env, path, id, e)
  {
    var p :| Continues(env, path + [id], t, p) && Last(p) == e.at
      && match e
         case CauseCycle(at) => at in p[..|p| - 1]
         case Unloadable(at) => at !in env;
    assert Out(CausesOf(env), id) == LinkTargets(env[id].links);
    ContinuesBack(env, path, id, t, p);
  }

  // ------------------------------------------------- the order of the visits

  ghost predicate Ahead(targets: seq<Id>, a: Id, b: Id) {
    exists i, j :: 0 <= i < j < |targets| && targets[i] == a && targets[j] == b
  }

  ghost function LinksAt(env: map<Id, Seal>, roots: seq<Id>, n: nat, p: Path, k: nat): seq<Id>
    requires n <= k < |p|
  {
    if k == n then roots else Out(CausesOf(env), p[k - 1])
  }

  // A path comes before those that go on from it, and where two part the link order decides.
  ghost predicate Precedes(env: map<Id, Seal>, roots: seq<Id>, n: nat, p: Path, q: Path) {
    || (|p| < |q| && q[..|p|] == p)
    || exists k {:trigger LinksAt(env, roots, n, p, k)} ::
         n <= k < |p| && k < |q| && p[..k] == q[..k] && Ahead(LinksAt(env, roots, n, p, k), p[k], q[k])
  }

  ghost predicate Visited(env: map<Id, Seal>, roots: seq<Id>, n: nat, list: seq<Path>) {
    forall i, j :: 0 <= i < j < |list| ==> Precedes(env, roots, n, list[i], list[j])
  }

  lemma PrecedesMore(env: map<Id, Seal>, roots: seq<Id>, more: seq<Id>, n: nat, p: Path, q: Path)
    requires Precedes(env, roots, n, p, q) && forall a: Id, b: Id :: Ahead(roots, a, b) ==> Ahead(more, a, b)
    ensures Precedes(env, more, n, p, q)
  {
    if !(|p| < |q| && q[..|p|] == p) {
      var k :| n <= k < |p| && k < |q| && p[..k] == q[..k] && Ahead(LinksAt(env, roots, n, p, k), p[k], q[k]);
      assert Ahead(LinksAt(env, more, n, p, k), p[k], q[k]);
    }
  }

  lemma {:induction false} EnumerateOrder(env: map<Id, Seal>, path: Path, id: Id)
    ensures Visited(env, [id], |path|, Enumerate(env, path, id))
    decreases Left(env, path), 0
  {
    if id !in path && id in env {
      LeftShrinks(env, path, id);
      var targets := LinkTargets(env[id].links);
      EnumerateAllOrder(env, path + [id], targets);
      EnumerateAllStarts(env, path + [id], targets);
      assert Out(CausesOf(env), id) == targets;
      VisitedBelow(env, path, id, EnumerateAll(env, path + [id], targets));
    }
  }

  lemma VisitedBelow(env: map<Id, Seal>, path: Path, id: Id, below: seq<Path>)
    requires Visited(env, Out(CausesOf(env), id), |path| + 1, below)
    requires forall p :: p in below ==> |p| > |path| + 1 && p[..|path| + 1] == path + [id]
    ensures Visited(env, [id], |path|, [path + [id]] + below)
  {
    var list := [path + [id]] + below;
    forall i, j | 0 <= i < j < |list| ensures Precedes(env, [id], |path|, list[i], list[j]) {
      assert list[j] == below[j - 1] && below[j - 1] in below;
      if i > 0 {
        assert list[i] == below[i - 1] && below[i - 1] in below;
        PrecedesUp(env, path, id, below[i - 1], below[j - 1]);
      }
    }
  }

  lemma PrecedesUp(env: map<Id, Seal>, path: Path, id: Id, p: Path, q: Path)
    requires |p| > |path| + 1 && p[..|path| + 1] == path + [id]
    requires Precedes(env, Out(CausesOf(env), id), |path| + 1, p, q)
    ensures Precedes(env, [id], |path|, p, q)
  {
    var roots, n := Out(CausesOf(env), id), |path| + 1;
    if !(|p| < |q| && q[..|p|] == p) {
      var k :| n <= k < |p| && k < |q| && p[..k] == q[..k] && Ahead(LinksAt(env, roots, n, p, k), p[k], q[k]);
      assert p[n - 1] == (path + [id])[n - 1] == id;
      assert LinksAt(env, [id], n - 1, p, k) == LinksAt(env, roots, n, p, k);
    }
  }

  // The enumeration goes down before it goes on, and takes the links in their order.
  lemma {:induction false} EnumerateAllOrder(env: map<Id, Seal>, path: Path, targets: seq<Id>)
    ensures Visited(env, targets, |path|, EnumerateAll(env, path, targets))
    decreases Left(env, path), |targets| + 1
  {
    if targets != [] {
      var init, last := targets[..|targets| - 1], targets[|targets| - 1];
      var a, b, list := EnumerateAll(env, path, init), Enumerate(env, path, last), EnumerateAll(env, path, targets);
      EnumerateAllOrder(env, path, init);
      EnumerateOrder(env, path, last);
      EnumerateAllStarts(env, path, init);
      EnumerateStarts(env, path, last);
      AheadMore(init, last);
      forall i, j | 0 <= i < j < |list| ensures Precedes(env, targets, |path|, list[i], list[j]) {
        if j < |a| {
          assert list[i] == a[i] && list[j] == a[j];
          PrecedesMore(env, init, targets, |path|, a[i], a[j]);
        } else if i >= |a| {
          assert list[i] == b[i - |a|] && list[j] == b[j - |a|];
          PrecedesMore(env, [last], targets, |path|, list[i], list[j]);
        } else {
          assert list[i] == a[i] && a[i] in a && list[j] == b[j - |a|] && b[j - |a|] in b;
          PartsAt(env, targets, path, list[i], list[j]);
        }
      }
    }
  }

  lemma AheadMore(init: seq<Id>, last: Id)
    ensures forall a: Id, b: Id :: Ahead(init, a, b) ==> Ahead(init + [last], a, b)
    ensures forall a: Id, b: Id :: !Ahead([last], a, b)
    ensures forall a: Id :: a in init ==> Ahead(init + [last], a, last)
  {
    var more := init + [last];
    forall a: Id, b: Id | Ahead(init, a, b) ensures Ahead(more, a, b) {
      var i, j :| 0 <= i < j < |init| && init[i] == a && init[j] == b;
      assert more[i] == a && more[j] == b;
    }
    forall a: Id | a in init ensures Ahead(more, a, last) {
      var i :| 0 <= i < |init| && init[i] == a;
      assert more[i] == a && more[|init|] == last;
    }
  }

  lemma PartsAt(env: map<Id, Seal>, targets: seq<Id>, path: Path, p: Path, q: Path)
    requires |p| > |path| && |q| > |path| && p[..|path|] == path == q[..|path|]
    requires Ahead(targets, p[|path|], q[|path|])
    ensures Precedes(env, targets, |path|, p, q)
  {
    assert LinksAt(env, targets, |path|, p, |path|) == targets;
  }

  // Causes of a loaded Seal are loaded and ranked below it.
  ghost predicate CausesRanked(env: map<Id, Seal>, S: set<Id>, rank: map<Id, nat>) {
    && S <= env.Keys
    && forall o: Id, t: Id {:trigger t in Out(CausesOf(env), o)} :: o in S && t in Out(CausesOf(env), o) ==>
         t in S && RankOf(rank, t) < RankOf(rank, o)
  }

  // Causes below a ranked, fully loadable Seal are clean, whatever led there.
  lemma {:induction false} RankedIsClean(env: map<Id, Seal>, S: set<Id>, rank: map<Id, nat>, path: Path, id: Id)
    requires id in S && CausesRanked(env, S, rank)
    requires forall a: Id :: a in path ==> RankOf(rank, id) < RankOf(rank, a)
    ensures Clean(env, path, id)
    decreases RankOf(rank, id)
  {
    assert id !in path;
    LeftShrinks(env, path, id);
    var targets := LinkTargets(env[id].links);
    assert Out(CausesOf(env), id) == targets;
    forall i | 0 <= i < |targets| ensures Clean(env, path + [id], targets[i]) {
      assert targets[i] in targets;
      RankedIsClean(env, S, rank, path + [id], targets[i]);
    }
  }

  // ------------------------------------------------------ noting a path

  // One visited path: its last Seal gets a record unless it is an active leaf; only
  // the first max paths are kept, and dropping one clears the completeness flag.
  function Note(records: map<Id, Reason>, p: Path, active: set<Id>, children: Edges, max: nat): map<Id, Reason>
    requires |p| >= 2
  {
    var id := p[|p| - 1];
    if ActiveLeaf(active, children, id) then records
    else
      var kind := if id in active then ACTIVE_NON_LEAF else OUTSIDE_ACTIVE;
      var r0 := if id in records then records[id] else Reason(p[0], id, kind, false, [], true);
      var r1 := r0.(direct := r0.direct || |p| == 2);
      records[id := if |r1.paths| < max then r1.(paths := r1.paths + [p]) else r1.(pathsComplete := false)]
  }

  ghost function NoteAll(records: map<Id, Reason>, list: seq<Path>, active: set<Id>, children: Edges,
          max: nat): map<Id, Reason>
    requires forall p :: p in list ==> |p| >= 2
  {
    if list == [] then records
    else
      var init := list[..|list| - 1];
      assert forall p :: p in init ==> p in list;
      Note(NoteAll(records, init, active, children, max), list[|list| - 1], active, children, max)
  }

  lemma NoteAllLast(records: map<Id, Reason>, list: seq<Path>, p: Path, active: set<Id>, children: Edges, max: nat)
    requires |p| >= 2 && forall q :: q in list ==> |q| >= 2
    ensures NoteAll(records, list + [p], active, children, max)
              == Note(NoteAll(records, list, active, children, max), p, active, children, max)
  {
    assert (list + [p])[..|list|] == list;
  }

  lemma {:induction false} NoteAllSplits(records: map<Id, Reason>, a: seq<Path>, b: seq<Path>, active: set<Id>,
          children: Edges, max: nat)
    requires forall p :: p in a || p in b ==> |p| >= 2
    ensures NoteAll(records, a + b, active, children, max)
              == NoteAll(NoteAll(records, a, active, children, max), b, active, children, max)
  {
    if b == [] {
      assert a + b == a;
    } else {
      var init, last := b[..|b| - 1], b[|b| - 1];
      assert b == init + [last] && last in b;
      assert forall p :: p in init ==> p in b;
      NoteAllSplits(records, a, init, active, children, max);
      assert a + b == (a + init) + [last];
      NoteAllLast(records, a + init, last, active, children, max);
      NoteAllLast(NoteAll(records, a, active, children, max), init, last, active, children, max);
    }
  }

  // The paths of the list that end at t, in order.
  ghost function EndingAt(list: seq<Path>, t: Id): seq<Path> {
    if list == [] then []
    else
      var p := list[|list| - 1];
      EndingAt(list[..|list| - 1], t) + if p != [] && Last(p) == t then [p] else []
  }

  // What the finished records say about t.
  ghost predicate Recorded(records: map<Id, Reason>, subject: Id, W: seq<Path>, t: Id, active: set<Id>, children: Edges,
          max: nat) {
    && (t in records <==> W != [] && !ActiveLeaf(active, children, t))
    && (t in records ==>
          && records[t].subject == subject && records[t].target == t
          && records[t].kind == (if t in active then ACTIVE_NON_LEAF else OUTSIDE_ACTIVE)
          && records[t].paths == Take(W, Some(max))
          && (records[t].pathsComplete <==> |W| <= max)
          && (records[t].direct <==> exists p :: p in W && |p| == 2))
  }

  lemma {:induction false} NoteAllRecords(list: seq<Path>, subject: Id, t: Id, active: set<Id>, children: Edges,
          max: nat)
    requires forall p :: p in list ==> |p| >= 2 && p[0] == subject
    ensures Recorded(NoteAll(map[], list, active, children, max), subject, EndingAt(list, t), t, active, children, max)
  {
    if list != [] {
      var init, p := list[..|list| - 1], list[|list| - 1];
      assert forall q :: q in init ==> q in list;
      assert p in list;
      NoteAllRecords(init, subject, t, active, children, max);
      NoteRecords(NoteAll(map[], init, active, children, max), subject, EndingAt(init, t), p, t, active, children, max);
    }
  }

  lemma NoteRecords(records: map<Id, Reason>, subject: Id, W: seq<Path>, p: Path, t: Id, active: set<Id>,
          children: Edges, max: nat)
    requires |p| >= 2 && p[0] == subject && Recorded(records, subject, W, t, active, children, max)
    ensures Recorded(Note(records, p, active, children, max), subject, W + (if Last(p) == t then [p] else []), t,
              active, children, max)
  {
    if Last(p) == t && !ActiveLeaf(active, children, t) {
      assert forall q :: q in W + [p] <==> q in W || q == p;
      if t in records && |W| < max {
        assert Take(W + [p], Some(max)) == Take(W, Some(max)) + [p];
      }
    } else if Last(p) != t {
      assert W + [] == W;
    }
  }

  lemma {:induction false} EndingAtMembers(list: seq<Path>, t: Id)
    ensures forall p :: p in EndingAt(list, t) <==> p in list && p != [] && Last(p) == t
  {
    if list != [] {
      EndingAtMembers(list[..|list| - 1], t);
      assert list == list[..|list| - 1] + [list[|list| - 1]];
    }
  }

  // ------------------------------------------------------------- the walk

  class Records {
    var table: map<Id, Reason>
    constructor ()
      ensures table == map[]
    {
      table := map[];
    }
  }

  lemma {:induction false} EnumerateLong(env: map<Id, Seal>, path: Path, id: Id)
    ensures forall p :: p in Enumerate(env, path, id) ==> |p| > |path|
    decreases Left(env, path), 0
  {
    if id !in path && id in env {
      LeftShrinks(env, path, id);
      EnumerateAllLong(env, path + [id], LinkTargets(env[id].links));
    }
  }

  lemma {:induction false} EnumerateAllLong(env: map<Id, Seal>, path: Path, targets: seq<Id>)
    ensures forall p :: p in EnumerateAll(env, path, targets) ==> |p| > |path|
    decreases Left(env, path), |targets| + 1
  {
    if targets != [] {
      EnumerateAllLong(env, path, targets[..|targets| - 1]);
      EnumerateLong(env, path, targets[|targets| - 1]);
    }
  }

  // ---------------------------------------------------- no path comes twice

  // No Seal links one target twice.
  ghost predicate DistinctTargets(env: map<Id, Seal>) {
    forall id: Id :: id in env ==> NoDup(LinkTargets(env[id].links))
  }

  ghost predicate StartsWith(p: Path, path: Path, id: Id) {
    |p| > |path| && p[..|path|] == path && p[|path|] == id
  }

  lemma {:induction false} EnumerateStarts(env: map<Id, Seal>, path: Path, id: Id)
    ensures forall p :: p in Enumerate(env, path, id) ==> StartsWith(p, path, id)
    decreases Left(env, path), 0
  {
    if id !in path && id in env {
      LeftShrinks(env, path, id);
      var next := path + [id];
      EnumerateAllStarts(env, next, LinkTargets(env[id].links));
      forall p | p in Enumerate(env, path, id) ensures StartsWith(p, path, id) {
        if p != next {
          assert p[..|next|] == next;
          assert p[..|path|] == next[..|path|] && p[|path|] == next[|path|];
        }
      }
    }
  }

  lemma {:induction false} EnumerateAllStarts(env: map<Id, Seal>, path: Path, targets: seq<Id>)
    ensures forall p :: p in EnumerateAll(env, path, targets) ==>
              |p| > |path| && StartsWith(p, path, p[|path|]) && p[|path|] in targets
    decreases Left(env, path), |targets| + 1
  {
    if targets != [] {
      EnumerateAllStarts(env, path, targets[..|targets| - 1]);
      EnumerateStarts(env, path, targets[|targets| - 1]);
      PopLast(targets);
    }
  }

  lemma {:induction false} EnumerateNoDup(env: map<Id, Seal>, path: Path, id: Id)
    requires DistinctTargets(env)
    ensures NoDup(Enumerate(env, path, id))
    decreases Left(env, path), 0
  {
    if id !in path && id in env {
      LeftShrinks(env, path, id);
      var next, targets := path + [id], LinkTargets(env[id].links);
      EnumerateAllNoDup(env, next, targets);
      EnumerateAllLong(env, next, targets);
      NoDupConcat([next], EnumerateAll(env, next, targets));
    }
  }

  // With distinct targets the enumeration lists different paths, so counting them is exact.
  lemma {:induction false} EnumerateAllNoDup(env: map<Id, Seal>, path: Path, targets: seq<Id>)
    requires DistinctTargets(env) && NoDup(targets)
    ensures NoDup(EnumerateAll(env, path, targets))
    decreases Left(env, path), |targets| + 1
  {
    if targets != [] {
      var init, last := targets[..|targets| - 1], targets[|targets| - 1];
      EnumerateAllNoDup(env, path, init);
      EnumerateNoDup(env, path, last);
      EnumerateAllStarts(env, path, init);
      EnumerateStarts(env, path, last);
      assert last !in init;
      NoDupConcat(EnumerateAll(env, path, init), Enumerate(env, path, last));
    }
  }

  lemma {:induction false} EndingAtNoDup(list: seq<Path>, t: Id)
    requires NoDup(list)
    ensures NoDup(EndingAt(list, t))
  {
    if list != [] {
      var init := list[..|list| - 1];
      EndingAtNoDup(init, t);
      EndingAtMembers(init, t);
      assert list[|list| - 1] !in init;
    }
  }

  // NoteAll on a list whose paths are long enough by construction.
  ghost predicate NotedFrom(before: map<Id, Reason>, after: map<Id, Reason>, list: seq<Path>, active: set<Id>,
          children: Edges, max: nat) {
    (forall p :: p in list ==> |p| >= 2) && after == NoteAll(before, list, active, children, max)
  }

  lemma NotedThen(a: map<Id, Reason>, b: map<Id, Reason>, c: map<Id, Reason>, l: seq<Path>, k: seq<Path>,
          active: set<Id>, children: Edges, max: nat)
    requires NotedFrom(a, b, l, active, children, max) && NotedFrom(b, c, k, active, children, max)
    ensures NotedFrom(a, c, l + k, active, children, max)
  {
    NoteAllSplits(a, l, k, active, children, max);
  }

  lemma NotedOne(a: map<Id, Reason>, p: Path, active: set<Id>, children: Edges, max: nat)
    requires |p| >= 2
    ensures NotedFrom(a, Note(a, p, active, children, max), [p], active, children, max)
  {
    assert [p][..0] == [];
  }

  lemma NotedNone(a: map<Id, Reason>, active: set<Id>, children: Edges, max: nat)
    ensures NotedFrom(a, a, [], active, children, max)
  {
  }

  lemma EnumerateNext(env: map<Id, Seal>, path: Path, targets: seq<Id>, i: nat)
    requires i < |targets|
    ensures EnumerateAll(env, path, targets[..i + 1]) == EnumerateAll(env, path, targets[..i])
              + Enumerate(env, path, targets[i])
  {
    assert targets[..i + 1][..i] == targets[..i];
  }

  lemma CleanNext(env: map<Id, Seal>, path: Path, targets: seq<Id>, i: nat)
    requires i < |targets| && CleanAll(env, path, targets[..i])
    ensures CleanAll(env, path, targets[..i + 1]) <==> Clean(env, path, targets[i])
    ensures !Clean(env, path, targets[i]) ==> !CleanAll(env, path, targets)
  {
    assert targets[..i + 1][i] == targets[i];
    assert forall j :: 0 <= j < i ==> targets[..i + 1][j] == targets[..i][j];
  }

  // visit: a load failure or a Cause cycle anywhere below stops it; otherwise every path
  // is noted in order.
  method Visit(env: map<Id, Seal>, id: Id, path: Path, records: Records, active: set<Id>, children: Edges, max: nat)
      returns (err: Option<WalkError>)
    requires path != []
    modifies records
    ensures err.None? <==> Clean(env, path, id)
    ensures err.None? ==> NotedFrom(old(records.table), records.table, Enumerate(env, path, id), active, children, max)
    ensures err.Some? ==> Stops(env, path, id, err.value)
    decreases Left(env, path), 0
  {
    StopsHere(env, path, id);
    if id in path {
      return Some(CauseCycle(id));
    }
    var next := path + [id];
    NotedOne(records.table, next, active, children, max);
    records.table := Note(records.table, next, active, children, max);
    if id !in env {
      return Some(Unloadable(id));
    }
    LeftShrinks(env, path, id);
    ghost var mid := records.table;
    err := VisitAll(env, LinkTargets(env[id].links), next, records, active, children, max);
    if err.None? {
      NotedThen(old(records.table), mid, records.table, [next], EnumerateAll(env, next, LinkTargets(env[id].links)),
          active, children, max);
    } else {
      ghost var t: Id :| t in LinkTargets(env[id].links) && Stops(env, next, t, err.value);
      StopsBelow(env, path, id, t, err.value);
    }
  }

  method VisitAll(env: map<Id, Seal>, targets: seq<Id>, path: Path, records: Records, active: set<Id>,
          children: Edges, max: nat)
      returns (err: Option<WalkError>)
    requires path != []
    modifies records
    ensures err.None? <==> CleanAll(env, path, targets)
    ensures err.None? ==> NotedFrom(old(records.table), records.table, EnumerateAll(env, path, targets), active,
              children, max)
    ensures err.Some? ==> exists t: Id :: t in targets && Stops(env, path, t, err.value)
    decreases Left(env, path), |targets| + 1
  {
    ghost var start := records.table;
    WalkedNone(env, path, start, active, children, max);
    assert targets[..0] == [];
    for i := 0 to |targets|
      invariant Walked(env, path, targets[..i], start, records.table, active, children, max)
    {
      ghost var mid := records.table;
      err := Visit(env, targets[i], path, records, active, children, max);
      CleanNext(env, path, targets, i);
      if err.Some? {
        assert targets[i] in targets;
        return;
      }
      WalkedNext(env, path, targets, i, start, mid, records.table, active, children, max);
    }
    assert targets[..|targets|] == targets;
    err := None;
  }

  // The targets visited so far: nothing stopped the walk, and every path was noted.
  ghost predicate Walked(env: map<Id, Seal>, path: Path, done: seq<Id>, before: map<Id, Reason>, now: map<Id, Reason>,
          active: set<Id>, children: Edges, max: nat) {
    CleanAll(env, path, done) && NotedFrom(before, now, EnumerateAll(env, path, done), active, children, max)
  }

  lemma WalkedNone(env: map<Id, Seal>, path: Path, a: map<Id, Reason>, active: set<Id>, children: Edges, max: nat)
    ensures Walked(env, path, [], a, a, active, children, max)
  {
    NotedNone(a, active, children, max);
  }

  lemma WalkedNext(env: map<Id, Seal>, path: Path, targets: seq<Id>, i: nat, a: map<Id, Reason>, b: map<Id, Reason>,
          c: map<Id, Reason>, active: set<Id>, children: Edges, max: nat)
    requires i < |targets| && Walked(env, path, targets[..i], a, b, active, children, max)
    requires Clean(env, path, targets[i])
    requires NotedFrom(b, c, Enumerate(env, path, targets[i]), active, children, max)
    ensures Walked(env, path, targets[..i + 1], a, c, active, children, max)
  {
    CleanNext(env, path, targets, i);
    EnumerateNext(env, path, targets, i);
    NotedThen(a, b, c, EnumerateAll(env, path, targets[..i]), Enumerate(env, path, targets[i]), active, children, max);
  }

  // observationReasons: for every target, all that the complete list of its Cause paths
  // says, however small the bound on the witnesses kept.
  method ReasonsFor(env: map<Id, Seal>, subject: Id, causes: seq<Id>, active: set<Id>, children: Edges, max: nat)
      returns (r: Result<seq<Reason>, WalkError>, ghost table: map<Id, Reason>)
    ensures r.Success? <==> CleanAll(env, [subject], SortIds(causes))
    ensures r.Success? ==> forall t: Id ::
              Recorded(table, subject, EndingAt(EnumerateAll(env, [subject], SortIds(causes)), t), t, active, children,
                max)
    ensures r.Success? ==> Increasing(ReasonTargets(r.value))
    ensures r.Success? ==> forall x :: x in r.value <==> x.target in table && table[x.target] == x
    ensures r.Failure? ==> exists c: Id :: c in SortIds(causes) && Stops(env, [subject], c, r.error)
    ensures Visited(env, SortIds(causes), 1, EnumerateAll(env, [subject], SortIds(causes)))
    ensures DistinctTargets(env) && NoDup(causes) ==>
              forall t: Id :: NoDup(EndingAt(EnumerateAll(env, [subject], SortIds(causes)), t))
  {
    EnumerateAllOrder(env, [subject], SortIds(causes));
    var records := new Records();
    var sorted := SortIds(causes);
    DifferentPaths(env, subject, causes);
    var err := VisitAll(env, sorted, [subject], records, active, children, max);
    table := records.table;
    if err.Some? {
      return Failure(err.value), table;
    }
    EnumerateAllLong(env, [subject], sorted);
    EnumerateAllStarts(env, [subject], sorted);
    ghost var list := EnumerateAll(env, [subject], sorted);
    forall p | p in list ensures p[0] == subject {
      assert p[..1] == [subject];
    }
    forall t: Id ensures Recorded(table, subject, EndingAt(list, t), t, active, children, max) {
      NoteAllRecords(list, subject, t, active, children, max);
    }
    forall t: Id | t in table ensures table[t].target == t {
      assert Recorded(table, subject, EndingAt(list, t), t, active, children, max);
    }
    var result := SortedReasons(records.table);
    r := Success(result);
  }

  lemma DifferentPaths(env: map<Id, Seal>, subject: Id, causes: seq<Id>)
    ensures DistinctTargets(env) && NoDup(causes) ==>
              forall t: Id :: NoDup(EndingAt(EnumerateAll(env, [subject], SortIds(causes)), t))
  {
    if DistinctTargets(env) && NoDup(causes) {
      SortIdsIncreasing(causes);
      EnumerateAllNoDup(env, [subject], SortIds(causes));
      forall t: Id ensures NoDup(EndingAt(EnumerateAll(env, [subject], SortIds(causes)), t)) {
        EndingAtNoDup(EnumerateAll(env, [subject], SortIds(causes)), t);
      }
    }
  }

  ghost function ReasonTargets(s: seq<Reason>): seq<Id> {
    seq(|s|, i requires 0 <= i < |s| => s[i].target)
  }

  method SortedReasons(table: map<Id, Reason>) returns (r: seq<Reason>)
    requires forall t: Id :: t in table ==> table[t].target == t
    ensures Increasing(ReasonTargets(r))
    ensures forall x: Reason :: x in r <==> x.target in table && table[x.target] == x
  {
    r := [];
    var keys := SortedKeys(table.Keys);
    for i := 0 to |keys|
      invariant |r| == i && forall k :: 0 <= k < i ==>
                  keys[k] in table && r[k] == table[keys[k]] && r[k].target == keys[k]
    {
      assert keys[i] in keys;
      r := r + [table[keys[i]]];
    }
    forall x: Reason | x.target in table && table[x.target] == x ensures x in r {
      var k :| 0 <= k < |keys| && keys[k] == x.target;
      assert r[k] == x;
    }
  }

  // ------------------------------------------- agreement with staleFacts

  // On an observed graph the loaded links and the graph's Cause edges are the same.
  lemma CausesMatch(g: Graph, env: map<Id, Seal>, from: set<Id>, id: Id, t: Id)
    requires g.Gathered() && LoadedFrom(g.nodes, env) && Supports(env, from, g.nodes.Keys) && id in g.nodes
    ensures t in Out(CausesOf(env), id) <==> t in Out(g.causes, id)
    ensures t in Out(CausesOf(env), id) ==> t in g.nodes
  {
    var links := env[id].links;
    assert Out(CausesOf(env), id) == LinkTargets(links);
    assert t in Out(g.causes, id) <==> (id, t) in CausePairs(g.nodes);
    if t in LinkTargets(links) {
      var i :| 0 <= i < |links| && LinkTargets(links)[i] == t;
      assert links[i] in links;
    }
    if l :| l in links && l.target == t {
      var i :| 0 <= i < |links| && links[i] == l;
      assert LinkTargets(links)[i] == t;
    }
  }

  lemma {:induction false} SameReach(g: Graph, env: map<Id, Seal>, from: set<Id>, p: Path)
    requires g.Gathered() && LoadedFrom(g.nodes, env) && Supports(env, from, g.nodes.Keys)
    requires p != [] && p[0] in g.nodes
    ensures IsWalk(CausesOf(env), p) <==> IsWalk(g.causes, p)
  {
    if |p| > 1 {
      CausesMatch(g, env, from, p[0], p[1]);
      if p[1] in Out(g.causes, p[0]) {
        SameReach(g, env, from, p[1..]);
        WalkCons(g.causes, p);
        WalkCons(CausesOf(env), p);
      }
    }
  }

  lemma WalkCons(m: Edges, p: Path)
    requires |p| > 1 && p[1] in Out(m, p[0])
    ensures IsWalk(m, p) <==> IsWalk(m, p[1..])
  {
    var t := p[1..];
    if IsWalk(m, t) {
      forall i, j | 0 <= i < j < |p| && j == i + 1 ensures p[j] in Out(m, p[i]) {
        if i > 0 {
          assert t[j - 1] in Out(m, t[i - 1]);
        }
      }
    }
    if IsWalk(m, p) {
      WalkPart(m, p, 1, |p|);
    }
  }

  // A path of the enumeration below the subject is the subject and then a Cause walk.
  lemma ListedIsWalk(g: Graph, env: map<Id, Seal>, subject: Id, c: Id, p: Path)
    requires g.Valid() && LoadedFrom(g.nodes, env) && Supports(env, g.heads.Values, g.nodes.Keys) && subject in g.nodes
    requires c in Out(g.causes, subject)
    ensures Continues(env, [subject], c, p) <==>
              p != [] && p[0] == subject && |p| > 1 && p[1] == c && IsWalk(g.causes, p[1..])
  {
    CausesMatch(g, env, g.heads.Values, subject, c);
    if |p| > 1 {
      assert p[..1] == [p[0]] && p[1..][0] == p[1];
      if p[1] == c {
        SameReach(g, env, g.heads.Values, p[1..]);
      }
    }
  }

  lemma ListedMeansReached(g: Graph, env: map<Id, Seal>, subject: Id, p: Path)
    requires g.Valid() && LoadedFrom(g.nodes, env) && Supports(env, g.heads.Values, g.nodes.Keys) && subject in g.nodes
    requires p in EnumerateAll(env, [subject], SortIds(Out(g.causes, subject))) && p != []
    ensures exists c: Id :: c in Out(g.causes, subject) && Reaches(g.causes, c, Last(p))
  {
    var sorted := SortIds(Out(g.causes, subject));
    SortIdsIncreasing(Out(g.causes, subject));
    GraphIsClean(g, env, subject);
    EnumerateAllExact(env, [subject], sorted, p);
    var c: Id :| c in sorted && Continues(env, [subject], c, p);
    ListedIsWalk(g, env, subject, c, p);
    assert Joins(g.causes, p[1..], c, Last(p));
  }

  lemma ReachedMeansListed(g: Graph, env: map<Id, Seal>, subject: Id, c: Id, t: Id) returns (p: Path)
    requires g.Valid() && LoadedFrom(g.nodes, env) && Supports(env, g.heads.Values, g.nodes.Keys) && subject in g.nodes
    requires c in Out(g.causes, subject) && Reaches(g.causes, c, t)
    ensures p in EnumerateAll(env, [subject], SortIds(Out(g.causes, subject))) && p != [] && Last(p) == t
  {
    var sorted := SortIds(Out(g.causes, subject));
    SortIdsIncreasing(Out(g.causes, subject));
    var q :| Joins(g.causes, q, c, t);
    p := [subject] + q;
    assert p[1..] == q && Last(p) == t;
    ListedIsWalk(g, env, subject, c, p);
    GraphIsClean(g, env, subject);
    assert c in sorted && Continues(env, [subject], c, p);
    EnumerateAllExact(env, [subject], sorted, p);
  }

  // A Seal some Cause path of the subject ends at is one the subject reaches, and back.
  lemma ListedIffReached(g: Graph, env: map<Id, Seal>, subject: Id, t: Id)
    requires g.Valid() && LoadedFrom(g.nodes, env) && Supports(env, g.heads.Values, g.nodes.Keys) && subject in g.nodes
    ensures EndingAt(EnumerateAll(env, [subject], SortIds(Out(g.causes, subject))), t) != []
            <==> exists c: Id :: c in Out(g.causes, subject) && Reaches(g.causes, c, t)
  {
    var list := EnumerateAll(env, [subject], SortIds(Out(g.causes, subject)));
    EndingAtMembers(list, t);
    if EndingAt(list, t) != [] {
      var p := EndingAt(list, t)[0];
      assert p in EndingAt(list, t);
      ListedMeansReached(g, env, subject, p);
    }
    if c: Id :| c in Out(g.causes, subject) && Reaches(g.causes, c, t) {
      var p := ReachedMeansListed(g, env, subject, c, t);
      assert p in EndingAt(list, t);
    }
  }

  // On a built graph the walk never fails, and a head has a reason exactly when
  // staleFacts reports a direct or transitive fact: there is a stale Cause below it.
  lemma ReasonsIffStale(g: Graph, env: map<Id, Seal>, subject: Id, max: nat, table: map<Id, Reason>)
    requires g.Valid() && LoadedFrom(g.nodes, env) && Supports(env, g.heads.Values, g.nodes.Keys) && subject in g.nodes
    requires forall t: Id :: Recorded(table, subject,
              EndingAt(EnumerateAll(env, [subject], SortIds(Out(g.causes, subject))), t), t, g.active, g.children, max)
    ensures CleanAll(env, [subject], SortIds(Out(g.causes, subject)))
    ensures table != map[] <==> ReliesOnStale(g.causes, NonLeaves(g.active, g.children), subject)
  {
    GraphIsClean(g, env, subject);
    var list := EnumerateAll(env, [subject], SortIds(Out(g.causes, subject)));
    if t: Id :| t in table {
      assert Recorded(table, subject, EndingAt(list, t), t, g.active, g.children, max);
      ListedIffReached(g, env, subject, t);
      var c: Id :| c in Out(g.causes, subject) && Reaches(g.causes, c, t);
      assert Relies(g.causes, NonLeaves(g.active, g.children), subject, c, t);
    }
    if ReliesOnStale(g.causes, NonLeaves(g.active, g.children), subject) {
      var c: Id, t: Id :| Relies(g.causes, NonLeaves(g.active, g.children), subject, c, t);
      ListedIffReached(g, env, subject, t);
      assert Recorded(table, subject, EndingAt(list, t), t, g.active, g.children, max);
      assert t in table;
    }
  }

  lemma GraphRanksCauses(g: Graph, env: map<Id, Seal>)
    requires g.Valid() && LoadedFrom(g.nodes, env) && Supports(env, g.heads.Values, g.nodes.Keys)
    ensures CausesRanked(env, g.nodes.Keys, g.rank)
  {
    forall o: Id, t: Id | o in g.nodes && t in Out(CausesOf(env), o)
      ensures t in g.nodes && RankOf(g.rank, t) < RankOf(g.rank, o)
    {
      CausesMatch(g, env, g.heads.Values, o, t);
    }
  }

  lemma SuccessorsClean(env: map<Id, Seal>, S: set<Id>, rank: map<Id, nat>, subject: Id, targets: seq<Id>)
    requires CausesRanked(env, S, rank)
    requires forall i :: 0 <= i < |targets| ==> targets[i] in S && RankOf(rank, targets[i]) < RankOf(rank, subject)
    ensures CleanAll(env, [subject], targets)
  {
    forall i | 0 <= i < |targets| ensures Clean(env, [subject], targets[i]) {
      RankedIsClean(env, S, rank, [subject], targets[i]);
    }
  }

  lemma GraphIsClean(g: Graph, env: map<Id, Seal>, subject: Id)
    requires g.Valid() && LoadedFrom(g.nodes, env) && Supports(env, g.heads.Values, g.nodes.Keys) && subject in g.nodes
    ensures CleanAll(env, [subject], SortIds(Out(g.causes, subject)))
  {
    var sorted := SortIds(Out(g.causes, subject));
    SortIdsIncreasing(Out(g.causes, subject));
    GraphRanksCauses(g, env);
    forall i | 0 <= i < |sorted| ensures sorted[i] in g.nodes && RankOf(g.rank, sorted[i]) < RankOf(g.rank, subject) {
      assert sorted[i] in sorted;
      CausesMatch(g, env, g.heads.Values, subject, sorted[i]);
    }
    SuccessorsClean(env, g.nodes.Keys, g.rank, subject, sorted);
  }
}
