/** Stale facts, their memoised paths and the stale frontier (internal/repository/revision_graph.go:174-290). */
module StalePaths {
  import opened Ids
  import opened Walks
  import opened ObservedGraph
  import opened FirstMatch
  import opened Text

  predicate ActiveLeaf(active: set<Id>, children: Edges, id: Id) {
    id in active && forall c: Id | c in Out(children, id) :: c !in active
  }

  ghost function NonLeaves(active: set<Id>, children: Edges): iset<Id> {
    iset x: Id | !ActiveLeaf(active, children, x)
  }

  // Each memo entry is the complete ordered list of first-stale paths of its key.
  ghost predicate MemoExact(table: map<Id, seq<Path>>, causes: Edges, stop: iset<Id>) {
    forall id: Id :: id in table ==> Lists(table[id], Matches(causes, stop, id))
  }

  ghost predicate Acyclically(g: Graph)
    reads g`causes, g`rank
  {
    SortedEdges(g.causes) && Ranked(g.causes, g.rank)
  }

  ghost predicate StaleMemo(g: Graph)
    reads g`causes, g`active, g`children, g`stalePaths
  {
    MemoExact(g.stalePaths, g.causes, NonLeaves(g.active, g.children))
  }

  // The inner loop of every path collector: prefix each suffix and append it.
  method AppendPrefixed(paths: seq<Path>, head: Id, suffixes: seq<Path>) returns (r: seq<Path>)
    ensures r == paths + Prepend(head, suffixes)
  {
    r := paths;
    for i := 0 to |suffixes|
      invariant r == paths + Prepend(head, suffixes[..i])
    {
      var path := [head];
      path := path + suffixes[i];
      assert Prepend(head, suffixes[..i + 1]) == Prepend(head, suffixes[..i]) + [path];
      r := r + [path];
    }
    assert suffixes[..|suffixes|] == suffixes;
  }

  // firstStalePaths: the memo never changes the answer.
  method FirstStalePaths(g: Graph, current: Id) returns (paths: seq<Path>)
    requires Acyclically(g) && StaleMemo(g)
    modifies g`stalePaths
    ensures StaleMemo(g)
    ensures Lists(paths, Matches(g.causes, NonLeaves(g.active, g.children), current))
    decreases RankOf(g.rank, current)
  {
    if current in g.stalePaths {
      return g.stalePaths[current];
    }
    ghost var stop := NonLeaves(g.active, g.children);
    MatchesUnfold(g.causes, stop, current);
    if !ActiveLeaf(g.active, g.children, current) {
      paths := [[current]];
      g.stalePaths := g.stalePaths[current := paths];
      return;
    }
    paths := [];
    var nexts := Out(g.causes, current);
    CollectedNone(None, g.causes, stop, current);
    for i := 0 to |nexts|
      invariant StaleMemo(g)
      invariant Collected(paths, None, g.causes, stop, current, nexts[..i])
    {
      TakeNext(nexts, i);
      assert nexts[i] in Out(g.causes, current);
      assert nexts[i] !in nexts[..i] by { assert Increasing(nexts); }
      var suffixes := FirstStalePaths(g, nexts[i]);
      CollectedNext(paths, None, g.causes, stop, current, nexts[..i], nexts[i], suffixes);
      paths := AppendPrefixed(paths, current, suffixes);
    }
    assert nexts[..|nexts|] == nexts;
    CollectedFirst(paths, None, g.causes, stop, current);
    paths := SortPaths(paths);
    g.stalePaths := g.stalePaths[current := paths];
  }

  // ---------------------------------------------------------- staleFacts

  // First-stale paths of the targets of head; head itself is not part of the path.
  ghost function StaleTails(causes: Edges, stop: iset<Id>, head: Id): iset<Path> {
    iset q: Path | q != [] && q[0] in Out(causes, head) && q in Matches(causes, stop, q[0])
  }

  lemma TailsOfStrict(causes: Edges, stop: iset<Id>, head: Id, q: Path)
    ensures q in StaleTails(causes, stop, head) <==> Strictly(causes, stop, head, Out(causes, head), [head] + q)
  {
    var p := [head] + q;
    assert p[1..] == q;
    assert q != [] ==> p[1] == q[0];
  }

  lemma TailsListed(paths: seq<Path>, causes: Edges, stop: iset<Id>, head: Id)
    requires Collected(Prepend(head, paths), None, causes, stop, head, Out(causes, head))
    ensures Lists(SortPaths(paths), StaleTails(causes, stop, head))
  {
    var full := Prepend(head, paths);
    forall i, j | 0 <= i < j < |paths| ensures paths[i] != paths[j] {
      assert full[i] != full[j];
    }
    SortPathsSorted(paths);
    PrependMembers(head, paths);
    forall q: Path ensures q in paths <==> q in StaleTails(causes, stop, head) {
      TailsOfStrict(causes, stop, head, q);
      var p := [head] + q;
      assert p[1..] == q && (p in full <==> q in paths);
    }
  }

  // The direct facts: the targets that are not active leaves, in order.
  method DirectStale(g: Graph, head: Id) returns (direct: seq<Id>)
    requires SortedEdges(g.causes)
    ensures Increasing(direct)
    ensures forall t: Id :: t in direct <==> t in Out(g.causes, head) && !ActiveLeaf(g.active, g.children, t)
  {
    direct := [];
    var nexts := Out(g.causes, head);
    for i := 0 to |nexts|
      invariant Increasing(direct)
      invariant forall t: Id :: t in direct <==> t in nexts[..i] && !ActiveLeaf(g.active, g.children, t)
    {
      TakeNext(nexts, i);
      assert forall t: Id :: t in nexts[..i] ==> t < nexts[i] by { assert Increasing(nexts); }
      assert forall j :: 0 <= j < |direct| ==> direct[j] in direct;
      if !ActiveLeaf(g.active, g.children, nexts[i]) {
        direct := direct + [nexts[i]];
      }
    }
    assert nexts[..|nexts|] == nexts;
  }

  method TransitiveStale(g: Graph, head: Id) returns (paths: seq<Path>)
    requires Acyclically(g) && StaleMemo(g)
    modifies g`stalePaths
    ensures StaleMemo(g)
    ensures Lists(paths, StaleTails(g.causes, NonLeaves(g.active, g.children), head))
  {
    paths := [];
    ghost var stop := NonLeaves(g.active, g.children);
    var nexts := Out(g.causes, head);
    CollectedNone(None, g.causes, stop, head);
    assert Prepend(head, []) == [];
    for i := 0 to |nexts|
      invariant StaleMemo(g)
      invariant Collected(Prepend(head, paths), None, g.causes, stop, head, nexts[..i])
    {
      TakeNext(nexts, i);
      assert nexts[i] !in nexts[..i] by { assert Increasing(nexts); }
      var tails := FirstStalePaths(g, nexts[i]);
      CollectedNext(Prepend(head, paths), None, g.causes, stop, head, nexts[..i], nexts[i], tails);
      assert Prepend(head, paths + tails) == Prepend(head, paths) + Prepend(head, tails);
      paths := paths + tails;
    }
    assert nexts[..|nexts|] == nexts;
    TailsListed(paths, g.causes, stop, head);
    paths := SortPaths(paths);
  }

  // What the three facts about a head say: it is superseded itself; the direct targets that
  // are not active leaves; and only when there are none, the first-stale paths below it.
  ghost predicate TellsStale(causes: Edges, active: set<Id>, children: Edges, head: Id, self: bool, direct: seq<Id>,
          transitive: seq<Path>) {
    && (self <==> head in active && !ActiveLeaf(active, children, head))
    && Increasing(direct)
    && (forall t: Id :: t in direct <==> t in Out(causes, head) && !ActiveLeaf(active, children, t))
    && (direct != [] ==> transitive == [])
    && (direct == [] ==> Lists(transitive, StaleTails(causes, NonLeaves(active, children), head)))
  }

  method StaleFacts(g: Graph, head: Id) returns (self: bool, direct: seq<Id>, transitive: seq<Path>)
    requires Acyclically(g) && StaleMemo(g)
    modifies g`stalePaths
    ensures StaleMemo(g)
    ensures TellsStale(g.causes, g.active, g.children, head, self, direct, transitive)
  {
    self := head in g.active && !ActiveLeaf(g.active, g.children, head);
    direct := DirectStale(g, head);
    if direct != [] {
      return self, direct, [];
    }
    transitive := TransitiveStale(g, head);
  }

  // Some strict Cause descendant of head is not an active leaf.
  ghost predicate ReliesOnStale(causes: Edges, stop: iset<Id>, head: Id) {
    exists t: Id, y: Id :: Relies(causes, stop, head, t, y)
  }

  ghost predicate Relies(causes: Edges, stop: iset<Id>, head: Id, t: Id, y: Id) {
    t in Out(causes, head) && Reaches(causes, t, y) && y in stop
  }

  // What the two lists mean together: they are both empty exactly when every Seal the
  // head relies on, at any depth, is an active leaf.
  lemma StaleFactsMeaning(causes: Edges, stop: iset<Id>, head: Id, direct: seq<Id>, transitive: seq<Path>)
    requires forall t: Id :: t in direct <==> t in Out(causes, head) && t in stop
    requires direct != [] ==> transitive == []
    requires direct == [] ==> Lists(transitive, StaleTails(causes, stop, head))
    ensures direct != [] || transitive != [] <==> ReliesOnStale(causes, stop, head)
  {
    if direct != [] {
      ReachesSelf(causes, direct[0]);
      assert direct[0] in direct;
      assert Relies(causes, stop, head, direct[0], direct[0]);
    } else {
      if transitive != [] {
        var q := transitive[0];
        assert q in transitive && q in StaleTails(causes, stop, head);
        MatchExists(causes, stop, q[0]);
        var y: Id :| y in stop && Reaches(causes, q[0], y);
        assert Relies(causes, stop, head, q[0], y);
      }
      if ReliesOnStale(causes, stop, head) {
        var t: Id, y: Id :| Relies(causes, stop, head, t, y);
        MatchExists(causes, stop, t);
        var q :| q in Matches(causes, stop, t);
        assert q in StaleTails(causes, stop, head);
      }
    }
  }

  // ------------------------------------------------------------ frontier

  class BoolMemo {
    var table: map<Id, bool>
    constructor ()
      ensures table == map[]
    {
      table := map[];
    }
  }

  ghost predicate ReachesAny(causes: Edges, stale: set<Id>, x: Id) {
    exists y: Id :: y in stale && Reaches(causes, x, y)
  }

  ghost predicate MemoTells(table: map<Id, bool>, causes: Edges, stale: set<Id>) {
    forall x: Id :: x in table ==> (table[x] <==> ReachesAny(causes, stale, x))
  }

  lemma ReachesAnyUnfold(causes: Edges, stale: set<Id>, x: Id)
    ensures ReachesAny(causes, stale, x) <==>
              x in stale || exists n: Id :: n in Out(causes, x) && ReachesAny(causes, stale, n)
  {
    if x in stale {
      ReachesSelf(causes, x);
    }
    if ReachesAny(causes, stale, x) {
      var y: Id :| y in stale && Reaches(causes, x, y);
      ReachesSplit(causes, x, y);
      if x != y {
        var b: Id :| b in Out(causes, x) && Reaches(causes, b, y);
        assert ReachesAny(causes, stale, b);
      }
    }
    if n: Id :| n in Out(causes, x) && ReachesAny(causes, stale, n) {
      var y: Id :| y in stale && Reaches(causes, n, y);
      ReachesFirstStep(causes, x, n, y);
    }
  }

  method ReachesStaleHead(g: Graph, current: Id, stale: set<Id>, memo: BoolMemo) returns (r: bool)
    requires Acyclically(g) && MemoTells(memo.table, g.causes, stale)
    modifies memo
    ensures MemoTells(memo.table, g.causes, stale)
    ensures r <==> ReachesAny(g.causes, stale, current)
    decreases RankOf(g.rank, current)
  {
    ReachesAnyUnfold(g.causes, stale, current);
    if current in stale {
      return true;
    }
    if current in memo.table {
      return memo.table[current];
    }
    var nexts := Out(g.causes, current);
    for i := 0 to |nexts|
      invariant MemoTells(memo.table, g.causes, stale)
      invariant forall j :: 0 <= j < i ==> !ReachesAny(g.causes, stale, nexts[j])
    {
      assert nexts[i] in Out(g.causes, current);
      var found := ReachesStaleHead(g, nexts[i], stale, memo);
      if found {
        memo.table := memo.table[current := true];
        return true;
      }
    }
    memo.table := memo.table[current := false];
    r := false;
  }

  // No stale head strictly below head.
  ghost predicate FrontierHead(causes: Edges, stale: set<Id>, head: Id) {
    forall t: Id :: t in Out(causes, head) ==> !ReachesAny(causes, stale, t)
  }

  method IsFrontier(g: Graph, head: Id, stale: set<Id>, blocked: BoolMemo) returns (r: bool)
    requires Acyclically(g) && MemoTells(blocked.table, g.causes, stale)
    modifies blocked
    ensures MemoTells(blocked.table, g.causes, stale)
    ensures r <==> FrontierHead(g.causes, stale, head)
  {
    var nexts := Out(g.causes, head);
    for i := 0 to |nexts|
      invariant MemoTells(blocked.table, g.causes, stale)
      invariant forall j :: 0 <= j < i ==> !ReachesAny(g.causes, stale, nexts[j])
    {
      assert nexts[i] in Out(g.causes, head);
      var found := ReachesStaleHead(g, nexts[i], stale, blocked);
      if found {
        return false;
      }
    }
    r := true;
  }

  // Every stale head has a frontier head in its reflexive Cause closure.
  lemma {:induction false} FrontierCovers(causes: Edges, rank: map<Id, nat>, stale: set<Id>, h: Id)
    requires Ranked(causes, rank) && h in stale
    ensures exists f: Id :: f in stale && FrontierHead(causes, stale, f) && Reaches(causes, h, f)
    decreases RankOf(rank, h)
  {
    if FrontierHead(causes, stale, h) {
      ReachesSelf(causes, h);
    } else {
      var t: Id :| t in Out(causes, h) && ReachesAny(causes, stale, t);
      var y: Id :| y in stale && Reaches(causes, t, y);
      ReachesFirstStep(causes, h, t, y);
      StrictlyBelow(causes, rank, h, t, y);
      FrontierCovers(causes, rank, stale, y);
      var f: Id :| f in stale && FrontierHead(causes, stale, f) && Reaches(causes, y, f);
      ReachesTrans(causes, h, y, f);
    }
  }

  lemma StrictlyBelow(causes: Edges, rank: map<Id, nat>, h: Id, t: Id, y: Id)
    requires Ranked(causes, rank) && t in Out(causes, h) && Reaches(causes, t, y)
    ensures RankOf(rank, y) < RankOf(rank, h)
  {
    var p :| Joins(causes, p, t, y);
    if |p| > 1 {
      WalkDescends(causes, rank, p, 0, |p| - 1);
    }
  }

  // The frontier is an antichain: relying on a different stale head rules a head out.
  lemma FrontierAntichain(causes: Edges, stale: set<Id>, f: Id, f': Id)
    requires f' in stale && f != f' && Reaches(causes, f, f')
    ensures !FrontierHead(causes, stale, f)
  {
    ReachesSplit(causes, f, f');
    var b: Id :| b in Out(causes, f) && Reaches(causes, b, f');
    assert ReachesAny(causes, stale, b);
  }

  // --------------------------------------------------------------- Stale

  datatype RefStatus = RefStatus(ref: Ref, head: Id, self: bool, direct: seq<Id>, transitive: seq<Path>)

  ghost predicate IsStale(active: set<Id>, children: Edges, causes: Edges, head: Id) {
    || (head in active && !ActiveLeaf(active, children, head))
    || ReliesOnStale(causes, NonLeaves(active, children), head)
  }

  // The names of keep, in the order of names.
  ghost function Filtered(names: seq<Ref>, keep: set<Ref>): seq<Ref> {
    if names == [] then []
    else Filtered(names[..|names| - 1], keep) + if names[|names| - 1] in keep then [names[|names| - 1]] else []
  }

  ghost function RefsOf(result: seq<RefStatus>): seq<Ref> {
    seq(|result|, i requires 0 <= i < |result| => result[i].ref)
  }

  ghost function StaleRefs(g: Graph): set<Ref>
    reads g`heads, g`active, g`children, g`causes
  {
    set ref | ref in g.heads && IsStale(g.active, g.children, g.causes, g.heads[ref])
  }

  ghost function HeadsOf(heads: map<Ref, Id>, refs: set<Ref>): set<Id> {
    set ref | ref in refs && ref in heads :: heads[ref]
  }

  // A record of the listing: the head of its REF and the exact facts about it.
  ghost predicate StatusTells(g: Graph, s: RefStatus)
    reads g`heads, g`causes, g`active, g`children
  {
    && s.ref in g.heads && s.head == g.heads[s.ref]
    && TellsStale(g.causes, g.active, g.children, s.head, s.self, s.direct, s.transitive)
  }

  method StatusOf(g: Graph, ref: Ref) returns (status: RefStatus, stale: bool)
    requires Acyclically(g) && StaleMemo(g) && ref in g.heads
    modifies g`stalePaths
    ensures StaleMemo(g) && status.ref == ref && StatusTells(g, status)
    ensures stale <==> ref in StaleRefs(g)
  {
    var head := g.heads[ref];
    var self, direct, transitive := StaleFacts(g, head);
    StaleFactsMeaning(g.causes, NonLeaves(g.active, g.children), head, direct, transitive);
    status := RefStatus(ref, head, self, direct, transitive);
    stale := self || direct != [] || transitive != [];
  }

  // The stale REFs in name order and the set of their heads.
  method StaleList(g: Graph, names: seq<Ref>) returns (result: seq<RefStatus>, staleHeads: set<Id>)
    requires Acyclically(g) && StaleMemo(g) && Elems(names) == g.heads.Keys
    modifies g`stalePaths
    ensures StaleMemo(g)
    ensures RefsOf(result) == Filtered(names, StaleRefs(g)) && staleHeads == HeadsOf(g.heads, StaleRefs(g))
    ensures forall s :: s in result ==> StatusTells(g, s)
  {
    result, staleHeads := [], {};
    ghost var refs := {};
    ghost var all := StaleRefs(g);
    for i := 0 to |names|
      invariant StaleMemo(g) && StaleRefs(g) == all
      invariant RefsOf(result) == Filtered(names[..i], all)
      invariant refs == set r | r in names[..i] && r in all
      invariant staleHeads == HeadsOf(g.heads, refs)
      invariant forall s :: s in result ==> StatusTells(g, s)
    {
      TakeNext(names, i);
      assert names[i] in names && names[..i + 1][..i] == names[..i];
      var status, stale := StatusOf(g, names[i]);
      if stale {
        result := result + [status];
        refs := refs + {names[i]};
        staleHeads := staleHeads + {status.head};
      }
    }
    assert names[..|names|] == names;
    assert refs == all;
  }

  // The REF names, sorted.
  method SortedRefs(refs: set<Ref>) returns (names: seq<Ref>)
    ensures TextsSorted(names) && Elems(names) == refs
  {
    var list: seq<Ref> := [];
    var todo := refs;
    while todo != {}
      invariant todo <= refs && NoDup(list) && Elems(list) == refs - todo
    {
      var ref :| ref in todo;
      assert ref !in Elems(list);
      NoDupConcat(list, [ref]);
      assert Elems(list + [ref]) == Elems(list) + {ref};
      list := list + [ref];
      todo := todo - {ref};
    }
    SortTextsSorted(list);
    names := SortTexts(list);
    assert forall x :: x in Elems(names) <==> x in Elems(list);
  }

  lemma {:induction false} FilteredSorted(names: seq<Ref>, keep: set<Ref>)
    requires TextsSorted(names)
    ensures TextsSorted(Filtered(names, keep))
    ensures forall ref :: ref in Filtered(names, keep) <==> ref in names && ref in keep
  {
    if names != [] {
      var init, last := names[..|names| - 1], names[|names| - 1];
      FilteredSorted(init, keep);
      assert names == init + [last];
      var kept := Filtered(init, keep);
      forall i | 0 <= i < |kept| ensures StringLess(kept[i], last) {
        assert kept[i] in init;
        var k :| 0 <= k < |init| && init[k] == kept[i];
        assert names[k] == kept[i];
      }
    }
  }

  // Stale with the frontier option: one memo is shared by all the heads it filters.
  method Stale(g: Graph, frontier: bool) returns (result: seq<RefStatus>)
    requires Acyclically(g) && StaleMemo(g)
    modifies g`stalePaths
    ensures forall s :: s in result ==> StatusTells(g, s)
    ensures TextsSorted(RefsOf(result))
    ensures forall ref: Ref :: ref in RefsOf(result) <==>
              ref in StaleRefs(g) && (frontier ==> ref in FrontierRefs(g))
  {
    var names := SortedRefs(g.heads.Keys);
    FilteredSorted(names, StaleRefs(g));
    ghost var staleNames := Filtered(names, StaleRefs(g));
    FilteredSorted(staleNames, FrontierRefs(g));
    var staleHeads;
    result, staleHeads := StaleList(g, names);
    if frontier {
      result := FrontierOnly(g, result, staleHeads);
    }
    assert forall ref :: ref in names <==> ref in Elems(names);
  }

  // The heads that rely on no other stale head, in the order given.
  method FrontierOnly(g: Graph, stale: seq<RefStatus>, staleHeads: set<Id>) returns (filtered: seq<RefStatus>)
    requires Acyclically(g) && staleHeads == HeadsOf(g.heads, StaleRefs(g))
    requires forall s :: s in stale ==> StatusTells(g, s)
    ensures RefsOf(filtered) == Filtered(RefsOf(stale), FrontierRefs(g))
    ensures forall s :: s in filtered ==> s in stale
  {
    filtered := [];
    var blocked := new BoolMemo();
    ghost var listed, wanted := RefsOf(stale), FrontierRefs(g);
    for i := 0 to |stale|
      invariant MemoTells(blocked.table, g.causes, staleHeads)
      invariant RefsOf(filtered) == Filtered(listed[..i], wanted)
      invariant forall s :: s in filtered ==> s in stale
    {
      assert stale[i] in stale && listed[i] == stale[i].ref;
      var keep := IsFrontier(g, stale[i].head, staleHeads, blocked);
      FilteredNext(listed, i, wanted);
      if keep {
        RefsOfNext(filtered, stale[i]);
        filtered := filtered + [stale[i]];
      }
    }
    assert listed[..|stale|] == listed;
  }

  lemma FilteredNext(names: seq<Ref>, i: nat, keep: set<Ref>)
    requires i < |names|
    ensures Filtered(names[..i + 1], keep) == Filtered(names[..i], keep) + if names[i] in keep then [names[i]] else []
  {
    assert names[..i + 1][..i] == names[..i];
  }

  lemma RefsOfNext(result: seq<RefStatus>, s: RefStatus)
    ensures RefsOf(result + [s]) == RefsOf(result) + [s.ref]
  {
  }

  // REFs whose head relies on no stale head.
  ghost function FrontierRefs(g: Graph): set<Ref>
    reads g`heads, g`active, g`children, g`causes
  {
    set ref | ref in g.heads && FrontierHead(g.causes, HeadsOf(g.heads, StaleRefs(g)), g.heads[ref])
  }
}
