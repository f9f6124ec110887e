/** Impact: truncated, memoised Cause paths to a source's revisions (internal/repository/revision_graph.go:382-533). */
module Impact {
  import opened Ids
  import opened Walks
  import opened ObservedGraph
  import opened FirstMatch
  import opened StalePaths
  import opened RevisionChains

  ghost function AsStop(sources: set<Id>): iset<Id> {
    iset x | x in sources
  }

  class PathMemo {
    var table: map<Id, seq<Path>>
    constructor ()
      ensures table == map[]
    {
      table := map[];
    }
  }

  // Each memo entry is the beginning of the ordered list of first-match paths of its key.
  ghost predicate MemoCut(table: map<Id, seq<Path>>, causes: Edges, stop: iset<Id>, limit: nat) {
    forall id: Id :: id in table ==> IsFirst(table[id], Some(limit), Matches(causes, stop, id))
  }

  method ImpactSuffixPaths(g: Graph, current: Id, sources: set<Id>, limit: nat, memo: PathMemo)
      returns (paths: seq<Path>)
    requires Acyclically(g) && limit > 0 && MemoCut(memo.table, g.causes, AsStop(sources), limit)
    modifies memo
    ensures MemoCut(memo.table, g.causes, AsStop(sources), limit)
    ensures IsFirst(paths, Some(limit), Matches(g.causes, AsStop(sources), current))
    decreases RankOf(g.rank, current), 1
  {
    if current in memo.table {
      return memo.table[current];
    }
    MatchesUnfold(g.causes, AsStop(sources), current);
    if current in sources {
      paths := [[current]];
    } else {
      paths := CutPaths(g, current, sources, limit, memo);
    }
    memo.table := memo.table[current := paths];
  }

  // The loop shared by impactPaths and impactSuffixPaths: collect, sort, cut.
  method CutPaths(g: Graph, head: Id, sources: set<Id>, limit: nat, memo: PathMemo) returns (paths: seq<Path>)
    requires Acyclically(g) && limit > 0 && MemoCut(memo.table, g.causes, AsStop(sources), limit)
    modifies memo
    ensures MemoCut(memo.table, g.causes, AsStop(sources), limit)
    ensures IsFirst(paths, Some(limit), Strict(g.causes, AsStop(sources), head))
    decreases RankOf(g.rank, head), 0
  {
    paths := [];
    ghost var stop := AsStop(sources);
    var nexts := Out(g.causes, head);
    CollectedNone(Some(limit), g.causes, stop, head);
    for i := 0 to |nexts|
      invariant MemoCut(memo.table, g.causes, stop, limit)
      invariant Collected(paths, Some(limit), g.causes, stop, head, nexts[..i])
    {
      TakeNext(nexts, i);
      assert nexts[i] in Out(g.causes, head);
      assert nexts[i] !in nexts[..i] by { assert Increasing(nexts); }
      var suffixes := ImpactSuffixPaths(g, nexts[i], sources, limit, memo);
      CollectedNext(paths, Some(limit), g.causes, stop, head, nexts[..i], nexts[i], suffixes);
      paths := AppendPrefixed(paths, head, suffixes);
    }
    assert nexts[..|nexts|] == nexts;
    CollectedFirst(paths, Some(limit), g.causes, stop, head);
    paths := SortPaths(paths);
    if |paths| > limit {
      paths := paths[..limit];
    }
  }

  // ------------------------------------- what the cut lists are cut from

  // All first-match paths of head, sorted: no memo, no limit.
  ghost function EveryPath(causes: Edges, sources: set<Id>, head: Id, rank: map<Id, nat>): seq<Path>
    requires Ranked(causes, rank)
  {
    SortPaths(AllFrom(causes, AsStop(sources), head, Out(causes, head), rank))
  }

  lemma EveryPathExact(causes: Edges, sources: set<Id>, head: Id, rank: map<Id, nat>)
    requires Ranked(causes, rank) && SortedEdges(causes)
    ensures Lists(EveryPath(causes, sources, head, rank), Strict(causes, AsStop(sources), head))
  {
    forall x: Id ensures NoDup(Out(causes, x)) { assert Increasing(Out(causes, x)); }
    AllFromExact(causes, AsStop(sources), head, Out(causes, head), rank);
    CollectedFirst(AllFrom(causes, AsStop(sources), head, Out(causes, head), rank), None, causes, AsStop(sources),
        head);
  }

  // Cutting every intermediate list loses nothing of the first limit entries.
  lemma TruncationExact(paths: seq<Path>, limit: nat, causes: Edges, sources: set<Id>, head: Id, rank: map<Id, nat>)
    requires Ranked(causes, rank) && SortedEdges(causes)
    requires IsFirst(paths, Some(limit), Strict(causes, AsStop(sources), head))
    ensures paths == Take(EveryPath(causes, sources, head, rank), Some(limit))
  {
    EveryPathExact(causes, sources, head, rank);
    FirstIsPrefix(paths, Some(limit), EveryPath(causes, sources, head, rank), Strict(causes, AsStop(sources), head));
  }

  // head relies, strictly below itself, on some Seal of the source set.
  ghost predicate Impacted(causes: Edges, sources: set<Id>, head: Id) {
    ReliesOnStale(causes, AsStop(sources), head)
  }

  lemma ImpactedHasPath(causes: Edges, sources: set<Id>, head: Id, rank: map<Id, nat>)
    requires Ranked(causes, rank) && SortedEdges(causes)
    ensures EveryPath(causes, sources, head, rank) != [] <==> Impacted(causes, sources, head)
  {
    var stop := AsStop(sources);
    EveryPathExact(causes, sources, head, rank);
    if EveryPath(causes, sources, head, rank) != [] {
      var p := EveryPath(causes, sources, head, rank)[0];
      assert p in EveryPath(causes, sources, head, rank);
      assert p[1..] in Matches(causes, stop, p[1]);
      MatchExists(causes, stop, p[1]);
      var y: Id :| y in stop && Reaches(causes, p[1], y);
      assert Relies(causes, stop, head, p[1], y);
    }
    if Impacted(causes, sources, head) {
      var t: Id, y: Id :| Relies(causes, stop, head, t, y);
      MatchExists(causes, stop, t);
      var q :| q in Matches(causes, stop, t);
      assert ([head] + q)[1..] == q;
      assert [head] + q in Strict(causes, stop, head);
    }
  }

  // ---------------------------------------------------------------- Impact

  datatype ImpactPath = ImpactPath(causeSealIds: Path, matched: Id, proof: RevisionProof)
  datatype ImpactRecord = ImpactRecord(head: Id, paths: seq<ImpactPath>, truncated: bool)
  datatype ImpactError = ObserverNotObserved(at: Id) | NoProof(head: Id)

  ghost function CausePaths(paths: seq<ImpactPath>): seq<Path> {
    seq(|paths|, i requires 0 <= i < |paths| => paths[i].causeSealIds)
  }

  ghost predicate PathProved(p: ImpactPath, revisions: Edges, assertions: map<Id, seq<AssertionSource>>,
          filter: set<Id>, selected: Id) {
    && p.causeSealIds != [] && p.matched == Last(p.causeSealIds)
    && Proves(p.proof, revisions, assertions, filter, selected, p.matched)
  }

  // The sources of an Impact query: what the selected Seal revises, in scope.
  ghost predicate SourceSet(sources: set<Id>, revisions: Edges, selected: Id) {
    IsReach(revisions, {selected}, sources)
  }

  method ProvePaths(g: Graph, shown: seq<Path>, head: Id, sources: set<Id>, revisions: Edges, filter: set<Id>,
          selected: Id)
      returns (r: Option<seq<ImpactPath>>)
    requires ScopedRevisions(revisions, g.assertions, filter) && SourceSet(sources, revisions, selected)
    requires forall p :: p in shown ==> p in Strict(g.causes, AsStop(sources), head)
    ensures r.Some? && CausePaths(r.value) == shown
    ensures forall p :: p in r.value ==> PathProved(p, revisions, g.assertions, filter, selected)
  {
    var done: seq<ImpactPath> := [];
    for i := 0 to |shown|
      invariant CausePaths(done) == shown[..i]
      invariant forall p :: p in done ==> PathProved(p, revisions, g.assertions, filter, selected)
    {
      var path := shown[i];
      assert path in shown;
      MatchedIsSource(g.causes, sources, head, path, revisions, selected);
      var matched := path[|path| - 1];
      var proof := ProveRevision(g, selected, matched, revisions, filter);
      if proof.None? {
        return None;
      }
      done := done + [ImpactPath(path, matched, proof.value)];
    }
    r := Some(done);
  }

  // A matched Seal is in the source set, so it has a chain: the proof cannot fail.
  lemma MatchedIsSource(causes: Edges, sources: set<Id>, head: Id, path: Path, revisions: Edges, selected: Id)
    requires path in Strict(causes, AsStop(sources), head) && SourceSet(sources, revisions, selected)
    ensures path != [] && Last(path) in sources && Reaches(revisions, selected, Last(path))
  {
    assert Last(path[1..]) == Last(path);
    assert Last(path) in sources;
    assert ReachedFrom(revisions, {selected}, Last(path));
  }

  ghost predicate RecordExact(r: ImpactRecord, g: Graph, sources: set<Id>, limit: nat, revisions: Edges,
          filter: set<Id>, selected: Id)
    reads g`causes, g`rank, g`assertions
    requires Ranked(g.causes, g.rank)
  {
    var all := EveryPath(g.causes, sources, r.head, g.rank);
    && CausePaths(r.paths) == Take(all, Some(limit))
    && (r.truncated <==> |all| > limit)
    && forall p :: p in r.paths ==> PathProved(p, revisions, g.assertions, filter, selected)
  }

  // One head: None when it is not impacted.
  method ImpactOf(g: Graph, head: Id, sources: set<Id>, limit: nat, revisions: Edges, filter: set<Id>, selected: Id,
          memo: PathMemo)
      returns (r: Result<Option<ImpactRecord>, ImpactError>)
    requires Acyclically(g) && limit > 0 && MemoCut(memo.table, g.causes, AsStop(sources), limit + 1)
    requires ScopedRevisions(revisions, g.assertions, filter) && SourceSet(sources, revisions, selected)
    modifies memo
    ensures MemoCut(memo.table, g.causes, AsStop(sources), limit + 1)
    ensures r.Success? && (r.value.Some? <==> Impacted(g.causes, sources, head))
    ensures r.value.Some? ==> r.value.value.head == head
                              && RecordExact(r.value.value, g, sources, limit, revisions, filter, selected)
  {
    var paths := CutPaths(g, head, sources, limit + 1, memo);
    TruncationExact(paths, limit + 1, g.causes, sources, head, g.rank);
    ImpactedHasPath(g.causes, sources, head, g.rank);
    if |paths| == 0 {
      return Success(None);
    }
    var shown := paths;
    if |shown| > limit {
      shown := shown[..limit];
    }
    assert shown == Take(EveryPath(g.causes, sources, head, g.rank), Some(limit));
    var proved := ProvePaths(g, shown, head, sources, revisions, filter, selected);
    if proved.None? {
      return Failure(NoProof(head));
    }
    r := Success(Some(ImpactRecord(head, proved.value, |paths| > |shown|)));
  }

  ghost function RecordHeads(records: seq<ImpactRecord>): seq<Id> {
    seq(|records|, i requires 0 <= i < |records| => records[i].head)
  }

  // The first of the observers that was not observed.
  ghost predicate FirstUnobserved(g: Graph, observers: seq<Id>, at: Id)
    reads g`nodes
  {
    at !in g.nodes && exists k :: 0 <= k < |observers| && observers[k] == at
                                  && forall j :: 0 <= j < k ==> observers[j] in g.nodes
  }

  // Impact on the observed heads. Every impacted head is reported, in order, each with
  // exactly the first limit of all its first-match Cause paths and an exact Truncated flag.
  method ImpactQuery(g: Graph, selected: Id, observers: seq<Id>, allPaths: bool, maxPaths: int)
      returns (r: Result<seq<ImpactRecord>, ImpactError>, ghost sources: set<Id>, ghost revisions: Edges,
          ghost limit: nat)
    requires Acyclically(g) && g.Gathered() && SortedEdges(g.revisions)
    ensures r.Failure? <==> exists o: Id :: o in observers && o !in g.nodes
    ensures r.Failure? ==> r.error.ObserverNotObserved? && FirstUnobserved(g, observers, r.error.at)
    ensures limit == if allPaths then (if maxPaths <= 0 then 100 else maxPaths) else 1
    ensures r.Success? ==>
              && ScopedRevisions(revisions, g.assertions, Elems(observers))
              && SourceSet(sources, revisions, selected)
    ensures r.Success? ==> Increasing(RecordHeads(r.value))
    ensures r.Success? ==> (forall h: Id :: h in RecordHeads(r.value) <==>
                              h in g.heads.Values && h != selected && Impacted(g.causes, sources, h))
    ensures r.Success? ==> (forall x :: x in r.value ==>
                              RecordExact(x, g, sources, limit, revisions, Elems(observers), selected))
  {
    sources, revisions := {}, map[];
    limit := if allPaths then (if maxPaths <= 0 then 100 else maxPaths) else 1;
    for i := 0 to |observers|
      invariant forall j :: 0 <= j < i ==> observers[j] in g.nodes
    {
      if observers[i] !in g.nodes {
        return Failure(ObserverNotObserved(observers[i])), sources, revisions, limit;
      }
    }
    var filter := set o | o in observers;
    assert filter == Elems(observers);
    var scoped := FilteredRevisions(g, filter);
    var sourceSet := Closure(scoped, [selected]);
    assert Elems([selected]) == {selected};
    revisions, sources := scoped, sourceSet;
    var max := 1;
    if allPaths {
      max := maxPaths;
      if max <= 0 {
        max := 100;
      }
    }
    var ids := SortedKeys(g.heads.Values);
    var records := AllRecords(g, ids, selected, filter, scoped, sourceSet, max);
    r := Success(records);
  }

  method AllRecords(g: Graph, ids: seq<Id>, selected: Id, filter: set<Id>, revisions: Edges, sources: set<Id>,
          limit: nat)
      returns (records: seq<ImpactRecord>)
    requires Acyclically(g) && Increasing(ids) && limit > 0
    requires ScopedRevisions(revisions, g.assertions, filter) && SourceSet(sources, revisions, selected)
    ensures Increasing(RecordHeads(records))
    ensures forall h: Id :: h in RecordHeads(records) <==> h in ids && h != selected && Impacted(g.causes, sources, h)
    ensures forall x :: x in records ==> RecordExact(x, g, sources, limit, revisions, filter, selected)
  {
    records := [];
    var memo := new PathMemo();
    for i := 0 to |ids|
      invariant MemoCut(memo.table, g.causes, AsStop(sources), limit + 1)
      invariant Increasing(RecordHeads(records))
      invariant forall h: Id :: h in RecordHeads(records) <==>
                  h in ids[..i] && h != selected && Impacted(g.causes, sources, h)
      invariant forall x :: x in records ==> RecordExact(x, g, sources, limit, revisions, filter, selected)
    {
      TakeNext(ids, i);
      assert forall h: Id :: h in ids[..i] ==> h < ids[i];
      if ids[i] != selected {
        var record := ImpactOf(g, ids[i], sources, limit, revisions, filter, selected, memo);
        if record.value.Some? {
          AppendHead(records, record.value.value);
          records := records + [record.value.value];
        }
      }
    }
    assert ids[..|ids|] == ids;
  }

  lemma AppendHead(records: seq<ImpactRecord>, r: ImpactRecord)
    ensures RecordHeads(records + [r]) == RecordHeads(records) + [r.head]
    ensures (Increasing(RecordHeads(records)) && forall h: Id :: h in RecordHeads(records) ==> h < r.head)
            ==> Increasing(RecordHeads(records + [r]))
  {
    assert RecordHeads(records + [r]) == RecordHeads(records) + [r.head];
    forall i | 0 <= i < |records| ensures RecordHeads(records)[i] in RecordHeads(records) {}
  }
}
