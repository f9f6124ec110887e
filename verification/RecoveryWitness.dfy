/** Runs of ordinary commands after which a recovery leaves heads that contradict each other. */
module RecoveryWitness {
  import opened Ids
  import opened Walks
  import opened ObservedGraph
  import opened StalePaths
  import opened HeadSnapshot
  import opened Admission
  import opened RepositoryState
  import opened Publication
  import opened Recovery

  // -------------------------------------------------- whole commands as runs

  ghost function End(run: seq<State>): State
    requires run != []
  {
    run[|run| - 1]
  }

  // The run goes on with one step.
  lemma Went(name: Naming, run: seq<State>, l: Label, s: State) returns (more: seq<State>)
    requires Run(name, run) && Step(name, End(run), s, l)
    ensures Run(name, more) && End(more) == s
  {
    RunNext(name, run, s);
    more := run + [s];
  }

  function Parts(name: Naming, blobs: map<Id, Blob>, c: Candidate): map<Id, Blob> {
    var m, p := MaterialOf(c), ProvenanceOf(c);
    blobs[name(m) := m][name(p) := p][name(SealOf(name, c)) := SealOf(name, c)]
  }

  lemma PartsPublish(name: Naming, blobs: map<Id, Blob>, c: Candidate)
    requires Injective(name) && Addressed(name, blobs) && c.content in blobs && AllStored(blobs, c.attachments)
    ensures Addressed(name, Parts(name, blobs, c)) && Extends(blobs, Parts(name, blobs, c))
    ensures Published(name, Parts(name, blobs, c), c)
  {
    var m, p := MaterialOf(c), ProvenanceOf(c);
    WriteExtends(name, blobs, m);
    WriteExtends(name, blobs[name(m) := m], p);
    WriteExtends(name, blobs[name(m) := m][name(p) := p], SealOf(name, c));
  }

  // What a seal leaves when nothing goes wrong.
  function Sealed(name: Naming, s: State, c: Candidate, op: nat): State {
    s.(blobs := Parts(name, s.blobs, c), refs := AfterSeal(name, s.refs, c),
       journal := s.journal[op := SealRecord(name, s.refs, c).(state := COMMITTED)],
           candidates := s.candidates - {c.ref})
  }

  // The Candidate is admitted and its three objects are written.
  lemma SealWritten(name: Naming, run: seq<State>, c: Candidate) returns (more: seq<State>)
    requires Run(name, run) && End(run).phase == Idle && Admissible(name, End(run), c)
    requires c.ref in End(run).candidates && End(run).candidates[c.ref] == c
    ensures Run(name, more)
    ensures End(more) == End(run).(blobs := Parts(name, End(run).blobs, c), phase := SealAdmitted(c, End(run).refs, 3))
  {
    var s := End(run);
    var m, p, b := MaterialOf(c), ProvenanceOf(c), SealOf(name, c);
    var one, two := s.blobs[name(m) := m], s.blobs[name(m) := m][name(p) := p];
    more := Went(name, run, DoSealAdmit(c.ref), s.(phase := SealAdmitted(c, s.refs, 0)));
    more := Went(name, more, DoSealWrite, s.(blobs := one, phase := SealAdmitted(c, s.refs, 1)));
    more := Went(name, more, DoSealWrite, s.(blobs := two, phase := SealAdmitted(c, s.refs, 2)));
    more := Went(name, more, DoSealWrite, s.(blobs := two[name(b) := b], phase := SealAdmitted(c, s.refs, 3)));
  }

  // The record is entered, the head moves, the record is committed and the Candidate removed.
  lemma SealMoved(name: Naming, run: seq<State>, c: Candidate, op: nat) returns (more: seq<State>)
    requires Run(name, run) && End(run).phase == SealAdmitted(c, End(run).refs, 3)
    requires c.expected == HeadOf(End(run).refs, c.ref) && op !in End(run).journal
    requires ValidRecord(SealRecord(name, End(run).refs, c)) && Published(name, End(run).blobs, c)
    ensures Run(name, more)
    ensures var s, r := End(run), SealRecord(name, End(run).refs, c);
            End(more) == s.(refs := AfterSeal(name, s.refs, c), journal := s.journal[op := r.(state := COMMITTED)],
                            candidates := s.candidates - {c.ref}, phase := Idle)
  {
    var s := End(run);
    var r := SealRecord(name, s.refs, c);
    var entered := s.(journal := s.journal[op := r], phase := SealPrepared(c, op));
    var moved := entered.(refs := AfterSeal(name, s.refs, c), phase := SealPublished(c, op));
    var committed := moved.(journal := s.journal[op := r.(state := COMMITTED)], phase := SealCommitted(c));
    assert entered.journal[op := r.(state := COMMITTED)] == committed.journal;
    more := Went(name, run, DoSealPrepare(op), entered);
    more := Went(name, more, DoSealUpdate, moved);
    more := Went(name, more, DoSealCommit, committed);
    more := Went(name, more, DoSealFinish, committed.(candidates := s.candidates - {c.ref}, phase := Idle));
  }

  // The Candidate is authored and sealed.
  lemma SealRun(name: Naming, run: seq<State>, c: Candidate, op: nat) returns (more: seq<State>)
    requires Injective(name) && Run(name, run) && End(run).phase == Idle && Admissible(name, End(run), c)
    requires Addressed(name, End(run).blobs) && op !in End(run).journal && End(run).candidates == map[]
    ensures Run(name, more) && End(more) == Sealed(name, End(run), c, op)
    ensures Addressed(name, End(more).blobs) && Extends(End(run).blobs, End(more).blobs)
    ensures Published(name, End(more).blobs, c)
  {
    PartsPublish(name, End(run).blobs, c);
    SealRecordValid(name, End(run).refs, c);
    more := Went(name, run, DoEdit, End(run).(candidates := map[c.ref := c]));
    more := SealWritten(name, more, c);
    more := SealMoved(name, more, c, op);
    assert End(more).candidates == map[];
  }

  function Dropped(s: State, ref: Name, op: nat): State
    requires ref in s.refs
  {
    s.(refs := s.refs - {ref}, journal := s.journal[op := DropRecord(ref, s.refs[ref]).(state := COMMITTED)])
  }

  lemma DropRun(name: Naming, run: seq<State>, ref: Name, op: nat) returns (more: seq<State>)
    requires Run(name, run) && End(run).phase == Idle && Free(End(run), ref) && op !in End(run).journal
    requires ref in End(run).refs && TargetsLoad(End(run).blobs, End(run).refs[ref])
    ensures Run(name, more) && End(more) == Dropped(End(run), ref, op)
  {
    var s := End(run);
    var r := DropRecord(ref, s.refs[ref]);
    var entered := s.(journal := s.journal[op := r], phase := DropPrepared(ref, s.refs[ref], op));
    var gone := entered.(refs := s.refs - {ref}, phase := Applied(op));
    assert entered.journal[op := r.(state := COMMITTED)] == Dropped(s, ref, op).journal;
    more := Went(name, run, DoDropPrepare(ref, op), entered);
    more := Went(name, more, DoDropPublish, gone);
    more := Went(name, more, DoCommit, Dropped(s, ref, op));
  }

  // ------------------------------------------------- Seals that contradict each other

  // x and y are roots; a says that x revises y, b that y revises x.
  function X(name: Naming): Candidate {
    Candidate("x", None, name(Raw("x")), [], true, false, [])
  }

  function Y(name: Naming): Candidate {
    Candidate("y", None, name(Raw("y")), [], true, false, [])
  }

  function XId(name: Naming): Id {
    ProspectiveId(name, X(name))
  }

  function YId(name: Naming): Id {
    ProspectiveId(name, Y(name))
  }

  function A(name: Naming): Candidate {
    Candidate("a", None, name(Raw("x")), [], false, false, [CauseLink(XId(name), [YId(name)], [])])
  }

  function B(name: Naming): Candidate {
    Candidate("b", None, name(Raw("x")), [], false, false, [CauseLink(YId(name), [XId(name)], [])])
  }

  // The next content of REF a: a root without any assertion.
  function NextA(name: Naming): Candidate {
    Candidate("a", Some(ProspectiveId(name, A(name))), name(Raw("y")), [], true, false, [])
  }

  lemma NamesDiffer()
    ensures "x" != "y" && "x" != "a" && "x" != "b" && "y" != "a" && "y" != "b" && "a" != "b"
  {
    assert "x"[0] == 'x' && "y"[0] == 'y' && "a"[0] == 'a' && "b"[0] == 'b';
  }

  lemma SealDetermines(name: Naming, c: Candidate, d: Candidate)
    requires Injective(name) && ProspectiveId(name, c) == ProspectiveId(name, d)
    ensures c.content == d.content && c.links == d.links
  {
    assert SealOf(name, c) == SealOf(name, d);
    assert MaterialOf(c) == MaterialOf(d) && ProvenanceOf(c) == ProvenanceOf(d);
  }

  lemma SealsDiffer(name: Naming)
    requires Injective(name)
    ensures var x, y, a, b := XId(name), YId(name), ProspectiveId(name, A(name)), ProspectiveId(name, B(name));
            x != y && a != b && a != x && a != y && b != x && b != y
    ensures ProspectiveId(name, NextA(name)) == YId(name)
  {
    NamesDiffer();
    assert name(Raw("x")) != name(Raw("y"));
    if XId(name) == YId(name) { SealDetermines(name, X(name), Y(name)); }
    var a, b := A(name), B(name);
    assert a.links[0] != b.links[0];
    if ProspectiveId(name, a) == ProspectiveId(name, b) { SealDetermines(name, a, b); }
    if ProspectiveId(name, a) == XId(name) { SealDetermines(name, a, X(name)); }
    if ProspectiveId(name, a) == YId(name) { SealDetermines(name, a, Y(name)); }
    if ProspectiveId(name, b) == XId(name) { SealDetermines(name, b, X(name)); }
    if ProspectiveId(name, b) == YId(name) { SealDetermines(name, b, Y(name)); }
  }

  // -------------------------------------------------------------- admission

  // The other heads are Seals of this set.
  ghost predicate OthersIn(refs: Refs, ref: Name, S: set<Id>) {
    forall r: Name :: r in refs && r != ref ==> refs[r].head in S
  }

  lemma AdmitsOver(name: Naming, s: State, c: Candidate, S: set<Id>, rank: map<Id, nat>)
    requires c.expected == HeadOf(s.refs, c.ref) && c.expected != Some(ProspectiveId(name, c))
    requires c.content in s.blobs && c.attachments == [] && OthersIn(s.refs, c.ref, S) && ProspectiveId(name, c) in S
    requires Sound(Loadable(s.blobs)[ProspectiveId(name, c) := ProspectiveSeal(c)], S, S, rank)
    ensures Admissible(name, s, c)
  {
    var env, id := Loadable(s.blobs)[ProspectiveId(name, c) := ProspectiveSeal(c)], ProspectiveId(name, c);
    var after := AfterSeal(name, s.refs, c);
    forall x: Id | x in HeadIds(after) ensures x in S {
      var r :| r in after && after[r].head == x;
      assert r != c.ref ==> r in s.refs && s.refs[r].head == x;
    }
    assert Sound(env, HeadIds(after), S, rank);
  }

  // A root, next to roots.
  lemma RootAdmits(name: Naming, s: State, c: Candidate, roots: set<Id>)
    requires c.expected == HeadOf(s.refs, c.ref) && c.expected != Some(ProspectiveId(name, c))
    requires c.content in s.blobs && c.attachments == [] && c.links == [] && OthersIn(s.refs, c.ref, roots)
    requires forall x :: x in roots ==> LoadSeal(s.blobs, x).Some? && LoadSeal(s.blobs, x).value.links == []
    ensures Admissible(name, s, c)
  {
    var env, id := Loadable(s.blobs)[ProspectiveId(name, c) := ProspectiveSeal(c)], ProspectiveId(name, c);
    assert Sound(env, roots + {id}, roots + {id}, map[]);
    AdmitsOver(name, s, c, roots + {id}, map[]);
  }

  // One of the contradicting Seals, next to the two roots.
  lemma SideAdmits(name: Naming, s: State, c: Candidate, target: Id, previous: Id)
    requires c.expected == HeadOf(s.refs, c.ref) && c.expected.None? && OthersIn(s.refs, c.ref, {target, previous})
    requires c.content in s.blobs && c.attachments == [] && c.links == [CauseLink(target, [previous], [])]
    requires target != previous && ProspectiveId(name, c) != target && ProspectiveId(name, c) != previous
    requires LoadSeal(s.blobs, target).Some? && LoadSeal(s.blobs, target).value.links == []
    requires LoadSeal(s.blobs, previous).Some? && LoadSeal(s.blobs, previous).value.links == []
    ensures Admissible(name, s, c)
  {
    var id := ProspectiveId(name, c);
    var env, S := Loadable(s.blobs)[id := ProspectiveSeal(c)], {id, target, previous};
    assert Sound(env, S, S, map[id := 2, target := 1, previous := 0]);
    AdmitsOver(name, s, c, S, map[id := 2, target := 1, previous := 0]);
  }

  // The normal admission passes it too: whatever graph it is judged by, its Cause is fit.
  lemma SideIsFit(name: Naming, s: State, c: Candidate, target: Id, previous: Id, g: Graph)
    requires c.links == [CauseLink(target, [previous], [])] && OthersIn(s.refs, c.ref, {target, previous})
    requires target != previous && ProspectiveId(name, c) != target && ProspectiveId(name, c) != previous
    requires LoadSeal(s.blobs, target).Some? && LoadSeal(s.blobs, target).value.links == []
    requires LoadSeal(s.blobs, previous).Some? && LoadSeal(s.blobs, previous).value.links == []
    requires !LoadSeal(s.blobs, target).value.draft
    requires exists r :: r in s.refs && r != c.ref && s.refs[r].head == target
    requires JudgedBy(name, g, s.blobs, s.refs, c)
    ensures AllFit(g, Elems(LinkTargets(c.links)), false)
  {
    var id, after := ProspectiveId(name, c), AfterSeal(name, s.refs, c);
    var env := Loadable(s.blobs)[id := ProspectiveSeal(c)];
    HeadsAreIds(after);
    var r :| r in s.refs && r != c.ref && s.refs[r].head == target;
    assert after[r].head == target && target in HeadIds(after);
    SideNodes(g, env, HeadIds(after), id, target, previous);
    SideLeaf(g, env, HeadIds(after), id, target, previous);
    forall x: Id | ReachedFrom(g.causes, {target}, x) ensures x == target {
      ReachesSplit(g.causes, target, x);
    }
    assert LinkTargets(c.links) == [target];
    assert Elems([target]) == {target};
  }

  lemma SideNodes(g: Graph, env: map<Id, Seal>, heads: set<Id>, id: Id, target: Id, previous: Id)
    requires g.Closed(env, heads) && heads <= {id, target, previous} && target in heads
    requires {id, target, previous} <= env.Keys && env[target].links == [] && env[previous].links == []
    requires env[id].links == [CauseLink(target, [previous], [])]
    ensures g.nodes.Keys <= {id, target, previous} && target in g.nodes
  {
    var S := {id, target, previous};
    assert Supports(env, heads, S);
    forall x: Id | x in g.nodes ensures x in S {
      assert ReachedFrom(Deps(env), heads, x);
      ReachedIsLeast(env, heads, S, x);
    }
    ReachesSelf(Deps(env), target);
    assert ReachedFrom(Deps(env), heads, target);
  }

  // Nothing in that graph says that the target was revised.
  lemma SideLeaf(g: Graph, env: map<Id, Seal>, heads: set<Id>, id: Id, target: Id, previous: Id)
    requires g.Valid() && g.Closed(env, heads) && g.heads.Values == heads && target in heads
    requires g.nodes.Keys <= {id, target, previous} && {id, target, previous} <= env.Keys && target != previous
    requires env[target].links == [] && env[previous].links == []
    requires env[id].links == [CauseLink(target, [previous], [])]
    requires id != target
    ensures ActiveLeaf(g.active, g.children, target) && forall b: Id :: b !in Out(g.causes, target)
  {
    SidePairs(g.nodes, id, target, previous);
    ReachesSelf(g.revisions, target);
    assert ReachedFrom(g.revisions, heads, target);
    forall c: Id ensures c in Out(g.children, target) ==> (c, target) in RevisionPairs(g.nodes) {
      assert c in Out(g.children, target) <==> (target, c) in Swap(RevisionPairs(g.nodes));
    }
    forall b: Id ensures b in Out(g.causes, target) ==> (target, b) in CausePairs(g.nodes) {}
  }

  lemma SidePairs(nodes: map<Id, Seal>, id: Id, target: Id, previous: Id)
    requires nodes.Keys <= {id, target, previous}
    requires id in nodes ==> nodes[id].links == [CauseLink(target, [previous], [])]
    requires (target in nodes ==> nodes[target].links == []) && (previous in nodes ==> nodes[previous].links == [])
    ensures forall a: Id, b: Id :: (a, b) in CausePairs(nodes) ==> a == id
    ensures forall a: Id, b: Id :: (a, b) in RevisionPairs(nodes) ==> b == previous
  {
  }

  // Each is fine without the other; together they are not.
  lemma OpposedHeads(env: map<Id, Seal>, heads: set<Id>, a: Id, b: Id, x: Id, y: Id)
    requires a in heads && b in heads && a in env && b in env
    requires env[a].links == [CauseLink(x, [y], [])] && env[b].links == [CauseLink(y, [x], [])]
    ensures !GraphOk(env, heads)
  {
    forall S, rank | Supports(env, heads, S) ensures !RanksLinks(env, S, rank) {
      assert env[a].links[0] in env[a].links && env[b].links[0] in env[b].links;
    }
  }

  // ------------------------------------------------------------- the two runs

  // Between two commands: the contents and these Seals are stored.
  ghost predicate Shelved(name: Naming, s: State, published: set<Candidate>) {
    && s.phase == Idle && s.candidates == map[] && s.sources == {} && Addressed(name, s.blobs)
    && name(Raw("x")) in s.blobs && name(Raw("y")) in s.blobs
    && forall c :: c in published ==> Published(name, s.blobs, c)
  }

  // One more Seal under a new REF, or under one that carries no tags.
  lemma SealNext(name: Naming, run: seq<State>, c: Candidate, op: nat, published: set<Candidate>)
      returns (more: seq<State>)
    requires Injective(name) && Run(name, run) && Shelved(name, End(run), published)
    requires Admissible(name, End(run), c) && op !in End(run).journal
    requires c.ref in End(run).refs ==> End(run).refs[c.ref].tags == map[]
    ensures Run(name, more) && Shelved(name, End(more), published + {c})
    ensures End(more).refs == End(run).refs[c.ref := Manifest(ProspectiveId(name, c), map[])]
    ensures End(more).journal == End(run).journal[op := SealRecord(name, End(run).refs, c).(state := COMMITTED)]
  {
    more := SealRun(name, run, c, op);
    forall d | d in published ensures Published(name, End(more).blobs, d) {
      LoadKept(End(run).blobs, End(more).blobs, ProspectiveId(name, d));
    }
  }

  // The two contents are stored.
  lemma Authored(name: Naming) returns (run: seq<State>)
    requires Injective(name)
    ensures Run(name, run) && Shelved(name, End(run), {}) && End(run).refs == map[] && End(run).journal == map[]
  {
    var none := State(map[], map[], map[], map[], {}, Idle);
    assert Run(name, [none]);
    run := Went(name, [none], DoEdit, none.(blobs := map[name(Raw("x")) := Raw("x"), name(Raw("y")) := Raw("y")]));
  }

  function RootRefs(name: Naming): Refs {
    map["x" := Manifest(XId(name), map[])]["y" := Manifest(YId(name), map[])]
  }

  lemma RootHeads(name: Naming)
    ensures "a" !in RootRefs(name) && "b" !in RootRefs(name) && OthersIn(RootRefs(name), "b", {YId(name), XId(name)})
    ensures OthersIn(RootRefs(name), "a", {XId(name), YId(name)})
  {
    NamesDiffer();
  }

  // x and y are sealed.
  lemma RootsSealed(name: Naming) returns (run: seq<State>)
    requires Injective(name)
    ensures Run(name, run) && Shelved(name, End(run), {X(name), Y(name)})
    ensures End(run).refs == RootRefs(name) && End(run).journal.Keys == {0, 1}
  {
    NamesDiffer();
    run := Authored(name);
    RootAdmits(name, End(run), X(name), {});
    run := SealNext(name, run, X(name), 0, {});
    RootAdmits(name, End(run), Y(name), {XId(name)});
    run := SealNext(name, run, Y(name), 1, {X(name)});
  }

  lemma RootsLoad(name: Naming, s: State, published: set<Candidate>)
    requires Shelved(name, s, published) && X(name) in published && Y(name) in published
    ensures forall x :: x in {XId(name), YId(name)} ==>
              LoadSeal(s.blobs, x).Some? && LoadSeal(s.blobs, x).value.links == []
  {
  }

  // Then a is sealed.
  lemma ThreeSealed(name: Naming) returns (run: seq<State>)
    requires Injective(name)
    ensures Run(name, run) && Shelved(name, End(run), {X(name), Y(name), A(name)})
    ensures End(run).refs == RootRefs(name)["a" := Manifest(ProspectiveId(name, A(name)), map[])]
    ensures End(run).journal.Keys == {0, 1, 2}
  {
    NamesDiffer();
    SealsDiffer(name);
    run := RootsSealed(name);
    RootsLoad(name, End(run), {X(name), Y(name)});
    SideAdmits(name, End(run), A(name), XId(name), YId(name));
    run := SealNext(name, run, A(name), 2, {X(name), Y(name)});
  }

  // b is sealed once no REF holds the Seal of a.
  lemma BSealed(name: Naming, run: seq<State>, published: set<Candidate>) returns (more: seq<State>)
    requires Injective(name) && Run(name, run) && Shelved(name, End(run), published)
    requires X(name) in published && Y(name) in published
    requires 4 !in End(run).journal && "b" !in End(run).refs && OthersIn(End(run).refs, "b", {YId(name), XId(name)})
    ensures Run(name, more) && Shelved(name, End(more), published + {B(name)})
    ensures End(more).refs == End(run).refs["b" := Manifest(ProspectiveId(name, B(name)), map[])]
    ensures forall op: nat :: op != 4 && op in End(run).journal ==>
              op in End(more).journal && End(more).journal[op] == End(run).journal[op]
  {
    SealsDiffer(name);
    RootsLoad(name, End(run), published);
    SideAdmits(name, End(run), B(name), YId(name), XId(name));
    more := SealNext(name, run, B(name), 4, published);
  }

  function BackAt(name: Naming, refs: Refs): Refs {
    refs["a" := Manifest(ProspectiveId(name, A(name)), map[])]
  }

  // Bringing the Seal of a back contradicts b.
  lemma BackIsBroken(name: Naming, s: State, published: set<Candidate>)
    requires Injective(name) && Shelved(name, s, published) && A(name) in published && B(name) in published
    requires At(s.refs, "b") == Some(Manifest(ProspectiveId(name, B(name)), map[]))
    ensures !HeadsOk(s.blobs, BackAt(name, s.refs))
  {
    NamesDiffer();
    var a, b, back := ProspectiveId(name, A(name)), ProspectiveId(name, B(name)), BackAt(name, s.refs);
    assert back["a"].head == a && back["b"].head == b;
    assert Published(name, s.blobs, A(name)) && Published(name, s.blobs, B(name));
    OpposedHeads(Loadable(s.blobs), HeadIds(back), a, b, XId(name), YId(name));
  }

  // A record of REF a whose old side is that Seal does bring it back.
  lemma BackIsRecovery(name: Naming, s: State, published: set<Candidate>, op: nat, after: Option<Manifest>)
    requires Injective(name) && Shelved(name, s, published) && A(name) in published
    requires op in s.journal && ValidRecord(s.journal[op]) && s.journal[op].kind != MoveKind
    requires s.journal[op].transitions == [Transition("a", Some(Manifest(ProspectiveId(name, A(name)), map[])), after)]
    requires after.Some? ==> LoadSeal(s.blobs, after.value.head).Some? && after.value.tags == map[]
    requires At(s.refs, "a") == after
    ensures Recover(s, s.(refs := BackAt(name, s.refs)), op)
  {
    assert Published(name, s.blobs, A(name));
    assert TransitionLoads(s.blobs, s.journal[op].transitions[0]);
  }

  // The record of what took the Seal of a away.
  function Taken(name: Naming, kind: OperationKind, after: Option<Manifest>): JournalRecord {
    JournalRecord(COMMITTED, kind, [Transition("a", Some(Manifest(ProspectiveId(name, A(name)), map[])), after)])
  }

  lemma TakenValid(name: Naming)
    requires Injective(name)
    ensures ValidRecord(Taken(name, DropKind, None))
    ensures ValidRecord(Taken(name, SealKind, Some(Manifest(YId(name), map[]))))
  {
    SealsDiffer(name);
  }

  // x and y are sealed, and a no longer is: it is gone, or stands at the Seal of y.
  ghost predicate TakenAway(name: Naming, run: seq<State>, kind: OperationKind, after: Option<Manifest>) {
    && Run(name, run) && Shelved(name, End(run), {X(name), Y(name), A(name)})
    && End(run).journal.Keys == {0, 1, 2, 3} && End(run).journal[3] == Taken(name, kind, after)
    && End(run).refs == Put(RootRefs(name), "a", after)
  }

  // Once b is sealed, such a record breaks the heads.
  lemma BackAfterB(name: Naming, run: seq<State>, kind: OperationKind, after: Option<Manifest>)
      returns (more: seq<State>, s': State)
    requires Injective(name) && TakenAway(name, run, kind, after)
    requires ValidRecord(Taken(name, kind, after)) && kind != MoveKind
    requires after.None? || after == Some(Manifest(YId(name), map[]))
    ensures Run(name, more) && Recover(End(more), s', 3) && End(more).journal[3] == Taken(name, kind, after)
    ensures !HeadsOk(s'.blobs, s'.refs)
  {
    NamesDiffer();
    RootHeads(name);
    var published := {X(name), Y(name), A(name)};
    more := BSealed(name, run, published);
    s' := End(more).(refs := BackAt(name, End(more).refs));
    RootsLoad(name, End(more), published + {B(name)});
    BackIsRecovery(name, End(more), published + {B(name)}, 3, after);
    BackIsBroken(name, End(more), published + {B(name)});
  }

  // The Seal of a is dropped.
  lemma ADropped(name: Naming) returns (run: seq<State>)
    requires Injective(name)
    ensures TakenAway(name, run, DropKind, None)
  {
    RootHeads(name);
    run := ThreeSealed(name);
    assert Published(name, End(run).blobs, A(name));
    run := DropRun(name, run, "a", 3);
  }

  // Or a second Seal of REF a takes its place.
  lemma NextASealed(name: Naming) returns (run: seq<State>)
    requires Injective(name)
    ensures TakenAway(name, run, SealKind, Some(Manifest(YId(name), map[])))
  {
    run := ThreeSealed(name);
    var published := {X(name), Y(name), A(name)};
    NextAAdmits(name, End(run), published);
    NextARecord(name, End(run).refs);
    run := SealNext(name, run, NextA(name), 3, published);
  }

  lemma NextARecord(name: Naming, refs: Refs)
    requires Injective(name) && refs == RootRefs(name)["a" := Manifest(ProspectiveId(name, A(name)), map[])]
    ensures ProspectiveId(name, NextA(name)) == YId(name) && refs["a"].tags == map[]
    ensures SealRecord(name, refs, NextA(name)).(state := COMMITTED)
            == Taken(name, SealKind, Some(Manifest(YId(name), map[])))
    ensures refs["a" := Manifest(YId(name), map[])] == Put(RootRefs(name), "a", Some(Manifest(YId(name), map[])))
  {
    SealsDiffer(name);
  }

  lemma NextAAdmits(name: Naming, s: State, published: set<Candidate>)
    requires Injective(name) && Shelved(name, s, published) && X(name) in published && Y(name) in published
    requires s.refs == RootRefs(name)["a" := Manifest(ProspectiveId(name, A(name)), map[])]
    ensures Admissible(name, s, NextA(name))
  {
    SealsDiffer(name);
    RootHeads(name);
    RootsLoad(name, s, published);
    RootAdmits(name, s, NextA(name), {XId(name), YId(name)});
  }

  // Seal x, y and a; drop a; seal b; recover the drop. All of it is admitted, and the heads
  // no longer form an acyclic graph.
  lemma RecoveredDropCanBreak(name: Naming) returns (run: seq<State>, s': State, op: nat)
    requires Injective(name)
    ensures Run(name, run) && Recover(End(run), s', op) && End(run).journal[op].kind == DropKind
    ensures !HeadsOk(s'.blobs, s'.refs)
  {
    run := ADropped(name);
    TakenValid(name);
    run, s' := BackAfterB(name, run, DropKind, None);
    op := 3;
  }

  // Sealing a again instead of dropping it: seal records break it too.
  lemma RecoveredSealCanBreak(name: Naming) returns (run: seq<State>, s': State, op: nat)
    requires Injective(name)
    ensures Run(name, run) && Recover(End(run), s', op) && End(run).journal[op].kind == SealKind
    ensures !HeadsOk(s'.blobs, s'.refs)
  {
    run := NextASealed(name);
    TakenValid(name);
    run, s' := BackAfterB(name, run, SealKind, Some(Manifest(YId(name), map[])));
    op := 3;
  }
}
