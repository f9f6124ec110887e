/** What every publishing step keeps: stored, acyclic head closures and loadable tags. */
module Publication {
  import opened Ids
  import opened Walks
  import opened ObservedGraph
  import opened HeadSnapshot
  import opened Admission
  import opened RepositoryState

  // ------------------------------------------------------------ more objects

  ghost predicate Extends(blobs: map<Id, Blob>, more: map<Id, Blob>) {
    forall id: Id :: id in blobs ==> id in more && more[id] == blobs[id]
  }

  ghost predicate Stored(name: Naming, blobs: map<Id, Blob>, b: Blob) {
    name(b) in blobs && blobs[name(b)] == b
  }

  // Content addressing: writing an object never replaces a different one.
  lemma WriteExtends(name: Naming, blobs: map<Id, Blob>, b: Blob)
    requires Injective(name) && Addressed(name, blobs)
    ensures Extends(blobs, blobs[name(b) := b]) && Addressed(name, blobs[name(b) := b])
    ensures Stored(name, blobs[name(b) := b], b)
  {
  }

  lemma LoadKept(blobs: map<Id, Blob>, more: map<Id, Blob>, id: Id)
    requires Extends(blobs, more) && LoadSeal(blobs, id).Some?
    ensures LoadSeal(more, id) == LoadSeal(blobs, id)
  {
  }

  lemma LoadableKept(blobs: map<Id, Blob>, more: map<Id, Blob>)
    requires Extends(blobs, more)
    ensures Holds(Loadable(blobs), Loadable(more))
  {
    forall id: Id | id in Loadable(blobs) ensures id in Loadable(more) && Loadable(more)[id] == Loadable(blobs)[id] {
      LoadKept(blobs, more, id);
    }
  }

  // Objects only accumulate, so a fine graph stays fine; so does a part of its heads.
  lemma GraphOkKept(env: map<Id, Seal>, more: map<Id, Seal>, heads: set<Id>, fewer: set<Id>)
    requires GraphOk(env, heads) && Holds(env, more) && fewer <= heads
    ensures GraphOk(more, fewer)
  {
    var S, rank :| Sound(env, heads, S, rank);
    assert Supports(more, fewer, S) by {
      forall o, l | o in S && l in more[o].links
        ensures l.target in S && forall p: Id :: p in l.previous ==> p in S
      {
        assert more[o] == env[o];
      }
    }
    assert RanksLinks(more, S, rank) by {
      forall o, l | o in S && o in more && l in more[o].links
        ensures RankOf(rank, l.target) < RankOf(rank, o) && forall p: Id :: p in l.previous ==>
                  RankOf(rank, p) < RankOf(rank, l.target)
      {
        assert o in env && more[o] == env[o];
      }
    }
    assert Sound(more, fewer, S, rank);
  }

  // --------------------------------------------------------------- invariant

  ghost predicate HeadsOk(blobs: map<Id, Blob>, refs: Refs) {
    GraphOk(Loadable(blobs), HeadIds(refs))
  }

  ghost predicate TagsOk(blobs: map<Id, Blob>, refs: Refs) {
    forall ref: Name, tag: string :: ref in refs && tag in refs[ref].tags ==> LoadSeal(blobs, refs[ref].tags[tag]).Some?
  }

  function AfterSeal(name: Naming, refs: Refs, c: Candidate): Refs {
    refs[c.ref := Advanced(refs, c.ref, ProspectiveId(name, c))]
  }

  // The graph the Candidate was validated against, over the objects stored by now.
  ghost predicate Prospective(name: Naming, blobs: map<Id, Blob>, refs: Refs, c: Candidate) {
    && c.content in blobs && AllStored(blobs, c.attachments)
    && GraphOk(Loadable(blobs)[ProspectiveId(name, c) := ProspectiveSeal(c)], HeadIds(AfterSeal(name, refs, c)))
  }

  ghost predicate PartsStored(name: Naming, blobs: map<Id, Blob>, c: Candidate, written: nat) {
    written <= 3 && forall k: nat :: k < written ==> Stored(name, blobs, PartOf(name, c, k))
  }

  ghost predicate Published(name: Naming, blobs: map<Id, Blob>, c: Candidate) {
    LoadSeal(blobs, ProspectiveId(name, c)) == Some(ProspectiveSeal(c))
  }

  ghost predicate PhaseOk(name: Naming, s: State) {
    match s.phase
    case SealAdmitted(c, observed, written) =>
      Prospective(name, s.blobs, observed, c) && PartsStored(name, s.blobs, c, written)
    case SealPrepared(c, op) =>
      Published(name, s.blobs, c) && HeadsOk(s.blobs, AfterSeal(name, s.refs, c))
    case TagPrepared(ref, tag, target, head, op) => LoadSeal(s.blobs, target).Some?
    case _ => true
  }

  ghost predicate Safe(name: Naming, s: State) {
    && Addressed(name, s.blobs)
    && HeadsOk(s.blobs, s.refs)
    && TagsOk(s.blobs, s.refs)
    && PhaseOk(name, s)
  }

  lemma HeadsKept(blobs: map<Id, Blob>, more: map<Id, Blob>, refs: Refs, fewer: Refs)
    requires HeadsOk(blobs, refs) && Extends(blobs, more) && HeadIds(fewer) <= HeadIds(refs)
    ensures HeadsOk(more, fewer)
  {
    LoadableKept(blobs, more);
    GraphOkKept(Loadable(blobs), Loadable(more), HeadIds(refs), HeadIds(fewer));
  }

  lemma TagsKept(blobs: map<Id, Blob>, more: map<Id, Blob>, refs: Refs)
    requires TagsOk(blobs, refs) && Extends(blobs, more)
    ensures TagsOk(more, refs)
  {
    forall ref: Name, tag: string | ref in refs && tag in refs[ref].tags
      ensures LoadSeal(more, refs[ref].tags[tag]).Some?
    {
      LoadKept(blobs, more, refs[ref].tags[tag]);
    }
  }

  // ------------------------------------------------------------------- steps

  lemma ProspectiveKept(name: Naming, blobs: map<Id, Blob>, more: map<Id, Blob>, refs: Refs, c: Candidate)
    requires Prospective(name, blobs, refs, c) && Extends(blobs, more)
    ensures Prospective(name, more, refs, c)
  {
    LoadableKept(blobs, more);
    var id := ProspectiveId(name, c);
    GraphOkKept(Loadable(blobs)[id := ProspectiveSeal(c)], Loadable(more)[id := ProspectiveSeal(c)],
                HeadIds(AfterSeal(name, refs, c)), HeadIds(AfterSeal(name, refs, c)));
  }

  lemma WriteKeeps(name: Naming, s: State, s': State)
    requires Injective(name) && Safe(name, s) && SealWrite(name, s, s')
    ensures Safe(name, s')
  {
    var c, written := s.phase.cand, s.phase.written;
    WriteExtends(name, s.blobs, PartOf(name, c, written));
    HeadsKept(s.blobs, s'.blobs, s.refs, s.refs);
    TagsKept(s.blobs, s'.blobs, s.refs);
    ProspectiveKept(name, s.blobs, s'.blobs, s.phase.observed, c);
    forall k: nat | k < written + 1 ensures Stored(name, s'.blobs, PartOf(name, c, k)) {
    }
  }

  // With its three objects written, the Seal loads as it was validated.
  lemma PartsLoad(name: Naming, blobs: map<Id, Blob>, c: Candidate)
    requires PartsStored(name, blobs, c, 3) && c.content in blobs && AllStored(blobs, c.attachments)
    ensures Published(name, blobs, c)
  {
    assert Stored(name, blobs, PartOf(name, c, 0)) && Stored(name, blobs, PartOf(name, c, 1))
        && Stored(name, blobs, PartOf(name, c, 2));
  }

  lemma PartsMakeSeal(name: Naming, blobs: map<Id, Blob>, refs: Refs, c: Candidate)
    requires PartsStored(name, blobs, c, 3) && Prospective(name, blobs, refs, c)
    ensures Published(name, blobs, c) && HeadsOk(blobs, AfterSeal(name, refs, c))
  {
    PartsLoad(name, blobs, c);
    assert Loadable(blobs)[ProspectiveId(name, c) := ProspectiveSeal(c)] == Loadable(blobs);
  }

  lemma EditKeeps(name: Naming, s: State, s': State)
    requires Safe(name, s) && Edit(name, s, s')
    ensures Safe(name, s')
  {
    HeadsKept(s.blobs, s'.blobs, s.refs, s.refs);
    TagsKept(s.blobs, s'.blobs, s.refs);
  }

  lemma UpdateKeeps(name: Naming, s: State, s': State)
    requires Safe(name, s) && SealUpdate(name, s, s')
    ensures Safe(name, s')
  {
    var c := s.phase.cand;
    assert s'.refs == AfterSeal(name, s.refs, c);
    forall ref: Name, tag: string | ref in s'.refs && tag in s'.refs[ref].tags
      ensures LoadSeal(s.blobs, s'.refs[ref].tags[tag]).Some?
    {
      assert ref in s.refs && s'.refs[ref].tags == s.refs[ref].tags;
    }
  }

  // tag, mv and drop move no head: what was a head is still one, or is gone.
  lemma ManifestStepKeeps(name: Naming, s: State, s': State)
    requires Safe(name, s) && (TagPublish(s, s') || MovePublish(s, s') || DropPublish(s, s'))
    ensures Safe(name, s')
  {
    forall x: Id | x in HeadIds(s'.refs) ensures x in HeadIds(s.refs) {
      var ref :| ref in s'.refs && s'.refs[ref].head == x;
      if s.phase.MovePrepared? && ref == s.phase.destination {
        assert s.refs[s.phase.source].head == x;
      } else {
        assert ref in s.refs && s.refs[ref].head == x;
      }
    }
    HeadsKept(s.blobs, s.blobs, s.refs, s'.refs);
  }

  lemma StepKeeps(name: Naming, s: State, s': State, l: Label)
    requires Injective(name) && Safe(name, s) && Step(name, s, s', l)
    ensures Safe(name, s')
  {
    match l
    case DoEdit => EditKeeps(name, s, s');
    case DoSealWrite => WriteKeeps(name, s, s');
    case DoSealPrepare(op) => PartsMakeSeal(name, s.blobs, s.phase.observed, s.phase.cand);
    case DoSealUpdate => UpdateKeeps(name, s, s');
    case DoTagPublish => ManifestStepKeeps(name, s, s');
    case DoMovePublish => ManifestStepKeeps(name, s, s');
    case DoDropPublish => ManifestStepKeeps(name, s, s');
    case _ =>
  }

  lemma FreshIsSafe(name: Naming, s: State)
    requires Init(s)
    ensures Safe(name, s)
  {
    assert HeadIds(s.refs) == {};
    assert Sound(Loadable(s.blobs), {}, {}, map[]);
  }

  // Whole-run safety: however the commands interleave with edits and crashes.
  lemma {:induction false} SafeRun(name: Naming, run: seq<State>, k: nat)
    requires Injective(name) && Run(name, run) && k < |run|
    ensures Safe(name, run[k])
    decreases k
  {
    if k == 0 {
      FreshIsSafe(name, run[0]);
    } else {
      SafeRun(name, run, k - 1);
      assert Next(name, run[k - 1], run[k]);
      var l :| Step(name, run[k - 1], run[k], l);
      StepKeeps(name, run[k - 1], run[k], l);
    }
  }

  lemma RunNext(name: Naming, run: seq<State>, s: State)
    requires Run(name, run) && Next(name, run[|run| - 1], s)
    ensures Run(name, run + [s])
  {
    var more := run + [s];
    forall i, j | 0 <= i < j < |more| && j == i + 1 ensures Next(name, more[i], more[j]) {
      if j < |run| {
        assert Next(name, run[i], run[j]);
      }
    }
  }

  // A Seal with everything it consists of: Material, Provenance, content and attachments.
  ghost predicate Whole(blobs: map<Id, Blob>, id: Id) {
    && id in blobs && blobs[id].SealBlob?
    && blobs[id].material in blobs && blobs[blobs[id].material].MaterialBlob?
    && blobs[id].provenance in blobs && blobs[blobs[id].provenance].ProvenanceBlob?
    && blobs[blobs[id].material].content in blobs
    && forall a :: a in blobs[blobs[id].material].attachments ==> a.blob in blobs
  }

  // A Seal loads exactly when all of it is stored, and as what is stored.
  lemma LoadsExactly(blobs: map<Id, Blob>, id: Id)
    ensures id in Loadable(blobs) <==> Whole(blobs, id)
    ensures Whole(blobs, id) ==>
              var material, provenance := blobs[blobs[id].material], blobs[blobs[id].provenance];
              var s := Loadable(blobs)[id];
              && s.content == material.content && s.attachments == material.attachments
              && s.root == provenance.root && s.draft == provenance.draft && s.links == provenance.links
  {
    if id in Loadable(blobs) {
      var attachments := blobs[blobs[id].material].attachments;
      forall a | a in attachments ensures a.blob in blobs {
        var i :| 0 <= i < |attachments| && attachments[i] == a;
      }
    }
  }

  // What safety gives a reader: everything the head of any REF reaches is stored whole, and so
  // is what its tags name.
  lemma SafeMeansStored(name: Naming, s: State, ref: Name, x: Id)
    requires Safe(name, s) && ref in s.refs
    ensures Reaches(Deps(Loadable(s.blobs)), s.refs[ref].head, x) ==> Whole(s.blobs, x)
    ensures forall tag :: tag in s.refs[ref].tags ==> Whole(s.blobs, s.refs[ref].tags[tag])
  {
    LoadsExactly(s.blobs, x);
    if Reaches(Deps(Loadable(s.blobs)), s.refs[ref].head, x) {
      var S, rank :| Sound(Loadable(s.blobs), HeadIds(s.refs), S, rank);
      assert ReachedFrom(Deps(Loadable(s.blobs)), HeadIds(s.refs), x);
      ReachedIsLeast(Loadable(s.blobs), HeadIds(s.refs), S, x);
    }
    forall tag | tag in s.refs[ref].tags ensures Whole(s.blobs, s.refs[ref].tags[tag]) {
      LoadsExactly(s.blobs, s.refs[ref].tags[tag]);
    }
  }

  function Heads(refs: Refs): map<Ref, Id> {
    map r | r in refs :: refs[r].head
  }

  lemma HeadsAreIds(refs: Refs)
    ensures Heads(refs).Values == HeadIds(refs)
  {
    forall x: Id | x in HeadIds(refs) ensures x in Heads(refs).Values {
      var r :| r in refs && refs[r].head == x;
      assert Heads(refs)[r] == x;
    }
  }

  // The graph a Candidate was judged by: the heads with its REF moved, its Seal in place.
  ghost predicate JudgedBy(name: Naming, g: Graph, blobs: map<Id, Blob>, refs: Refs, c: Candidate)
    reads g
  {
    && g.Valid() && g.heads == Heads(AfterSeal(name, refs, c))
    && g.Closed(Loadable(blobs)[ProspectiveId(name, c) := ProspectiveSeal(c)], HeadIds(AfterSeal(name, refs, c)))
  }

  // In every state of every run the observation of the current heads succeeds.
  method Observe(name: Naming, ghost run: seq<State>, s: State) returns (g: Graph)
    requires Injective(name) && Run(name, run) && s in run
    ensures fresh(g) && g.Valid() && g.heads == Heads(s.refs)
    ensures g.Closed(Loadable(s.blobs), HeadIds(s.refs))
    ensures Acyclic(g.nodes.Keys, Combined(g.causes, g.revisions))
  {
    ghost var k :| 0 <= k < |run| && run[k] == s;
    SafeRun(name, run, k);
    HeadsAreIds(s.refs);
    g := new Graph(Heads(s.refs));
    ghost var env := Loadable(s.blobs);
    assert env + map[] == env;
    var err := g.Build(Loadable(s.blobs), map[], env);
    assert err.None?;
    RankedGraphIsAcyclic(g.nodes.Keys, g.causes, g.revisions, g.rank);
  }

  lemma RankedGraphIsAcyclic(nodes: set<Id>, causes: Edges, revisions: Edges, rank: map<Id, nat>)
    requires Ranked(causes, rank) && Ranked(revisions, rank)
    ensures Acyclic(nodes, Combined(causes, revisions))
  {
    var all := Combined(causes, revisions);
    forall p | IsWalk(all, p) && |p| >= 2 && p[0] in nodes ensures p[0] != Last(p) {
      forall a: Id, b: Id | b in Out(all, a) ensures RankOf(rank, b) < RankOf(rank, a) {
        CombinedOut(causes, revisions, a);
      }
      WalkDescends(all, rank, p, 0, |p| - 1);
    }
  }
}
