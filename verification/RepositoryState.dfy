/** Stored objects, REF manifests and the recovery journal, with the steps that change them. */
module RepositoryState {
  import opened Ids
  import opened ObservedGraph
  import opened HeadSnapshot
  import opened Admission
  import opened Text

  type Name = string

  // ------------------------------------------------------------- objects

  datatype Blob =
    | SealBlob(material: Id, provenance: Id)
    | MaterialBlob(content: Id, attachments: seq<Attachment>)
    | ProvenanceBlob(root: bool, draft: bool, links: seq<CauseLink>)
    | Raw(data: string)

  // Encoding followed by hashing: different objects have different identifiers.
  type Naming = Blob -> Id

  ghost predicate Injective(name: Naming) {
    forall a: Blob, b: Blob :: name(a) == name(b) ==> a == b
  }

  // Every object is stored under its own identifier.
  ghost predicate Addressed(name: Naming, blobs: map<Id, Blob>) {
    forall id: Id :: id in blobs ==> name(blobs[id]) == id
  }

  predicate AllStored(blobs: map<Id, Blob>, attachments: seq<Attachment>) {
    forall i :: 0 <= i < |attachments| ==> attachments[i].blob in blobs
  }

  // LoadSeal: the Seal, its Material, its Provenance, its content and its attachments
  // must all be stored, each of its own kind.
  function LoadSeal(blobs: map<Id, Blob>, id: Id): Option<Seal> {
    if id !in blobs || !blobs[id].SealBlob? then None
    else
      var seal := blobs[id];
      if seal.material !in blobs || !blobs[seal.material].MaterialBlob? then None
      else if seal.provenance !in blobs || !blobs[seal.provenance].ProvenanceBlob? then None
      else
        var m, p := blobs[seal.material], blobs[seal.provenance];
        if m.content !in blobs || !AllStored(blobs, m.attachments) then None
        else Some(Seal(m.content, m.attachments, p.root, p.draft, p.links))
  }

  // Everything LoadSeal accepts: what the graph is built from.
  function Loadable(blobs: map<Id, Blob>): map<Id, Seal> {
    map id | id in blobs && LoadSeal(blobs, id).Some? :: LoadSeal(blobs, id).value
  }

  function MaterialOf(c: Candidate): Blob {
    MaterialBlob(c.content, c.attachments)
  }

  function ProvenanceOf(c: Candidate): Blob {
    ProvenanceBlob(c.root, c.draft, c.links)
  }

  function SealOf(name: Naming, c: Candidate): Blob {
    SealBlob(name(MaterialOf(c)), name(ProvenanceOf(c)))
  }

  // The Seal a Candidate would publish, before any of it is written.
  function ProspectiveId(name: Naming, c: Candidate): Id {
    name(SealOf(name, c))
  }

  function ProspectiveSeal(c: Candidate): Seal {
    Seal(c.content, c.attachments, c.root, c.draft, c.links)
  }

  // ------------------------------------------------------------- journal

  datatype JournalState = PREPARED | COMMITTED
  datatype OperationKind = SealKind | TagKind | MoveKind | DropKind
  datatype Transition = Transition(ref: Name, before: Option<Manifest>, after: Option<Manifest>)
  datatype JournalRecord = JournalRecord(state: JournalState, kind: OperationKind, transitions: seq<Transition>)

  predicate MoveShape(transitions: seq<Transition>) {
    && |transitions| == 2
    && ((Departs(transitions[0]) && Arrives(transitions[1])) || (Arrives(transitions[0]) && Departs(transitions[1])))
  }

  predicate Departs(t: Transition) {
    t.before.Some? && t.after.None?
  }

  predicate Arrives(t: Transition) {
    t.before.None? && t.after.Some?
  }

  // validateRecord and validateKindShape.
  predicate ValidRecord(r: JournalRecord) {
    && 1 <= |r.transitions| <= 2
    && (forall i :: 0 <= i < |r.transitions| ==> r.transitions[i].before != r.transitions[i].after)
    && (|r.transitions| == 2 ==> StringLess(r.transitions[0].ref, r.transitions[1].ref))
    && match r.kind
       case SealKind => |r.transitions| == 1 && r.transitions[0].after.Some?
       case TagKind => |r.transitions| == 1 && r.transitions[0].before.Some? && r.transitions[0].after.Some?
       case DropKind => |r.transitions| == 1 && Departs(r.transitions[0])
       case MoveKind => MoveShape(r.transitions)
  }

  // --------------------------------------------------------------- state

  datatype Phase =
    | Idle
    | SealAdmitted(cand: Candidate, observed: Refs, written: nat)
    | SealPrepared(cand: Candidate, op: nat)
    | SealPublished(cand: Candidate, op: nat)
    | SealCommitted(cand: Candidate)
    | TagPrepared(ref: Name, tag: string, target: Id, head: Id, op: nat)
    | MovePrepared(source: Name, destination: Name, op: nat)
    | DropPrepared(ref: Name, dropped: Manifest, op: nat)
    | Applied(op: nat)

  // phase is where the command holding the writer guard stands; a crash drops it.
  datatype State = State(blobs: map<Id, Blob>, refs: Refs, journal: map<nat, JournalRecord>,
                         candidates: map<Name, Candidate>, sources: set<Name>, phase: Phase)

  function HeadIds(refs: Refs): set<Id> {
    set r | r in refs :: refs[r].head
  }

  function HeadOf(refs: Refs, ref: Name): Option<Id> {
    if ref in refs then Some(refs[ref].head) else None
  }

  function Put(refs: Refs, ref: Name, m: Option<Manifest>): Refs {
    if m.Some? then refs[ref := m.value] else refs - {ref}
  }

  // What Update writes: the head moves, the tags stay.
  function Advanced(refs: Refs, ref: Name, head: Id): Manifest {
    Manifest(head, if ref in refs then refs[ref].tags else map[])
  }

  // -------------------------------------------------- authoring and crashes

  // Any edit of Candidates and source bindings, with any objects written for it.
  ghost predicate Edit(name: Naming, s: State, s': State) {
    && s.phase == Idle && s'.phase == Idle && s'.refs == s.refs && s'.journal == s.journal
    && s.blobs.Keys <= s'.blobs.Keys && (forall id: Id :: id in s.blobs ==> s'.blobs[id] == s.blobs[id])
    && Addressed(name, s'.blobs)
  }

  // The process dies, or the command gives up, between two atomic writes.
  ghost predicate Crash(s: State, s': State) {
    s' == s.(phase := Idle)
  }

  // ---------------------------------------------------------------- seal

  // Everything validateSealCandidate checks that later steps rely on. Building the
  // prospective graph succeeds exactly when GraphOk holds (ObservedGraph.Graph.Build).
  ghost predicate Admissible(name: Naming, s: State, c: Candidate) {
    var id := ProspectiveId(name, c);
    && c.expected != Some(id)
    && c.expected == HeadOf(s.refs, c.ref)
    && c.content in s.blobs && AllStored(s.blobs, c.attachments)
    && GraphOk(Loadable(s.blobs)[id := ProspectiveSeal(c)], HeadIds(s.refs[c.ref := Advanced(s.refs, c.ref, id)]))
  }

  ghost predicate SealAdmit(name: Naming, s: State, s': State, ref: Name) {
    && s.phase == Idle && ref in s.candidates && s.candidates[ref].ref == ref
    && Admissible(name, s, s.candidates[ref])
    && s' == s.(phase := SealAdmitted(s.candidates[ref], s.refs, 0))
  }

  // Material, then Provenance, then the Seal itself.
  function PartOf(name: Naming, c: Candidate, k: nat): Blob
    requires k < 3
  {
    if k == 0 then MaterialOf(c) else if k == 1 then ProvenanceOf(c) else SealOf(name, c)
  }

  ghost predicate SealWrite(name: Naming, s: State, s': State) {
    && s.phase.SealAdmitted? && s.phase.written < 3
    && var b := PartOf(name, s.phase.cand, s.phase.written);
       s' == s.(blobs := s.blobs[name(b) := b], phase := s.phase.(written := s.phase.written + 1))
  }

  function SealRecord(name: Naming, refs: Refs, c: Candidate): JournalRecord {
    JournalRecord(PREPARED, SealKind,
                  [Transition(c.ref, At(refs, c.ref), Some(Advanced(refs, c.ref, ProspectiveId(name, c))))])
  }

  ghost predicate SealPrepare(name: Naming, s: State, s': State, op: nat) {
    && s.phase.SealAdmitted? && s.phase.written == 3
    && s.refs == s.phase.observed && s.phase.cand.expected == HeadOf(s.refs, s.phase.cand.ref)
    && op !in s.journal && ValidRecord(SealRecord(name, s.refs, s.phase.cand))
    && s' == s.(journal := s.journal[op := SealRecord(name, s.refs, s.phase.cand)],
         phase := SealPrepared(s.phase.cand, op))
  }

  ghost predicate SealUpdate(name: Naming, s: State, s': State) {
    && s.phase.SealPrepared? && s.phase.cand.expected == HeadOf(s.refs, s.phase.cand.ref)
    && var c := s.phase.cand;
       s' == s.(refs := s.refs[c.ref := Advanced(s.refs, c.ref, ProspectiveId(name, c))],
           phase := SealPublished(c, s.phase.op))
  }

  ghost predicate SealCommit(name: Naming, s: State, s': State) {
    && s.phase.SealPublished? && LoadSeal(s.blobs, ProspectiveId(name, s.phase.cand)).Some?
    && Commits(s, s', s.phase.op, SealCommitted(s.phase.cand))
  }

  ghost predicate SealFinish(s: State, s': State) {
    && s.phase.SealCommitted?
    && s' == s.(candidates := s.candidates - {s.phase.cand.ref}, phase := Idle)
  }

  // Store.Commit: the record must still be PREPARED; only its state changes.
  ghost predicate Commits(s: State, s': State, op: nat, next: Phase) {
    && op in s.journal && s.journal[op].state == PREPARED
    && s' == s.(journal := s.journal[op := s.journal[op].(state := COMMITTED)], phase := next)
  }

  // ----------------------------------------------------------------- tag

  function Tagged(m: Manifest, tag: string, target: Id): Manifest {
    m.(tags := m.tags[tag := target])
  }

  function TagRecord(ref: Name, m: Manifest, tag: string, target: Id): JournalRecord {
    JournalRecord(PREPARED, TagKind, [Transition(ref, Some(m), Some(Tagged(m, tag, target)))])
  }

  ghost predicate TagPrepare(s: State, s': State, ref: Name, tag: string, target: Id, op: nat) {
    && s.phase == Idle && ref in s.refs && LoadSeal(s.blobs, target).Some?
    && tag !in s.refs[ref].tags && op !in s.journal
    && var m := s.refs[ref];
       s' == s.(journal := s.journal[op := TagRecord(ref, m, tag, target)],
                phase := TagPrepared(ref, tag, target, m.head, op))
  }

  ghost predicate TagPublish(s: State, s': State) {
    && s.phase.TagPrepared? && s.phase.ref in s.refs && s.refs[s.phase.ref].head == s.phase.head
    && s.phase.tag !in s.refs[s.phase.ref].tags
    && s' == s.(refs := s.refs[s.phase.ref := Tagged(s.refs[s.phase.ref], s.phase.tag, s.phase.target)],
         phase := Applied(s.phase.op))
  }

  // ------------------------------------------------------------ mv and drop

  predicate Free(s: State, ref: Name) {
    ref !in s.candidates && ref !in s.sources
  }

  function MoveRecord(source: Name, destination: Name, m: Manifest): JournalRecord {
    var gone, come := Transition(source, Some(m), None), Transition(destination, None, Some(m));
    JournalRecord(PREPARED, MoveKind, if StringLess(source, destination) then [gone, come] else [come, gone])
  }

  predicate TargetsLoad(blobs: map<Id, Blob>, m: Manifest) {
    LoadSeal(blobs, m.head).Some? && forall t | t in m.tags :: LoadSeal(blobs, m.tags[t]).Some?
  }

  ghost predicate MovePrepare(s: State, s': State, source: Name, destination: Name, op: nat) {
    && s.phase == Idle && source != destination && Free(s, source) && Free(s, destination)
    && source in s.refs && destination !in s.refs && TargetsLoad(s.blobs, s.refs[source]) && op !in s.journal
    && s' == s.(journal := s.journal[op := MoveRecord(source, destination, s.refs[source])],
                phase := MovePrepared(source, destination, op))
  }

  ghost predicate MovePublish(s: State, s': State) {
    && s.phase.MovePrepared? && s.phase.source in s.refs && s.phase.destination !in s.refs
         && s.phase.source != s.phase.destination
    && s' == s.(refs := Put(Put(s.refs, s.phase.source, None), s.phase.destination, Some(s.refs[s.phase.source])),
                phase := Applied(s.phase.op))
  }

  function DropRecord(ref: Name, m: Manifest): JournalRecord {
    JournalRecord(PREPARED, DropKind, [Transition(ref, Some(m), None)])
  }

  ghost predicate DropPrepare(s: State, s': State, ref: Name, op: nat) {
    && s.phase == Idle && Free(s, ref) && ref in s.refs && TargetsLoad(s.blobs, s.refs[ref]) && op !in s.journal
    && s' == s.(journal := s.journal[op := DropRecord(ref, s.refs[ref])],
                phase := DropPrepared(ref, s.refs[ref], op))
  }

  ghost predicate DropPublish(s: State, s': State) {
    && s.phase.DropPrepared? && At(s.refs, s.phase.ref) == Some(s.phase.dropped)
    && s' == s.(refs := s.refs - {s.phase.ref}, phase := Applied(s.phase.op))
  }

  ghost predicate Commit(s: State, s': State) {
    s.phase.Applied? && Commits(s, s', s.phase.op, Idle)
  }

  // --------------------------------------------------------------- steps

  datatype Label =
    | DoEdit | DoCrash
    | DoSealAdmit(ref: Name) | DoSealWrite | DoSealPrepare(op: nat) | DoSealUpdate | DoSealCommit | DoSealFinish
    | DoTagPrepare(ref: Name, tag: string, target: Id, op: nat) | DoTagPublish
    | DoMovePrepare(source: Name, destination: Name, op: nat) | DoMovePublish
    | DoDropPrepare(ref: Name, op: nat) | DoDropPublish
    | DoCommit

  // One atomic step of the publishing commands.
  ghost predicate Step(name: Naming, s: State, s': State, l: Label) {
    match l
    case DoEdit => Edit(name, s, s')
    case DoCrash => Crash(s, s')
    case DoSealAdmit(ref) => SealAdmit(name, s, s', ref)
    case DoSealWrite => SealWrite(name, s, s')
    case DoSealPrepare(op) => SealPrepare(name, s, s', op)
    case DoSealUpdate => SealUpdate(name, s, s')
    case DoSealCommit => SealCommit(name, s, s')
    case DoSealFinish => SealFinish(s, s')
    case DoTagPrepare(ref, tag, target, op) => TagPrepare(s, s', ref, tag, target, op)
    case DoTagPublish => TagPublish(s, s')
    case DoMovePrepare(source, destination, op) => MovePrepare(s, s', source, destination, op)
    case DoMovePublish => MovePublish(s, s')
    case DoDropPrepare(ref, op) => DropPrepare(s, s', ref, op)
    case DoDropPublish => DropPublish(s, s')
    case DoCommit => Commit(s, s')
  }

  ghost predicate Next(name: Naming, s: State, s': State) {
    exists l :: Step(name, s, s', l)
  }

  // A fresh repository.
  ghost predicate Init(s: State) {
    s.blobs == map[] && s.refs == map[] && s.journal == map[] && s.candidates == map[] && s.phase == Idle
  }

  ghost predicate Run(name: Naming, run: seq<State>) {
    run != [] && Init(run[0]) && forall i, j {:trigger Next(name, run[i], run[j])} ::
        0 <= i < j < |run| && j == i + 1 ==> Next(name, run[i], run[j])
  }
}
