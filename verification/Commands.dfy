/** The publishing and recovery commands as they change the repository, write by write. */
module Commands {
  import opened Ids
  import opened Walks
  import opened ObservedGraph
  import opened HeadSnapshot
  import opened Admission
  import opened RepositoryState
  import opened Publication
  import opened Recovery
  import opened StalePaths
  import opened Authoring
  import Review = HistoricalReview

  datatype CommandError =
    | Crashed
    | NoCandidate | SealUnchanged | HeadChanged | ContentMissing | GraphInvalid(why: BuildError)
    | NotAdmitted(cause: AdmissionError) | ReviewNotAllowed | ReviewMissing | ReviewRefused(reason: Review.ReviewError)
    | MovedMeanwhile | AddRefused(misuse: AddError) | Misshapen
    | NoSuchRef | TagConflict | TargetMissing | NamesEqual | InUse | DestinationExists
    | JournalRefused | NoSuchRecord | RecordUnreadable | NotRecoverable(status: Status)

  datatype HeadStatus = HeadStatus(head: Option<Id>, unsealed: bool, draft: bool, self: bool, direct: seq<Id>,
                                   transitive: seq<Path>)

  ghost predicate OthersKept(was: map<nat, JournalRecord>, now: map<nat, JournalRecord>, op: nat) {
    forall other: nat :: other != op ==> (other in now <==> other in was) && (other in now ==> now[other] == was[other])
  }

  // The journal tells how to get from the REFs as they were to the REFs as they are.
  ghost predicate Recorded(journal: map<nat, JournalRecord>, was: Refs, now: Refs, op: nat) {
    op in journal && Describes(journal[op], was, now)
  }

  // One REF has the Seal as its head; its tags are the ones it had, and no other REF changed.
  ghost predicate HeadMoved(was: Refs, now: Refs, ref: Name, id: Id) {
    && ref in now && now[ref].head == id && now[ref].tags == (if ref in was then was[ref].tags else map[])
    && forall other: Name :: other != ref ==>
         (other in now <==> other in was) && (other in was ==> now[other] == was[other])
  }

  // The record of that move: the manifest of the REF on either side.
  ghost predicate RecordsMove(r: JournalRecord, was: Refs, now: Refs, ref: Name) {
    && r.kind == SealKind && |r.transitions| == 1 && r.transitions[0].ref == ref && ref in now
    && r.transitions[0].before == (if ref in was then Some(was[ref]) else None)
    && r.transitions[0].after == Some(now[ref])
  }

  // The Seal, its Material and its Provenance are stored, each with what the Candidate says.
  ghost predicate StoredAs(blobs: map<Id, Blob>, id: Id, c: Candidate) {
    && id in blobs && blobs[id].SealBlob?
    && var material, provenance := blobs[id].material, blobs[id].provenance;
       && material in blobs && blobs[material] == MaterialBlob(c.content, c.attachments)
       && provenance in blobs && blobs[provenance] == ProvenanceBlob(c.root, c.draft, c.links)
  }

  lemma AfterSealMoves(name: Naming, refs: Refs, c: Candidate)
    ensures HeadMoved(refs, AfterSeal(name, refs, c), c.ref, ProspectiveId(name, c))
    ensures forall r: JournalRecord :: r.transitions == SealRecord(name, refs, c).transitions && r.kind == SealKind ==>
              RecordsMove(r, refs, AfterSeal(name, refs, c), c.ref)
  {
  }

  // One tag is new; the head, every other tag and every other REF are as before.
  ghost predicate TagAdded(was: Refs, now: Refs, ref: Name, tag: string, target: Id) {
    && ref in was && tag !in was[ref].tags && ref in now && now[ref].head == was[ref].head
    && tag in now[ref].tags && now[ref].tags[tag] == target
    && (forall other: string :: other != tag ==>
          (other in now[ref].tags <==> other in was[ref].tags)
          && (other in was[ref].tags ==> now[ref].tags[other] == was[ref].tags[other]))
    && forall other: Name :: other != ref ==>
         (other in now <==> other in was) && (other in was ==> now[other] == was[other])
  }

  lemma TaggedAdds(refs: Refs, ref: Name, tag: string, target: Id)
    requires ref in refs && tag !in refs[ref].tags
    ensures TagAdded(refs, refs[ref := Tagged(refs[ref], tag, target)], ref, tag, target)
  {
  }

  ghost predicate SealDone(name: Naming, was: State, now: State, c: Candidate, op: nat, id: Id) {
    && id == ProspectiveId(name, c) && now.refs == AfterSeal(name, was.refs, c)
    && HeadMoved(was.refs, now.refs, c.ref, id) && StoredAs(now.blobs, id, c)
    && now.candidates == was.candidates - {c.ref} && Extends(was.blobs, now.blobs) && Published(name, now.blobs, c)
    && op !in was.journal && op in now.journal
    && now.journal[op].state == COMMITTED && RecordsMove(now.journal[op], was.refs, now.refs, c.ref)
  }

  // The head moved, and the journal says how.
  ghost predicate MovedTo(name: Naming, was: State, now: State, c: Candidate, op: nat) {
    && HeadMoved(was.refs, now.refs, c.ref, ProspectiveId(name, c))
    && Recorded(now.journal, was.refs, now.refs, op) && RecordsMove(now.journal[op], was.refs, now.refs, c.ref)
  }

  // Why an admitted seal stops.
  ghost predicate StopReason(was: State, op: nat, meanwhile: Option<Refs>, writes: nat, e: CommandError) {
    || (e == Crashed && writes < 7) || (e == JournalRefused && op in was.journal)
    || (e == MovedMeanwhile && meanwhile.Some? && meanwhile.value != was.refs)
  }

  // How the last part of a seal ends: the record is committed and the Candidate gone, or not.
  ghost predicate FinishedAs(name: Naming, was: State, now: State, before: Refs, c: Candidate, op: nat,
          res: Result<Id, CommandError>)
  {
    match res
    case Success(id) =>
      && id == ProspectiveId(name, c) && now.candidates == was.candidates - {c.ref} && Published(name, now.blobs, c)
      && op in now.journal && now.journal[op].state == COMMITTED
    case Failure(e) =>
      now.candidates == was.candidates && (e == Crashed || (e == TargetMissing && !Published(name, was.blobs, c)))
  }

  // How an admitted seal ends, wherever it stops.
  ghost predicate SealOutcome(name: Naming, was: State, now: State, c: Candidate, op: nat, meanwhile: Option<Refs>,
          writes: nat, res: Result<Id, CommandError>) {
    && (res.Success? ==> SealDone(name, was, now, c, op, res.value))
    && (res.Failure? ==> now.candidates == was.candidates && StopReason(was, op, meanwhile, writes, res.error))
    && (now.refs == was.refs || Some(now.refs) == meanwhile || MovedTo(name, was, now, c, op))
    && OthersKept(was.journal, now.journal, op) && Extends(was.blobs, now.blobs)
  }

  // A seal that stops before the head moves.
  lemma StoppedOutcome(name: Naming, was: State, now: State, c: Candidate, op: nat, meanwhile: Option<Refs>,
          writes: nat, e: CommandError)
    requires now.candidates == was.candidates && Extends(was.blobs, now.blobs)
    requires now.refs == was.refs || Some(now.refs) == meanwhile
    requires OthersKept(was.journal, now.journal, op) && StopReason(was, op, meanwhile, writes, e)
    ensures SealOutcome(name, was, now, c, op, meanwhile, writes, Failure(e))
  {
  }

  // The last part of a seal ends the whole of it.
  lemma FinishedOutcome(name: Naming, was: State, mid: State, now: State, c: Candidate, op: nat,
          meanwhile: Option<Refs>, writes: nat, res: Result<Id, CommandError>)
    requires FinishedAs(name, mid, now, was.refs, c, op, res) && Published(name, mid.blobs, c)
    requires Extends(was.blobs, mid.blobs) && now.blobs == mid.blobs && mid.candidates == was.candidates
    requires now.refs == AfterSeal(name, was.refs, c) && op !in was.journal
    requires Recorded(now.journal, was.refs, now.refs, op) && RecordsMove(now.journal[op], was.refs, now.refs, c.ref)
    requires OthersKept(was.journal, now.journal, op) && (res == Failure(Crashed) ==> writes < 7)
    ensures SealOutcome(name, was, now, c, op, meanwhile, writes, res)
  {
    AfterSealMoves(name, was.refs, c);
  }

  // A graph freshly built over the current heads.
  ghost predicate Observes(g: Graph, blobs: map<Id, Blob>, refs: Refs)
    reads g
  {
    g.Valid() && g.heads == Heads(refs) && g.Closed(Loadable(blobs), HeadIds(refs))
  }

  // The manifests changed with the record in the journal, committed or not yet, or not at all.
  ghost predicate WrittenOrNot(was: Refs, now: State, record: JournalRecord, op: nat, refs': Refs,
          err: Option<CommandError>) {
    && (now.refs == was || (now.refs == refs' && op in now.journal && now.journal[op].(state := PREPARED) == record))
    && (err.None? ==> now.refs == refs')
  }

  // Between two atomic writes the process may die: budget counts the writes it still gets.
  class Repository {
    const name: Naming
    const decode: string -> Option<Review.Record>     // reads a review record
    var blobs: map<Id, Blob>
    var refs: Refs
    var journal: map<nat, JournalRecord>
    var candidates: map<Name, Candidate>
    var sources: set<Name>
    var budget: nat
    ghost var phase: Phase
    ghost var trace: seq<State>
    // Another program changed the manifests, or a recovery brought back a head that does not fit.
    ghost var strayed: bool

    ghost function Now(): State
      reads this
    {
      State(blobs, refs, journal, candidates, sources, phase)
    }

    // With a record entered and a command in the given phase.
    ghost function Entered(record: JournalRecord, op: nat, next: Phase): State
      reads this
    {
      Now().(journal := journal[op := record], phase := next)
    }

    // All it has gone through is a run of the step relation.
    ghost predicate Valid()
      reads this
    {
      && Injective(name) && AnyRun(name, trace) && trace[|trace| - 1] == Now()
      && (!strayed ==> FittingRun(name, trace))
    }

    ghost predicate Ready()
      reads this
    {
      Valid() && phase == Idle
    }

    constructor (name: Naming, decode: string -> Option<Review.Record>, budget: nat)
      requires Injective(name)
      ensures Ready() && !strayed && this.name == name && this.decode == decode && this.budget == budget
    {
      this.name, this.decode := name, decode;
      blobs, refs, journal, candidates, sources := map[], map[], map[], map[], {};
      this.budget := budget;
      phase, strayed := Idle, false;
      trace := [State(map[], map[], map[], map[], {}, Idle)];
    }

    // What a reader of the current heads can rely on.
    lemma Reading()
      requires Valid()
      ensures !strayed ==> Safe(name, Now())
      ensures Logged(name, Now()) && Addressed(name, blobs)
    {
      LoggedRun(name, trace, |trace| - 1);
      AddressedRun(name, trace, |trace| - 1);
      if !strayed {
        FittingRunSafe(name, trace, |trace| - 1);
      }
    }

    // The run goes on from was, where it stood, to s, where the repository stands now.
    ghost method Took(was: State, s: State, l: Label)
      requires Injective(name) && AnyRun(name, trace) && (!strayed ==> FittingRun(name, trace))
      requires trace[|trace| - 1] == was && Now() == s && Step(name, was, s, l)
      modifies this`trace
      ensures Valid()
    {
      assert Next(name, was, s);
      AnyRunNext(name, trace, s);
      if !strayed {
        FittingRunNext(name, trace, s);
      }
      trace := trace + [s];
    }

    // Another program rewrites the manifests.
    method Disturb(others: Refs)
      requires Valid() && (phase == Idle || phase.SealAdmitted?)
      modifies this`refs, this`trace, this`strayed
      ensures Valid() && refs == others && strayed
    {
      refs, strayed := others, true;
      assert Foreign(trace[|trace| - 1], Now());
      AnyRunNext(name, trace, Now());
      trace := trace + [Now()];
    }

    // The command stops here: it dies, or reports an error.
    method GiveUp()
      requires Valid()
      modifies this`phase, this`trace
      ensures Ready() && Now() == old(Now()).(phase := Idle)
    {
      ghost var was := Now();
      phase := Idle;
      Took(was, was.(phase := Idle), DoCrash);
    }

    // ------------------------------------------------------ the atomic writes

    // Store.Prepare: a new PREPARED record under an identifier not used before.
    method Prepare(record: JournalRecord, op: nat, ghost next: Phase, ghost l: Label)
        returns (err: Option<CommandError>)
      requires Valid() && record.state == PREPARED
      requires op !in journal && ValidRecord(record) ==>
                Step(name, Now(), Now().(journal := journal[op := record], phase := next), l)
      modifies this`journal, this`budget, this`phase, this`trace
      ensures Valid()
      ensures err.None? <==> op !in old(journal) && ValidRecord(record) && old(budget) > 0
      ensures err.None? ==> Now() == old(Now()).(journal := old(journal)[op := record], phase := next)
      ensures err.None? ==> budget == old(budget) - 1
      ensures err.Some? ==> Now() == old(Now()).(phase := Idle)
      ensures err.Some? ==> err.value == if op in old(journal) || !ValidRecord(record) then JournalRefused else Crashed
    {
      if op in journal || !ValidRecord(record) {
        GiveUp();
        return Some(JournalRefused);
      }
      if budget == 0 {
        GiveUp();
        return Some(Crashed);
      }
      ghost var was := Now();
      budget := budget - 1;
      journal := journal[op := record];
      phase := next;
      Took(was, was.(journal := was.journal[op := record], phase := next), l);
      err := None;
    }

    // One manifest write; the writer guard is held, so what was checked still holds.
    method Publish(refs': Refs, ghost next: Phase, ghost l: Label) returns (alive: bool)
      requires Valid() && Step(name, Now(), Now().(refs := refs', phase := next), l)
      modifies this`refs, this`budget, this`phase, this`trace
      ensures Valid() && (alive <==> old(budget) > 0)
      ensures alive ==> Now() == old(Now()).(refs := refs', phase := next) && budget == old(budget) - 1
      ensures !alive ==> Now() == old(Now()).(phase := Idle)
    {
      if budget == 0 {
        GiveUp();
        return false;
      }
      ghost var was := Now();
      budget := budget - 1;
      refs := refs';
      phase := next;
      Took(was, was.(refs := refs', phase := next), l);
      alive := true;
    }

    // Store.Commit: only the record that was prepared, unchanged and still PREPARED, becomes COMMITTED.
    method Commit(prepared: JournalRecord, op: nat, ghost next: Phase, ghost l: Label)
        returns (err: Option<CommandError>)
      requires Valid()
      requires prepared.state == PREPARED && op in journal && journal[op] == prepared ==>
                 Step(name, Now(), Now().(journal := journal[op := prepared.(state := COMMITTED)], phase := next), l)
      modifies this`journal, this`budget, this`phase, this`trace
      ensures Valid()
      ensures err == if prepared.state != PREPARED || op !in old(journal) || old(journal)[op] != prepared then
                       Some(JournalRefused)
                     else if old(budget) == 0 then Some(Crashed) else None
      ensures err.None? ==> budget == old(budget) - 1
      ensures err.None? ==>
                Now() == old(Now()).(journal := old(journal)[op := prepared.(state := COMMITTED)], phase := next)
      ensures err.Some? ==> Now() == old(Now()).(phase := Idle)
    {
      if prepared.state != PREPARED || op !in journal || journal[op] != prepared {
        GiveUp();
        return Some(JournalRefused);
      }
      if budget == 0 {
        GiveUp();
        return Some(Crashed);
      }
      ghost var was := Now();
      budget := budget - 1;
      journal := journal[op := prepared.(state := COMMITTED)];
      phase := next;
      Took(was, was.(journal := was.journal[op := prepared.(state := COMMITTED)], phase := next), l);
      err := None;
    }

    // The shape of tag, mv and drop: record the intent, write the manifests, commit.
    method Journalled(record: JournalRecord, op: nat, refs': Refs, ghost entered: State, ghost enter: Label,
            ghost apply: Label)
        returns (err: Option<CommandError>)
      requires Ready() && record.state == PREPARED
      requires entered == Now().(journal := journal[op := record], phase := entered.phase)
      requires op !in journal && ValidRecord(record) ==> Step(name, Now(), entered, enter)
      requires Step(name, entered, entered.(refs := refs', phase := Applied(op)), apply)
      modifies this`refs, this`journal, this`budget, this`phase, this`trace
      ensures Ready() && WrittenOrNot(old(refs), Now(), record, op, refs', err) && OthersKept(old(journal), journal, op)
      ensures err.None? ==> journal == old(journal)[op := record.(state := COMMITTED)]
      ensures err == if op in old(journal) || !ValidRecord(record) then Some(JournalRefused)
                     else if old(budget) < 3 then Some(Crashed) else None
    {
      EnterThenCommit(journal, op, record);
      err := Prepare(record, op, entered.phase, enter);
      if err.None? {
        err := PublishAndCommit(record, refs', op, apply);
      }
    }

    method PublishAndCommit(record: JournalRecord, refs': Refs, op: nat, ghost apply: Label)
        returns (err: Option<CommandError>)
      requires Valid() && op in journal && journal[op] == record && record.state == PREPARED
      requires Step(name, Now(), Now().(refs := refs', phase := Applied(op)), apply)
      modifies this`refs, this`journal, this`budget, this`phase, this`trace
      ensures Ready() && WrittenOrNot(old(refs), Now(), record, op, refs', err) && OthersKept(old(journal), journal, op)
      ensures err.None? ==> journal == old(journal)[op := record.(state := COMMITTED)]
      ensures err == if old(budget) >= 2 then None else Some(Crashed)
    {
      var alive := Publish(refs', Applied(op), apply);
      if !alive {
        return Some(Crashed);
      }
      err := Commit(record, op, Idle, DoCommit);
    }

    // writeCandidateSealBlobs: Material, Provenance, Seal, in that order.
    method WriteParts(c: Candidate) returns (alive: bool)
      requires Valid() && phase == SealAdmitted(c, refs, 0)
      requires c.content in blobs && AllStored(blobs, c.attachments)
      modifies this`blobs, this`budget, this`phase, this`trace
      ensures Valid() && (alive <==> old(budget) >= 3)
      ensures alive ==> phase == SealAdmitted(c, refs, 3) && Published(name, blobs, c) && budget == old(budget) - 3
      ensures Extends(old(blobs), blobs)
      ensures !alive ==> phase == Idle
    {
      var k := 0;
      while k < 3
        invariant 0 <= k <= 3 && Valid() && phase == SealAdmitted(c, refs, k) && budget == old(budget) - k
        invariant c.content in blobs && AllStored(blobs, c.attachments) && PartsStored(name, blobs, c, k)
        invariant Extends(old(blobs), blobs)
      {
        alive := WritePart(c, k);
        if !alive {
          return;
        }
        k := k + 1;
      }
      PartsLoad(name, blobs, c);
      alive := true;
    }

    method WritePart(c: Candidate, k: nat) returns (alive: bool)
      requires Valid() && k < 3 && phase == SealAdmitted(c, refs, k) && PartsStored(name, blobs, c, k)
      modifies this`blobs, this`budget, this`phase, this`trace
      ensures Valid() && (alive <==> old(budget) > 0)
      ensures alive ==> phase == SealAdmitted(c, refs, k + 1) && budget == old(budget) - 1
      ensures alive ==> Extends(old(blobs), blobs) && PartsStored(name, blobs, c, k + 1)
      ensures !alive ==> phase == Idle && blobs == old(blobs)
    {
      if budget == 0 {
        GiveUp();
        return false;
      }
      Reading();
      var b := PartOf(name, c, k);
      WriteExtends(name, blobs, b);
      PartStored(name, blobs, c, k);
      ghost var was := Now();
      budget := budget - 1;
      blobs := blobs[name(b) := b];
      phase := SealAdmitted(c, refs, k + 1);
      Took(was, Now(), DoSealWrite);
      alive := true;
    }

    // ---------------------------------------------------------------- commands

    ghost predicate GraphAdmissible(blobs: map<Id, Blob>, refs: Refs, c: Candidate) {
      GraphOk(Loadable(blobs)[ProspectiveId(name, c) := ProspectiveSeal(c)], HeadIds(AfterSeal(name, refs, c)))
    }

    // --------------------------------------------------------------- authoring

    // buildObservation on the heads as they are.
    method ObserveNow() returns (err: Option<CommandError>, g: Graph)
      requires Valid()
      ensures fresh(g)
      ensures err.None? <==> HeadsOk(blobs, refs)
      ensures err.None? ==> Observes(g, blobs, refs) && g.stalePaths == map[]
      ensures err.Some? ==> err.value.GraphInvalid? && g.heads == Heads(refs)
      ensures err.Some? ==> g.Explains(Loadable(blobs), err.value.why)
    {
      HeadsAreIds(refs);
      var stored := Loadable(blobs);
      assert stored + map[] == stored;
      g := new Graph(Heads(refs));
      var built := g.Build(stored, map[], stored);
      err := if built.Some? then Some(GraphInvalid(built.value)) else None;
    }

    // One object is written, outside any publication.
    method WriteObject(b: Blob) returns (alive: bool)
      requires Ready()
      modifies this`blobs, this`budget, this`trace
      ensures Ready() && (alive <==> old(budget) > 0)
      ensures alive ==> blobs == old(blobs)[name(b) := b] && Extends(old(blobs), blobs) && budget == old(budget) - 1
      ensures !alive ==> blobs == old(blobs)
    {
      if budget == 0 {
        return false;
      }
      Reading();
      WriteExtends(name, blobs, b);
      ghost var was := Now();
      budget := budget - 1;
      blobs := blobs[name(b) := b];
      Took(was, Now(), DoEdit);
      alive := true;
    }

    // SaveIfUnchanged; the writer guard is held.
    method SaveCandidate(c: Candidate) returns (alive: bool)
      requires Ready()
      modifies this`candidates, this`budget, this`trace
      ensures Ready() && (alive <==> old(budget) > 0)
      ensures candidates == if alive then old(candidates)[c.ref := c] else old(candidates)
    {
      if budget == 0 {
        return false;
      }
      Reading();
      ghost var was := Now();
      budget := budget - 1;
      candidates := candidates[c.ref := c];
      Took(was, Now(), DoEdit);
      alive := true;
    }

    // What an add leaves: its Candidate, judged by the graph with its Seal in place.
    ghost predicate Added(was: State, ref: Name, o: AddOptions, c: Candidate)
      reads this
    {
      && candidates == was.candidates[c.ref := c] && Extends(was.blobs, blobs)
      && Edited(BaseCandidate(was.blobs, was.refs, was.candidates, ref), o, name(Raw(o.content)), c)
      && Stored(name, blobs, Raw(o.content)) && RootShape(c) && GraphAdmissible(was.blobs, was.refs, c)
    }

    // Add, with the Cause already resolved.
    method Add(ref: Name, o: AddOptions) returns (res: Result<Candidate, CommandError>)
      requires Ready()
      modifies this`blobs, this`candidates, this`budget, this`trace
      ensures Ready() && Extends(old(blobs), blobs)
      ensures res.Success? ==> Added(old(Now()), ref, o, res.value) && HeadsOk(old(blobs), refs)
      ensures res.Failure? ==> candidates == old(candidates)
      ensures res.Failure? ==> AddStops(old(Now()), ref, o, res.error) || (res.error == Crashed && old(budget) < 2)
    {
      res := EditCandidate(ref, o);
      if res.Success? {
        res := SaveAdded(res.value, o.content);
      }
    }

    // Why nothing was written.
    ghost predicate AddStops(was: State, ref: Name, o: AddOptions, e: CommandError) {
      match e
      case GraphInvalid(why) =>
        || !HeadsOk(was.blobs, was.refs)
        || exists c :: AddGives(was, ref, o, c) && !GraphAdmissible(was.blobs, was.refs, c)
      case AddRefused(misuse) =>
        AddRefusal(BaseCandidate(was.blobs, was.refs, was.candidates, ref), IsInitial(was.refs, was.candidates, ref), o)
        == Some(misuse)
      case Misshapen => exists c :: AddGives(was, ref, o, c) && !RootShape(c)
      case _ => false
    }

    // Everything before the writes.
    method EditCandidate(ref: Name, o: AddOptions) returns (res: Result<Candidate, CommandError>)
      requires Valid()
      ensures res.Success? ==> AddGives(Now(), ref, o, res.value) && RootShape(res.value)
      ensures res.Success? ==> GraphAdmissible(blobs, refs, res.value) && HeadsOk(blobs, refs)
      ensures res.Failure? ==> AddStops(Now(), ref, o, res.error)
    {
      var err, g := ObserveNow();
      if err.Some? {
        return Failure(err.value);
      }
      var base := BaseCandidate(blobs, refs, candidates, ref);
      var edited := ApplyAddOptions(base, IsInitial(refs, candidates, ref), o, name(Raw(o.content)));
      if edited.Failure? {
        return Failure(AddRefused(edited.error));
      }
      var c := edited.value;
      assert AddGives(Now(), ref, o, c);
      if c.root != (c.links == []) {
        return Failure(Misshapen);
      }
      err, g := BuildProspective(c, ProspectiveId(name, c));
      res := if err.Some? then Failure(err.value) else Success(c);
    }

    ghost predicate AddGives(was: State, ref: Name, o: AddOptions, c: Candidate) {
      Edited(BaseCandidate(was.blobs, was.refs, was.candidates, ref), o, name(Raw(o.content)), c)
    }

    // The content first, then the Candidate that names it.
    method SaveAdded(c: Candidate, content: string) returns (res: Result<Candidate, CommandError>)
      requires Ready()
      modifies this`blobs, this`candidates, this`budget, this`trace
      ensures Ready() && Extends(old(blobs), blobs)
      ensures res == if old(budget) < 2 then Failure(Crashed) else Success(c)
      ensures res.Success? ==> candidates == old(candidates)[c.ref := c] && Stored(name, blobs, Raw(content))
      ensures res.Failure? ==> candidates == old(candidates)
    {
      var alive := WriteObject(Raw(content));
      if alive {
        alive := SaveCandidate(c);
      }
      res := if alive then Success(c) else Failure(Crashed);
    }

    // ------------------------------------------------------------ judging a Candidate

    // Every refusal has its reason in the state before the command: the checks before the graph
    // come first, then those on the graph, then what stops the writes.
    ghost predicate Justified(was: State, ref: Name, op: nat, reviewed: bool, meanwhile: Option<Refs>, writes: nat,
            g: Graph?, rg: Graph?, e: CommandError)
      reads g, rg
    {
      if EarlyRefusal(was, ref).Some? then EarlyRefusal(was, ref) == Some(e)
      else
        || GraphRefusal(was, was.candidates[ref], reviewed, g, rg, e)
        || StopReason(was, op, meanwhile, writes, e)
    }

    // The checks on the Candidate itself, in this order.
    function EarlyRefusal(was: State, ref: Name): (e: Option<CommandError>)
      ensures e.None? ==> ref in was.candidates && was.candidates[ref].ref == ref
    {
      if ref !in was.candidates || was.candidates[ref].ref != ref then Some(NoCandidate)
      else
        var c := was.candidates[ref];
        if c.expected == Some(ProspectiveId(name, c)) then Some(SealUnchanged)
        else if c.expected != HeadOf(was.refs, ref) then Some(HeadChanged)
        else if c.content !in was.blobs || !AllStored(was.blobs, c.attachments) then Some(ContentMissing)
        else None
    }

    // The graph with the Candidate in place does not build, for this reason.
    ghost predicate Unbuilt(g: Graph, blobs: map<Id, Blob>, refs: Refs, c: Candidate, why: BuildError)
      reads g
    {
      && !GraphAdmissible(blobs, refs, c) && g.heads == Heads(AfterSeal(name, refs, c))
      && g.Explains(Loadable(blobs)[ProspectiveId(name, c) := ProspectiveSeal(c)], why)
    }

    ghost predicate GraphRefusal(was: State, c: Candidate, reviewed: bool, g: Graph?, rg: Graph?, e: CommandError)
      reads g, rg
    {
      match e
      case GraphInvalid(why) =>
        || (g != null && Unbuilt(g, was.blobs, was.refs, c, why))
        || (reviewed && rg != null && Unbuilt(rg, was.blobs, was.refs, Subject(c), why))
      case NotAdmitted(cause) =>
        && !c.draft && !c.root && g != null && JudgedBy(name, g, was.blobs, was.refs, c)
        && Refuses(g, Elems(LinkTargets(c.links)), reviewed, cause)
      case ReviewNotAllowed => reviewed && (c.draft || c.root)
      case ReviewMissing => reviewed && RecordOf(was.blobs, c).None?
      case ReviewRefused(reason) => reviewed && rg != null && ReviewFails(was, c, rg, reason)
      case _ => false
    }

    // A Candidate that passed: unless draft or root, every Cause it reaches is fit.
    ghost predicate Passed(was: State, c: Candidate, reviewed: bool, g: Graph)
      reads g
    {
      && JudgedBy(name, g, was.blobs, was.refs, c)
      && (c.draft || c.root || AllFit(g, Elems(LinkTargets(c.links)), reviewed))
    }

    // ------------------------------------------------------- recorded reviews

    // What a review judges: the Candidate without its review records.
    function Subject(c: Candidate): Candidate {
      c.(attachments := Review.Kept(c.attachments))
    }

    // loadHistoricalReview: the first attachment of that name decides.
    function RecordOf(blobs: map<Id, Blob>, c: Candidate): Option<Review.Record> {
      RecordIn(blobs, c.attachments)
    }

    function RecordIn(blobs: map<Id, Blob>, attachments: seq<Attachment>): Option<Review.Record> {
      if attachments == [] then None
      else if attachments[0].name != Review.ATTACHMENT_NAME then RecordIn(blobs, attachments[1..])
      else if attachments[0].mediaType != Review.MEDIA_TYPE || attachments[0].blob !in blobs then None
      else if !blobs[attachments[0].blob].Raw? then None
      else decode(blobs[attachments[0].blob].data)
    }

    ghost predicate FirstReview(attachments: seq<Attachment>, k: nat) {
      && k < |attachments| && attachments[k].name == Review.ATTACHMENT_NAME
      && forall i :: 0 <= i < k ==> attachments[i].name != Review.ATTACHMENT_NAME
    }

    // The first attachment under the review's name decides: it must be a stored review that reads.
    lemma {:induction false} RecordExact(blobs: map<Id, Blob>, attachments: seq<Attachment>, r: Review.Record)
      ensures RecordIn(blobs, attachments) == Some(r) <==>
              exists k: nat :: FirstReview(attachments, k) && attachments[k].mediaType == Review.MEDIA_TYPE
                && attachments[k].blob in blobs && blobs[attachments[k].blob].Raw?
                && decode(blobs[attachments[k].blob].data) == Some(r)
    {
      if attachments != [] && attachments[0].name != Review.ATTACHMENT_NAME {
        var rest := attachments[1..];
        RecordExact(blobs, rest, r);
        forall k: nat ensures FirstReview(rest, k) <==> FirstReview(attachments, k + 1) {
          assert k < |rest| ==> rest[k] == attachments[k + 1];
          assert forall i :: 0 <= i < k && i < |rest| ==> rest[i] == attachments[i + 1];
          assert k < |rest| ==> forall i :: 0 < i < k + 1 ==> attachments[i] == rest[i - 1];
        }
        forall k: nat | FirstReview(attachments, k) ensures k > 0 && FirstReview(rest, k - 1) {}
      } else if attachments != [] {
        assert FirstReview(attachments, 0);
        forall k: nat | FirstReview(attachments, k) ensures k == 0 {}
      }
    }

    // The facts of the moment about the Candidate, by the graph with its subject in place.
    ghost predicate FactsOf(was: State, c: Candidate, rg: Graph, facts: Review.Facts)
      reads rg
    {
      && JudgedBy(name, rg, was.blobs, was.refs, Subject(c))
      && facts.ref == c.ref && facts.subject == ProspectiveId(name, Subject(c))
      && facts.otherHeads == Heads(was.refs) - {c.ref}
      && Review.Covered(rg, c.links, facts.targets)
    }

    // The recorded review accounts for every Cause, as things stand.
    ghost predicate Reviewed(was: State, c: Candidate, rg: Graph)
      reads rg
    {
      && !c.draft && !c.root && RecordOf(was.blobs, c).Some?
      && exists facts :: FactsOf(was, c, rg, facts) && Review.Confirmed(RecordOf(was.blobs, c).value, facts)
    }

    ghost predicate ReviewFails(was: State, c: Candidate, rg: Graph, reason: Review.ReviewError)
      reads rg
    {
      && RecordOf(was.blobs, c).Some?
      && exists facts :: FactsOf(was, c, rg, facts) && !Review.Confirmed(RecordOf(was.blobs, c).value, facts)
                         && Review.Refused(RecordOf(was.blobs, c).value, facts, reason)
    }

    // historicalReviewFacts.
    method ReviewFacts(c: Candidate) returns (r: Result<Review.Facts, CommandError>, rg: Graph)
      requires Valid()
      ensures fresh(rg)
      ensures r.Success? ==> FactsOf(Now(), c, rg, r.value)
      ensures r.Failure? ==> r.error.GraphInvalid? && Unbuilt(rg, blobs, refs, Subject(c), r.error.why)
    {
      var subject := Review.WithoutReview(c);
      var err;
      err, rg := BuildProspective(subject, ProspectiveId(name, subject));
      if err.Some? {
        return Failure(err.value), rg;
      }
      var targets := Review.ReviewTargets(rg, c.links);
      r := Success(Review.Facts(c.ref, ProspectiveId(name, subject), Heads(refs) - {c.ref}, targets));
    }

    // validateRecordedHistoricalReview.
    method CheckReview(c: Candidate) returns (err: Option<CommandError>, rg: Graph?)
      requires Valid()
      ensures rg == null || fresh(rg)
      ensures err.None? ==> rg != null && Reviewed(Now(), c, rg)
      ensures err.Some? ==> GraphRefusal(Now(), c, true, null, rg, err.value)
      ensures err.Some? ==> !err.value.NotAdmitted?
    {
      rg := null;
      if c.draft || c.root {
        return Some(ReviewNotAllowed), rg;
      }
      var record := RecordOf(blobs, c);
      if record.None? {
        return Some(ReviewMissing), rg;
      }
      var facts;
      facts, rg := ReviewFacts(c);
      if facts.Failure? {
        return Some(facts.error), rg;
      }
      var refused := Review.ReviewAdmission(record.value, facts.value);
      err := if refused.Some? then Some(ReviewRefused(refused.value)) else None;
    }

    // --------------------------------------------------------------- admission

    // What an admitted Candidate was judged by: its graph and, when reviewed, the recorded review.
    ghost predicate AdmittedBy(was: State, c: Candidate, reviewed: bool, g: Graph?, rg: Graph?)
      reads g, rg
    {
      && g != null && Passed(was, c, reviewed, g)
      && (reviewed ==> rg != null && Reviewed(was, c, rg))
    }

    // validateSealCandidate: nothing is written unless all of it holds.
    method Judge(ref: Name, reviewed: bool) returns (res: Result<Candidate, CommandError>, g: Graph?, rg: Graph?)
      requires Valid()
      ensures (g == null || fresh(g)) && (rg == null || fresh(rg))
      ensures res.Success? ==> ref in candidates && candidates[ref] == res.value && res.value.ref == ref
      ensures res.Success? ==> AdmittedBy(Now(), res.value, reviewed, g, rg) && Admissible(name, Now(), res.value)
      ensures EarlyRefusal(Now(), ref).Some? ==> res == Failure(EarlyRefusal(Now(), ref).value)
      ensures res.Failure? && EarlyRefusal(Now(), ref).None? ==>
                GraphRefusal(Now(), candidates[ref], reviewed, g, rg, res.error)
    {
      g, rg := null, null;
      var err := CheckCandidate(ref);
      if err.Some? {
        return Failure(err.value), g, rg;
      }
      var c := candidates[ref];
      err, g, rg := ValidateGraph(c, reviewed);
      if err.Some? {
        return Failure(err.value), g, rg;
      }
      res := Success(c);
    }

    // The Candidate is admitted against the heads as they are.
    method EnterSeal(c: Candidate)
      requires Ready() && c.ref in candidates && candidates[c.ref] == c && Admissible(name, Now(), c)
      modifies this`phase, this`trace
      ensures Valid() && phase == SealAdmitted(c, refs, 0)
    {
      ghost var was := Now();
      phase := SealAdmitted(c, refs, 0);
      Took(was, Now(), DoSealAdmit(c.ref));
    }

    // The checks before the graph is built.
    method CheckCandidate(ref: Name) returns (err: Option<CommandError>)
      ensures err == EarlyRefusal(Now(), ref)
    {
      if ref !in candidates || candidates[ref].ref != ref {
        return Some(NoCandidate);
      }
      var c := candidates[ref];
      if c.expected == Some(ProspectiveId(name, c)) {
        return Some(SealUnchanged);
      }
      if c.expected != HeadOf(refs, c.ref) {
        return Some(HeadChanged);
      }
      if c.content !in blobs || !AllStored(blobs, c.attachments) {
        return Some(ContentMissing);
      }
      err := None;
    }

    // The graph of the heads with the Candidate's REF moved.
    method BuildProspective(c: Candidate, id: Id) returns (err: Option<CommandError>, g: Graph)
      requires Valid() && id == ProspectiveId(name, c)
      ensures fresh(g)
      ensures err.None? ==> JudgedBy(name, g, blobs, refs, c) && GraphAdmissible(blobs, refs, c)
      ensures err.Some? ==> err.value.GraphInvalid? && Unbuilt(g, blobs, refs, c, err.value.why)
    {
      var stored, prospective := Loadable(blobs), map[id := ProspectiveSeal(c)];
      ProspectiveHeads(name, refs, c);
      ProspectiveStore(stored, id, ProspectiveSeal(c));
      g := new Graph(Heads(refs)[c.ref := id]);
      var built := g.Build(stored, prospective, stored + prospective);
      err := if built.Some? then Some(GraphInvalid(built.value)) else None;
    }

    // validateProspectiveCandidate.
    method ValidateGraph(c: Candidate, reviewed: bool) returns (err: Option<CommandError>, g: Graph, rg: Graph?)
      requires Valid()
      ensures fresh(g) && (rg == null || fresh(rg))
      ensures err.None? ==> Passed(Now(), c, reviewed, g) && GraphAdmissible(blobs, refs, c)
      ensures err.None? && reviewed ==> rg != null && Reviewed(Now(), c, rg)
      ensures err.Some? ==> GraphRefusal(Now(), c, reviewed, g, rg, err.value)
    {
      rg := null;
      err, g := BuildProspective(c, ProspectiveId(name, c));
      if err.Some? {
        return;
      }
      if reviewed {
        err, rg := CheckReview(c);
        if err.Some? {
          return;
        }
      }
      if !c.draft && !c.root {
        var refused := AdmitCauses(g, c.links, reviewed);
        err := if refused.Some? then Some(NotAdmitted(refused.value)) else None;
      }
    }

    // seal. Wherever it stops, the REFs are untouched or moved as a whole, and a move
    // has its exact record in the journal; every refusal is justified. meanwhile is what
    // another program leaves in the manifests while the objects are written, if it does.
    method Seal(ref: Name, op: nat, reviewed: bool, meanwhile: Option<Refs>)
        returns (res: Result<Id, CommandError>, g: Graph?, rg: Graph?)
      requires Ready()
      modifies this`blobs, this`refs, this`journal, this`candidates, this`budget, this`phase, this`trace, this`strayed
      ensures Ready() && (meanwhile.None? ==> strayed == old(strayed))
      ensures res.Success? ==>
                && ref in old(candidates)
                && SealDone(name, old(Now()), Now(), old(candidates)[ref], op, res.value)
                && HeadMoved(old(refs), refs, ref, res.value)
      ensures res.Success? ==> AdmittedBy(old(Now()), old(candidates)[ref], reviewed, g, rg)
      ensures res.Failure? ==> candidates == old(candidates)
      ensures res.Failure? ==> Justified(old(Now()), ref, op, reviewed, meanwhile, old(budget), g, rg, res.error)
      ensures refs == old(refs) || Some(refs) == meanwhile
           || (ref in old(candidates) && MovedTo(name, old(Now()), Now(), old(candidates)[ref], op))
      ensures OthersKept(old(journal), journal, op) && Extends(old(blobs), blobs)
    {
      var admitted;
      admitted, g, rg := Judge(ref, reviewed);
      if admitted.Failure? {
        return Failure(admitted.error), g, rg;
      }
      res := CarryOut(admitted.value, op, meanwhile);
    }

    // The writes of an admitted Candidate: seven of them, unless the manifests moved meanwhile.
    method CarryOut(c: Candidate, op: nat, meanwhile: Option<Refs>) returns (res: Result<Id, CommandError>)
      requires Ready() && Admissible(name, Now(), c) && c.ref in candidates && candidates[c.ref] == c
      modifies this`blobs, this`refs, this`journal, this`candidates, this`budget, this`phase, this`trace, this`strayed
      ensures Ready() && (meanwhile.None? ==> strayed == old(strayed))
      ensures SealOutcome(name, old(Now()), Now(), c, op, meanwhile, old(budget), res)
    {
      ghost var was := Now();
      EnterSeal(c);
      var alive := WriteParts(c);
      if !alive {
        return Failure(Crashed);
      }
      res := PublishUnmoved(c, op, meanwhile, was);
    }

    // The heads must still be the ones the Candidate was judged by.
    method PublishUnmoved(c: Candidate, op: nat, meanwhile: Option<Refs>, ghost was: State)
        returns (res: Result<Id, CommandError>)
      requires Valid() && phase == SealAdmitted(c, refs, 3) && Published(name, blobs, c)
      requires c.expected == HeadOf(refs, c.ref) && c.expected != Some(ProspectiveId(name, c))
      requires c.ref in candidates && candidates[c.ref] == c
      requires was.refs == refs && was.journal == journal && was.candidates == candidates && Extends(was.blobs, blobs)
      modifies this`refs, this`journal, this`candidates, this`budget, this`phase, this`trace, this`strayed
      ensures Ready() && (meanwhile.None? ==> strayed == old(strayed))
      ensures SealOutcome(name, was, Now(), c, op, meanwhile, old(budget) + 3, res)
    {
      var same := Unmoved(meanwhile);
      if !same {
        StoppedOutcome(name, was, Now(), c, op, meanwhile, old(budget) + 3, MovedMeanwhile);
        return Failure(MovedMeanwhile);
      }
      res := PublishWritten(c, op, meanwhile, was);
    }

    // Another program may come in between; revalidateHeads then compares the manifests.
    method Unmoved(meanwhile: Option<Refs>) returns (same: bool)
      requires Valid() && phase.SealAdmitted?
      modifies this`refs, this`phase, this`trace, this`strayed
      ensures Valid() && phase == (if same then old(phase) else Idle)
      ensures refs == if meanwhile.Some? then meanwhile.value else old(refs)
      ensures same <==> refs == old(refs)
      ensures meanwhile.None? ==> strayed == old(strayed)
    {
      var observed := refs;
      if meanwhile.Some? {
        Disturb(meanwhile.value);
      }
      same := refs == observed;
      if !same {
        GiveUp();
      }
    }

    // With the objects written and the heads as they were observed.
    method PublishWritten(c: Candidate, op: nat, ghost meanwhile: Option<Refs>, ghost was: State)
        returns (res: Result<Id, CommandError>)
      requires Valid() && phase == SealAdmitted(c, refs, 3) && Published(name, blobs, c)
      requires c.expected == HeadOf(refs, c.ref) && c.expected != Some(ProspectiveId(name, c))
      requires c.ref in candidates && candidates[c.ref] == c
      requires was.refs == refs && was.journal == journal && was.candidates == candidates && Extends(was.blobs, blobs)
      modifies this`refs, this`journal, this`candidates, this`budget, this`phase, this`trace
      ensures Ready()
      ensures SealOutcome(name, was, Now(), c, op, meanwhile, old(budget) + 3, res)
    {
      SealRecordValid(name, refs, c);
      var err := Advance(c, op);
      if err.Some? {
        StoppedOutcome(name, was, Now(), c, op, meanwhile, old(budget) + 3, err.value);
        return Failure(err.value);
      }
      res := FinishPublished(c, op, meanwhile, was, old(budget) + 3);
    }

    // With the head moved and its record entered.
    method FinishPublished(c: Candidate, op: nat, ghost meanwhile: Option<Refs>, ghost was: State, ghost writes: nat)
        returns (res: Result<Id, CommandError>)
      requires Valid() && phase == SealPublished(c, op) && Published(name, blobs, c) && writes == budget + 5
      requires op !in was.journal && journal == was.journal[op := SealRecord(name, was.refs, c)]
      requires c.ref in candidates && refs == AfterSeal(name, was.refs, c)
      requires was.candidates == candidates && Extends(was.blobs, blobs)
      modifies this`journal, this`candidates, this`budget, this`phase, this`trace
      ensures Ready() && SealOutcome(name, was, Now(), c, op, meanwhile, writes, res)
    {
      ghost var mid := Now();
      res := FinishSeal(c, op, was.refs);
      FinishedOutcome(name, was, mid, Now(), c, op, meanwhile, writes, res);
    }

    // Record the transition, then compare-and-swap the head.
    method Advance(c: Candidate, op: nat) returns (err: Option<CommandError>)
      requires Valid() && phase == SealAdmitted(c, refs, 3) && c.expected == HeadOf(refs, c.ref)
      modifies this`refs, this`journal, this`budget, this`phase, this`trace
      ensures Valid()
      ensures refs == old(refs) || refs == AfterSeal(name, old(refs), c)
      ensures err.Some? ==> phase == Idle && refs == old(refs)
      ensures err.Some? ==> err.value == if op in old(journal) || !ValidRecord(SealRecord(name, old(refs), c)) then
                JournalRefused else Crashed
      ensures err == Some(Crashed) ==> old(budget) < 2
      ensures err.None? ==> budget == old(budget) - 2
      ensures err.None? ==>
                && phase == SealPublished(c, op) && refs == AfterSeal(name, old(refs), c)
                && op !in old(journal)
      ensures err.None? ==> journal == old(journal)[op := SealRecord(name, old(refs), c)]
      ensures journal == old(journal)
           || (op !in old(journal) && journal == old(journal)[op := SealRecord(name, old(refs), c)])
    {
      err := Prepare(SealRecord(name, refs, c), op, SealPrepared(c, op), DoSealPrepare(op));
      if err.Some? {
        return;
      }
      var alive := Publish(AfterSeal(name, refs, c), SealPublished(c, op), DoSealUpdate);
      err := if alive then None else Some(Crashed);
    }

    // Read the published Seal back, commit the record, remove the Candidate.
    method FinishSeal(c: Candidate, op: nat, ghost before: Refs) returns (res: Result<Id, CommandError>)
      requires Valid() && phase == SealPublished(c, op) && op in journal && journal[op] == SealRecord(name, before, c)
      requires c.ref in candidates && refs == AfterSeal(name, before, c)
      modifies this`journal, this`candidates, this`budget, this`phase, this`trace
      ensures Ready() && Recorded(journal, before, refs, op) && OthersKept(old(journal), journal, op)
      ensures RecordsMove(journal[op], before, refs, c.ref)
      ensures FinishedAs(name, old(Now()), Now(), before, c, op, res)
      ensures res == Failure(Crashed) ==> old(budget) < 2
    {
      var id := ProspectiveId(name, c);
      ghost var record := SealRecord(name, before, c);
      SealIntent(name, before, c);
      AfterSealMoves(name, before, c);
      if LoadSeal(blobs, id) != Some(ProspectiveSeal(c)) {
        GiveUp();
        return Failure(TargetMissing);
      }
      var alive := CommitAndRemove(c, op);
      StateAside(record, journal[op], before, refs);
      res := if alive then Success(id) else Failure(Crashed);
    }

    method CommitAndRemove(c: Candidate, op: nat) returns (alive: bool)
      requires Valid() && phase == SealPublished(c, op) && op in journal && journal[op].state == PREPARED
      requires LoadSeal(blobs, ProspectiveId(name, c)).Some?
      modifies this`journal, this`candidates, this`budget, this`phase, this`trace
      ensures Ready() && (alive <==> old(budget) >= 2)
      ensures journal == old(journal) || journal == old(journal)[op := old(journal)[op].(state := COMMITTED)]
      ensures alive ==> journal == old(journal)[op := old(journal)[op].(state := COMMITTED)]
      ensures candidates == if alive then old(candidates) - {c.ref} else old(candidates)
    {
      var err := Commit(journal[op], op, SealCommitted(c), DoSealCommit);
      alive := err.None?;
      if alive {
        alive := RemoveCandidate(c);
      }
    }

    method RemoveCandidate(c: Candidate) returns (alive: bool)
      requires Valid() && phase == SealCommitted(c)
      modifies this`candidates, this`budget, this`phase, this`trace
      ensures Ready() && (alive <==> old(budget) > 0)
      ensures candidates == if alive then old(candidates) - {c.ref} else old(candidates)
    {
      if budget == 0 {
        GiveUp();
        return false;
      }
      ghost var was := Now();
      budget := budget - 1;
      candidates := candidates - {c.ref};
      phase := Idle;
      Took(was, Now(), DoSealFinish);
      alive := true;
    }

    // statusForREF, without the source binding.
    method Status(ref: Name) returns (r: Result<HeadStatus, CommandError>, g: Graph)
      requires Valid()
      ensures fresh(g)
      ensures r.Success? <==> HeadsOk(blobs, refs)
      ensures r.Failure? ==>
                r.error.GraphInvalid? && g.heads == Heads(refs) && g.Explains(Loadable(blobs), r.error.why)
      ensures r.Success? ==> Observes(g, blobs, refs) && StatusIs(g, ref, r.value)
    {
      var err;
      err, g := ObserveNow();
      if err.Some? {
        return Failure(err.value), g;
      }
      var status := ObservedStatus(g, ref);
      r := Success(status);
    }

    method ObservedStatus(g: Graph, ref: Name) returns (s: HeadStatus)
      requires Observes(g, blobs, refs) && g.stalePaths == map[]
      modifies g`stalePaths
      ensures Observes(g, blobs, refs) && StatusIs(g, ref, s)
    {
      var unsealed := ref in candidates;
      var draft := unsealed && candidates[ref].draft;
      if ref !in refs {
        return HeadStatus(None, unsealed, draft, false, [], []);
      }
      var head := refs[ref].head;
      HeadObserved(g, blobs, refs, ref);
      var self, direct, transitive := ObservedFacts(g, head);
      s := HeadStatus(Some(head), unsealed, draft || g.nodes[head].draft, self, direct, transitive);
    }

    // The flags of the Candidate and the head, and the facts about the head.
    ghost predicate StatusIs(g: Graph, ref: Name, s: HeadStatus)
      reads this, g
    {
      && s.unsealed == (ref in candidates) && s.head == HeadOf(refs, ref)
      && (ref !in refs ==>
           && s.draft == (ref in candidates && candidates[ref].draft) && !s.self && s.direct == []
           && s.transitive == [])
      && (ref in refs ==>
            var head := refs[ref].head;
            && LoadSeal(blobs, head).Some?
            && s.draft == (LoadSeal(blobs, head).value.draft || (ref in candidates && candidates[ref].draft))
            && TellsStale(g.causes, g.active, g.children, head, s.self, s.direct, s.transitive))
    }

    method ObservedFacts(g: Graph, head: Id) returns (self: bool, direct: seq<Id>, transitive: seq<Path>)
      requires Observes(g, blobs, refs) && g.stalePaths == map[]
      modifies g`stalePaths
      ensures Observes(g, blobs, refs) && TellsStale(g.causes, g.active, g.children, head, self, direct, transitive)
    {
      self, direct, transitive := StaleFacts(g, head);
    }

    // CreateTag, for a selector already resolved to target. (An equal tag is left alone.)
    method CreateTag(ref: Name, tag: string, target: Id, op: nat) returns (err: Option<CommandError>)
      requires Ready()
      modifies this`refs, this`journal, this`budget, this`phase, this`trace
      ensures Ready()
      ensures refs == old(refs)
           || (TagAdded(old(refs), refs, ref, tag, target) && Recorded(journal, old(refs), refs, op))
      ensures OthersKept(old(journal), journal, op)
      ensures err.None? && refs != old(refs) ==> journal[op].state == COMMITTED
      ensures err.None? ==> ref in refs && tag in refs[ref].tags && refs[ref].tags[tag] == target
      ensures ref in old(refs) && tag in old(refs)[ref].tags ==> refs == old(refs) && journal == old(journal)
      ensures err == if ref !in old(refs) then Some(NoSuchRef)
                     else if LoadSeal(blobs, target).None? then Some(TargetMissing)
                     else if tag in old(refs)[ref].tags then
                       (if old(refs)[ref].tags[tag] == target then None else Some(TagConflict))
                     else if op in old(journal) then Some(JournalRefused)
                     else if old(budget) < 3 then Some(Crashed) else None
    {
      if ref !in refs {
        return Some(NoSuchRef);
      }
      if LoadSeal(blobs, target).None? {
        return Some(TargetMissing);
      }
      if tag in refs[ref].tags {
        return if refs[ref].tags[tag] == target then None else Some(TagConflict);
      }
      var m := refs[ref];
      var record := TagRecord(ref, m, tag, target);
      TagIntent(refs, ref, tag, target);
      TaggedAdds(refs, ref, tag, target);
      ghost var entered := Entered(record, op, TagPrepared(ref, tag, target, m.head, op));
      err := Journalled(record, op, refs[ref := Tagged(m, tag, target)], entered, DoTagPrepare(ref, tag, target, op),
                        DoTagPublish);
      if refs != old(refs) {
        StateAside(record, journal[op], old(refs), refs);
      }
    }

    method CheckMove(source: Name, destination: Name) returns (err: Option<CommandError>)
      ensures err == MoveRefusal(Here(), source, destination)
      ensures err.None? <==> CanMove(Here(), source, destination)
    {
      if source == destination {
        return Some(NamesEqual);
      }
      if !Free(Here(), source) || !Free(Here(), destination) {
        return Some(InUse);
      }
      if source !in refs {
        return Some(NoSuchRef);
      }
      if !TargetsLoad(blobs, refs[source]) {
        return Some(TargetMissing);
      }
      if destination in refs {
        return Some(DestinationExists);
      }
      err := None;
    }

    // MoveREF.
    method MoveREF(source: Name, destination: Name, op: nat) returns (err: Option<CommandError>)
      requires Ready()
      modifies this`refs, this`journal, this`budget, this`phase, this`trace
      ensures Ready()
      ensures refs == old(refs) || (Moved(old(refs), source, destination) && Recorded(journal, old(refs), refs, op))
      ensures err.None? ==> Moved(old(refs), source, destination) && op in journal && journal[op].state == COMMITTED
      ensures OthersKept(old(journal), journal, op)
      ensures err.None? <==> CanMove(old(Here()), source, destination) && op !in old(journal) && old(budget) >= 3
      ensures err.Some? ==> err == if MoveRefusal(old(Here()), source, destination).Some? then
                                     MoveRefusal(old(Here()), source, destination)
                                   else if op in old(journal) then Some(JournalRefused) else Some(Crashed)
    {
      err := CheckMove(source, destination);
      if err.Some? {
        return;
      }
      var record := MoveRecord(source, destination, refs[source]);
      MoveIntent(refs, source, destination);
      ghost var entered := Entered(record, op, MovePrepared(source, destination, op));
      err := Journalled(record, op, Put(Put(refs, source, None), destination, Some(refs[source])), entered,
                        DoMovePrepare(source, destination, op), DoMovePublish);
      if refs != old(refs) {
        StateAside(record, journal[op], old(refs), refs);
      }
    }

    // Why nothing can be moved, by the first reason that holds.
    ghost function MoveRefusal(s: State, source: Name, destination: Name): Option<CommandError> {
      if source == destination then Some(NamesEqual)
      else if !Free(s, source) || !Free(s, destination) then Some(InUse)
      else if source !in s.refs then Some(NoSuchRef)
      else if !TargetsLoad(s.blobs, s.refs[source]) then Some(TargetMissing)
      else if destination in s.refs then Some(DestinationExists)
      else None
    }

    ghost predicate CanMove(s: State, source: Name, destination: Name) {
      && source != destination && Free(s, source) && Free(s, destination)
      && source in s.refs && destination !in s.refs && TargetsLoad(s.blobs, s.refs[source])
    }

    function Here(): State
      reads this`blobs, this`refs, this`journal, this`candidates, this`sources
    {
      State(blobs, refs, journal, candidates, sources, Idle)
    }

    // The manifest now stands under the new name alone, unchanged.
    ghost predicate Moved(was: Refs, source: Name, destination: Name)
      reads this
    {
      && source in was && destination !in was && source !in refs
      && At(refs, destination) == Some(was[source])
      && forall ref: Name :: ref != source && ref != destination ==> At(refs, ref) == At(was, ref)
    }

    // DropREF.
    method DropREF(ref: Name, op: nat) returns (err: Option<CommandError>)
      requires Ready()
      modifies this`refs, this`journal, this`budget, this`phase, this`trace
      ensures Ready()
      ensures refs == old(refs) || (ref in old(refs) && refs == old(refs) - {ref}
                && Recorded(journal, old(refs), refs, op))
      ensures OthersKept(old(journal), journal, op)
      ensures err.None? ==>
                && ref in old(refs) && refs == old(refs) - {ref} && op in journal
                && journal[op].state == COMMITTED
      ensures err == if !Free(Here(), ref) then Some(InUse)
                     else if ref !in old(refs) then Some(NoSuchRef)
                     else if !TargetsLoad(blobs, old(refs)[ref]) then Some(TargetMissing)
                     else if op in old(journal) then Some(JournalRefused)
                     else if old(budget) < 3 then Some(Crashed) else None
    {
      if !Free(Here(), ref) {
        return Some(InUse);
      }
      if ref !in refs {
        return Some(NoSuchRef);
      }
      if !TargetsLoad(blobs, refs[ref]) {
        return Some(TargetMissing);
      }
      var record := DropRecord(ref, refs[ref]);
      DropIntent(refs, ref);
      ghost var entered := Entered(record, op, DropPrepared(ref, refs[ref], op));
      err := Journalled(record, op, refs - {ref}, entered, DoDropPrepare(ref, op), DoDropPublish);
      if refs != old(refs) {
        StateAside(record, journal[op], old(refs), refs);
      }
    }

    // Recover: all recorded REFs come back, or nothing changes.
    method RecoverOperation(op: nat) returns (err: Option<CommandError>)
      requires Ready()
      modifies this`refs, this`budget, this`trace, this`strayed
      ensures Ready()
      ensures err.None? || err == Some(Crashed) <==>
                && op in journal && AllAfter(old(refs), journal[op].transitions)
                && RecordLoads(blobs, journal[op].transitions)
      ensures err == Some(Crashed) ==> old(budget) == 0
      ensures err.None? ==> AllBefore(refs, journal[op].transitions)
      ensures err.None? ==> Elsewhere(old(refs), refs, journal[op].transitions)
      ensures err.Some? ==> refs == old(refs)
      ensures strayed <==> old(strayed) || (err.None? && !Restorable(blobs, old(refs), journal[op]))
    {
      if op !in journal {
        return Some(NoSuchRecord);
      }
      Reading();
      var r := journal[op];
      assert GoodRecord(r);
      var inspected := Inspect(blobs, refs, r);
      if inspected.Failure? {
        return Some(RecordUnreadable);
      }
      var status := inspected.value.0;
      if status != RECOVERABLE && status != PREPARED_APPLIED_RECOVERABLE {
        NotApplied(refs, r, status);
        return Some(NotRecoverable(status));
      }
      if budget == 0 {
        return Some(Crashed);
      }
      ApplyRecovery(op);
      err := None;
    }

    // The one exact manifest write of a recovery.
    method ApplyRecovery(op: nat)
      requires Ready() && op in journal && GoodRecord(journal[op]) && budget > 0
      requires RecordLoads(blobs, journal[op].transitions) && AllAfter(refs, journal[op].transitions)
      modifies this`refs, this`budget, this`trace, this`strayed
      ensures Ready()
      ensures AllBefore(refs, journal[op].transitions) && Elsewhere(old(refs), refs, journal[op].transitions)
      ensures strayed <==> old(strayed) || !Restorable(blobs, old(refs), journal[op])
    {
      ghost var was := Now();
      RecoverRestoresExactly(refs, journal[op]);
      budget := budget - 1;
      refs := RecoverRefs(refs, journal[op]).value;
      TookRecovery(was, op);
    }

    ghost method TookRecovery(was: State, op: nat)
      requires Injective(name) && AnyRun(name, trace) && trace[|trace| - 1] == was && Recover(was, Now(), op)
      requires !strayed ==> FittingRun(name, trace)
      modifies this`trace, this`strayed
      ensures Valid() && (strayed <==> old(strayed) || !Restorable(was.blobs, was.refs, was.journal[op]))
    {
      AnyRunNext(name, trace, Now());
      if !strayed && Restorable(was.blobs, was.refs, was.journal[op]) {
        assert FittingRecover(was, Now(), op);
        FittingRunNext(name, trace, Now());
      } else {
        strayed := true;
      }
      trace := trace + [Now()];
    }
  }

  // ------------------------------------------------------ across commands

  lemma HeadObserved(g: Graph, blobs: map<Id, Blob>, refs: Refs, ref: Name)
    requires Observes(g, blobs, refs) && ref in refs
    ensures refs[ref].head in g.nodes && LoadSeal(blobs, refs[ref].head) == Some(g.nodes[refs[ref].head])
  {
    var head := refs[ref].head;
    ReachesSelf(Deps(Loadable(blobs)), head);
    assert ReachedFrom(Deps(Loadable(blobs)), HeadIds(refs), head);
  }

  // The graph a Candidate was judged by is the graph observed once it is published.
  lemma JudgedIsObserved(name: Naming, was: State, now: State, c: Candidate, g: Graph, h: Graph)
    requires Extends(was.blobs, now.blobs) && Published(name, now.blobs, c) && now.refs == AfterSeal(name, was.refs, c)
    requires JudgedBy(name, g, was.blobs, was.refs, c) && Observes(h, now.blobs, now.refs)
    ensures g.nodes == h.nodes && g.active == h.active
    ensures SameEdges(g.causes, h.causes) && SameEdges(g.children, h.children)
  {
    var env, more := Loadable(was.blobs)[ProspectiveId(name, c) := ProspectiveSeal(c)], Loadable(now.blobs);
    LoadableKept(was.blobs, now.blobs);
    assert Holds(env, more);
    SameClosure(env, more, HeadIds(now.refs), g.nodes.Keys, h.nodes.Keys);
    assert g.nodes == h.nodes;
    GatheredSame(g, h);
    ActiveSame(g, h);
  }

  // After a normal seal succeeded, a fresh observation of the new heads reports no direct
  // and no transitive fact about its REF.
  lemma PublishedIsClean(name: Naming, was: State, now: State, c: Candidate, op: nat, id: Id, g: Graph, h: Graph,
          self: bool, direct: seq<Id>, transitive: seq<Path>)
    requires SealDone(name, was, now, c, op, id) && !c.draft && !c.root
    requires JudgedBy(name, g, was.blobs, was.refs, c) && AllFit(g, Elems(LinkTargets(c.links)), false)
    requires Observes(h, now.blobs, now.refs)
              && TellsStale(h.causes, h.active, h.children, id, self, direct, transitive)
    ensures direct == [] && transitive == []
  {
    JudgedIsObserved(name, was, now, c, g, h);
    FitSame(g, h, Elems(LinkTargets(c.links)), false);
    assert now.refs[c.ref].head == id;
    HeadObserved(h, now.blobs, now.refs, c.ref);
    AdmittedIsClean(h, id, c.links);
    StaleFactsMeaning(h.causes, NonLeaves(h.active, h.children), id, direct, transitive);
  }

  lemma PartStored(name: Naming, blobs: map<Id, Blob>, c: Candidate, k: nat)
    requires Injective(name) && Addressed(name, blobs) && k < 3 && PartsStored(name, blobs, c, k)
    ensures PartsStored(name, blobs[name(PartOf(name, c, k)) := PartOf(name, c, k)], c, k + 1)
  {
    WriteExtends(name, blobs, PartOf(name, c, k));
  }

  lemma EnterThenCommit(journal: map<nat, JournalRecord>, op: nat, r: JournalRecord)
    ensures journal[op := r][op := r.(state := COMMITTED)] == journal[op := r.(state := COMMITTED)]
  {
  }

  // Whether a record describes a change does not depend on its state.
  lemma StateAside(r: JournalRecord, now: JournalRecord, refs: Refs, refs': Refs)
    requires Describes(r, refs, refs') && now.(state := r.state) == r
    ensures Describes(now, refs, refs')
  {
  }

  lemma NotApplied(refs: Refs, r: JournalRecord, status: Status)
    requires ValidRecord(r) && Means(refs, r, status) && status != RECOVERABLE && status != PREPARED_APPLIED_RECOVERABLE
    ensures !AllAfter(refs, r.transitions)
  {
    assert r.transitions[0].before != r.transitions[0].after;
  }

  lemma ProspectiveStore(stored: map<Id, Seal>, id: Id, seal: Seal)
    ensures stored + map[id := seal] == stored[id := seal]
  {
  }

  lemma ProspectiveHeads(name: Naming, refs: Refs, c: Candidate)
    ensures Heads(refs)[c.ref := ProspectiveId(name, c)] == Heads(AfterSeal(name, refs, c))
    ensures Heads(AfterSeal(name, refs, c)).Values == HeadIds(AfterSeal(name, refs, c))
  {
    HeadsAreIds(AfterSeal(name, refs, c));
  }
}
