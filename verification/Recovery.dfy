/** The recovery journal: status of a record, and what recovering it restores. */
module Recovery {
  import opened Ids
  import opened ObservedGraph
  import opened HeadSnapshot
  import opened Admission
  import opened Text
  import opened RepositoryState
  import opened Publication

  // ------------------------------------------------------------------ status

  datatype Place = BEFORE | AFTER | ELSEWHERE
  datatype Status = RECOVERABLE | PREPARED_APPLIED_RECOVERABLE | PREPARED_NOT_APPLIED | ALREADY_RECOVERED | INTERVENED

  ghost predicate AllBefore(refs: Refs, transitions: seq<Transition>) {
    forall i :: 0 <= i < |transitions| ==> At(refs, transitions[i].ref) == transitions[i].before
  }

  ghost predicate AllAfter(refs: Refs, transitions: seq<Transition>) {
    forall i :: 0 <= i < |transitions| ==> At(refs, transitions[i].ref) == transitions[i].after
  }

  // Every Seal named by a recorded manifest still loads.
  ghost predicate TransitionLoads(blobs: map<Id, Blob>, t: Transition) {
    && (t.before.Some? ==> TargetsLoad(blobs, t.before.value))
    && (t.after.Some? ==> TargetsLoad(blobs, t.after.value))
  }

  ghost predicate RecordLoads(blobs: map<Id, Blob>, transitions: seq<Transition>) {
    forall i :: 0 <= i < |transitions| ==> TransitionLoads(blobs, transitions[i])
  }

  ghost predicate Placed(refs: Refs, t: Transition, p: Place) {
    match p
    case BEFORE => At(refs, t.ref) == t.before
    case AFTER => At(refs, t.ref) == t.after
    case ELSEWHERE => At(refs, t.ref) != t.before && At(refs, t.ref) != t.after
  }

  // What each status says. For a valid record exactly one of them holds (StatusExclusive).
  ghost predicate Means(refs: Refs, r: JournalRecord, status: Status) {
    match status
    case RECOVERABLE => AllAfter(refs, r.transitions) && r.state == COMMITTED
    case PREPARED_APPLIED_RECOVERABLE => AllAfter(refs, r.transitions) && r.state == PREPARED
    case PREPARED_NOT_APPLIED => AllBefore(refs, r.transitions) && r.state == PREPARED
    case ALREADY_RECOVERED => AllBefore(refs, r.transitions) && r.state == COMMITTED
    case INTERVENED => !AllBefore(refs, r.transitions) && !AllAfter(refs, r.transitions)
  }

  lemma StatusExclusive(refs: Refs, r: JournalRecord, a: Status, b: Status)
    requires ValidRecord(r) && Means(refs, r, a) && Means(refs, r, b)
    ensures a == b
  {
    assert r.transitions[0].before != r.transitions[0].after;
  }

  // The inequality validateRecord demands is what keeps the classification apart: some REFs
  // give a record on different REFs two statuses at once exactly when both sides are equal everywhere.
  lemma EqualSidesConfuse(r: JournalRecord)
    requires 1 <= |r.transitions| <= 2
    requires |r.transitions| == 2 ==> r.transitions[0].ref != r.transitions[1].ref
    ensures (exists refs, a, b :: a != b && Means(refs, r, a) && Means(refs, r, b))
            <==> forall i :: 0 <= i < |r.transitions| ==> r.transitions[i].before == r.transitions[i].after
  {
    if forall i :: 0 <= i < |r.transitions| ==> r.transitions[i].before == r.transitions[i].after {
      var refs := Put(map[], r.transitions[0].ref, r.transitions[0].before);
      if |r.transitions| == 2 {
        refs := Put(refs, r.transitions[1].ref, r.transitions[1].before);
      }
      assert AllBefore(refs, r.transitions) && AllAfter(refs, r.transitions);
      if r.state == COMMITTED {
        assert Means(refs, r, RECOVERABLE) && Means(refs, r, ALREADY_RECOVERED);
      } else {
        assert Means(refs, r, PREPARED_APPLIED_RECOVERABLE) && Means(refs, r, PREPARED_NOT_APPLIED);
      }
    } else {
      forall refs, a, b | a != b && Means(refs, r, a) ensures !Means(refs, r, b) {
        DifferentSides(refs, r.transitions);
      }
    }
  }

  lemma DifferentSides(refs: Refs, transitions: seq<Transition>)
    requires exists i :: 0 <= i < |transitions| && transitions[i].before != transitions[i].after
    ensures !(AllBefore(refs, transitions) && AllAfter(refs, transitions))
  {
  }

  method ManifestLoads(blobs: map<Id, Blob>, m: Option<Manifest>) returns (ok: bool)
    ensures ok <==> (m.Some? ==> TargetsLoad(blobs, m.value))
  {
    ok := m.None? || TargetsLoad(blobs, m.value);
  }

  // The transitions inspected so far and the two flags kept about them.
  ghost predicate Inspected(blobs: map<Id, Blob>, refs: Refs, done: seq<Transition>, allBefore: bool, allAfter: bool,
          places: seq<Place>) {
    && RecordLoads(blobs, done) && |places| == |done|
    && (allBefore <==> AllBefore(refs, done)) && (allAfter <==> AllAfter(refs, done))
    && forall i :: 0 <= i < |done| ==> Placed(refs, done[i], places[i])
  }

  lemma InspectedNext(blobs: map<Id, Blob>, refs: Refs, done: seq<Transition>, allBefore: bool, allAfter: bool,
          places: seq<Place>,
                      t: Transition, p: Place)
    requires Inspected(blobs, refs, done, allBefore, allAfter, places)
    requires TransitionLoads(blobs, t) && t.before != t.after && Placed(refs, t, p)
    ensures Inspected(blobs, refs, done + [t], allBefore && p == BEFORE, allAfter && p == AFTER, places + [p])
  {
    var next := done + [t];
    assert forall i :: 0 <= i < |done| ==> next[i] == done[i];
    assert next[|done|] == t;
  }

  // inspectRecoveryRecord. It fails only on a record whose targets do not load, and
  // otherwise reports where each REF stands and the one status that holds.
  method Inspect(blobs: map<Id, Blob>, refs: Refs, r: JournalRecord) returns (res: Result<(Status, seq<Place>), Name>)
    requires ValidRecord(r)
    ensures res.Success? <==> RecordLoads(blobs, r.transitions)
    ensures res.Failure? ==> exists k :: 0 <= k < |r.transitions| && r.transitions[k].ref == res.error
                               && !TransitionLoads(blobs, r.transitions[k]) && RecordLoads(blobs, r.transitions[..k])
    ensures res.Success? ==> Means(refs, r, res.value.0) && |res.value.1| == |r.transitions|
    ensures res.Success? ==> forall i :: 0 <= i < |r.transitions| ==> Placed(refs, r.transitions[i], res.value.1[i])
  {
    var allBefore, allAfter := true, true;
    var places: seq<Place> := [];
    var k := 0;
    while k < |r.transitions|
      invariant k <= |r.transitions| && Inspected(blobs, refs, r.transitions[..k], allBefore, allAfter, places)
    {
      var t := r.transitions[k];
      TakeNext(r.transitions, k);
      var beforeLoads := ManifestLoads(blobs, t.before);
      var afterLoads := ManifestLoads(blobs, t.after);
      if !beforeLoads || !afterLoads {
        assert !TransitionLoads(blobs, r.transitions[k]);
        return Failure(t.ref);
      }
      var current, place := At(refs, t.ref), ELSEWHERE;
      ghost var wasBefore, wasAfter := allBefore, allAfter;
      if current == t.before {
        place, allAfter := BEFORE, false;
      } else if current == t.after {
        place, allBefore := AFTER, false;
      } else {
        allBefore, allAfter := false, false;
      }
      InspectedNext(blobs, refs, r.transitions[..k], wasBefore, wasAfter, places, t, place);
      places := places + [place];
      k := k + 1;
    }
    assert r.transitions[..k] == r.transitions;
    res := Success((StatusOf(allBefore, allAfter, r.state), places));
  }

  function StatusOf(allBefore: bool, allAfter: bool, state: JournalState): Status {
    if allAfter && state == PREPARED then PREPARED_APPLIED_RECOVERABLE
    else if allAfter then RECOVERABLE
    else if allBefore && state == PREPARED then PREPARED_NOT_APPLIED
    else if allBefore then ALREADY_RECOVERED
    else INTERVENED
  }

  // ---------------------------------------------------------------- recovering

  function Old(transitions: seq<Transition>): (t: Transition)
    requires MoveShape(transitions)
    ensures t in transitions && Departs(t)
  {
    if Departs(transitions[0]) then transitions[0] else transitions[1]
  }

  function New(transitions: seq<Transition>): (t: Transition)
    requires MoveShape(transitions)
    ensures t in transitions && Arrives(t)
  {
    if Departs(transitions[0]) then transitions[1] else transitions[0]
  }

  // The two exact manifest writes Recover uses: they act only on the expected contents.
  function ReplaceExact(refs: Refs, ref: Name, expected: Option<Manifest>,
          replacement: Option<Manifest>): Option<Refs>
  {
    if At(refs, ref) != expected then None else Some(Put(refs, ref, replacement))
  }

  function MoveExact(refs: Refs, from: Name, to: Name, fromExpected: Option<Manifest>,
          toExpected: Option<Manifest>): Option<Refs> {
    if from == to || At(refs, from) != fromExpected || At(refs, to) != toExpected || from !in refs || to in refs then
        None
    else Some(Put(Put(refs, from, None), to, Some(refs[from])))
  }

  function RecoverRefs(refs: Refs, r: JournalRecord): Option<Refs>
    requires ValidRecord(r)
  {
    if r.kind == MoveKind then
      var o, n := Old(r.transitions), New(r.transitions);
      MoveExact(refs, n.ref, o.ref, n.after, o.after)
    else
      ReplaceExact(refs, r.transitions[0].ref, r.transitions[0].after, r.transitions[0].before)
  }

  // A move record whose two sides carry the same manifest: what MoveREF writes. The shape
  // check of the journal does not ask for it.
  predicate SameManifest(r: JournalRecord) {
    r.kind == MoveKind && MoveShape(r.transitions) ==> New(r.transitions).after == Old(r.transitions).before
  }

  ghost predicate Elsewhere(refs: Refs, refs': Refs, transitions: seq<Transition>) {
    forall ref: Name ::
      At(refs', ref) == At(refs, ref) || exists i :: 0 <= i < |transitions| && transitions[i].ref == ref
  }

  // Recover acts exactly on an applied record, touches only its REFs, and restores every
  // one of them exactly when the record moves one manifest.
  lemma RecoverRestoresExactly(refs: Refs, r: JournalRecord)
    requires ValidRecord(r)
    ensures RecoverRefs(refs, r).Some? <==> AllAfter(refs, r.transitions)
    ensures RecoverRefs(refs, r).Some? ==> Elsewhere(refs, RecoverRefs(refs, r).value, r.transitions)
    ensures RecoverRefs(refs, r).Some? ==> (AllBefore(RecoverRefs(refs, r).value, r.transitions) <==> SameManifest(r))
  {
    if r.kind == MoveKind {
      StringTotal(r.transitions[0].ref, r.transitions[1].ref);
    }
  }

  // A valid record that breaks it: recovery then loses the moved manifest.
  lemma UnequalMoveIsNotRestored(a: Manifest, b: Manifest) returns (refs: Refs, r: JournalRecord)
    requires a != b
    ensures ValidRecord(r) && AllAfter(refs, r.transitions)
    ensures RecoverRefs(refs, r).Some? && !AllBefore(RecoverRefs(refs, r).value, r.transitions)
  {
    refs := map["y" := b];
    r := JournalRecord(COMMITTED, MoveKind, [Transition("x", Some(a), None), Transition("y", None, Some(b))]);
    assert 'x' < 'y' && StringLess("x", "y");
    assert !SameManifest(r);
    RecoverRestoresExactly(refs, r);
  }

  // ------------------------------------------------ runs with recovery and others

  // The record accounts for the change from refs to refs', REF by REF.
  ghost predicate Describes(r: JournalRecord, refs: Refs, refs': Refs) {
    AllBefore(refs, r.transitions) && AllAfter(refs', r.transitions) && Elsewhere(refs, refs', r.transitions)
  }

  lemma RecoverUndoes(r: JournalRecord, refs: Refs, refs': Refs)
    requires ValidRecord(r) && SameManifest(r) && Describes(r, refs, refs')
    ensures RecoverRefs(refs', r) == Some(refs)
  {
    RecoverRestoresExactly(refs', r);
    var back := RecoverRefs(refs', r).value;
    forall ref: Name ensures At(back, ref) == At(refs, ref) {
      if i :| 0 <= i < |r.transitions| && r.transitions[i].ref == ref {
      } else {
        assert At(back, ref) == At(refs', ref) == At(refs, ref);
      }
    }
    SameReads(back, refs);
  }

  // Recover: inspect, then one exact manifest write.
  ghost predicate Recover(s: State, s': State, op: nat) {
    && s.phase == Idle && op in s.journal && ValidRecord(s.journal[op])
    && RecordLoads(s.blobs, s.journal[op].transitions)
    && AllAfter(s.refs, s.journal[op].transitions)
    && RecoverRefs(s.refs, s.journal[op]).Some?
    && s' == s.(refs := RecoverRefs(s.refs, s.journal[op]).value)
  }

  // Anything else that edits manifests: between commands, or while a seal writes its objects.
  ghost predicate Foreign(s: State, s': State) {
    (s.phase == Idle || s.phase.SealAdmitted?) && s' == s.(refs := s'.refs)
  }

  ghost predicate NextAny(name: Naming, s: State, s': State) {
    Next(name, s, s') || Foreign(s, s') || exists op :: Recover(s, s', op)
  }

  ghost predicate AnyRun(name: Naming, run: seq<State>) {
    run != [] && Init(run[0]) && forall i, j {:trigger NextAny(name, run[i], run[j])} ::
        0 <= i < j < |run| && j == i + 1 ==> NextAny(name, run[i], run[j])
  }

  // ------------------------------------------------------ the journal invariant

  // What the command in this phase is about to write.
  function Intended(name: Naming, s: State): Option<Refs> {
    match s.phase
    case SealPrepared(c, op) => Some(AfterSeal(name, s.refs, c))
    case TagPrepared(ref, tag, target, head, op) =>
      if ref in s.refs then Some(s.refs[ref := Tagged(s.refs[ref], tag, target)]) else None
    case MovePrepared(source, destination, op) =>
      if source in s.refs then Some(Put(Put(s.refs, source, None), destination, Some(s.refs[source]))) else None
    case DropPrepared(ref, dropped, op) => Some(s.refs - {ref})
    case _ => None
  }

  function OperationOf(phase: Phase): Option<nat> {
    match phase
    case SealPrepared(c, op) => Some(op)
    case SealPublished(c, op) => Some(op)
    case TagPrepared(ref, tag, target, head, op) => Some(op)
    case MovePrepared(source, destination, op) => Some(op)
    case DropPrepared(ref, dropped, op) => Some(op)
    case Applied(op) => Some(op)
    case _ => None
  }

  // A tag record changes no head.
  predicate SameHead(r: JournalRecord) {
    r.kind == TagKind ==>
      forall i :: 0 <= i < |r.transitions| && r.transitions[i].before.Some? && r.transitions[i].after.Some? ==>
        r.transitions[i].before.value.head == r.transitions[i].after.value.head
  }

  ghost predicate GoodRecord(r: JournalRecord) {
    ValidRecord(r) && SameManifest(r) && SameHead(r)
  }

  ghost predicate GoodJournal(journal: map<nat, JournalRecord>) {
    forall op: nat :: op in journal ==> GoodRecord(journal[op])
  }

  // Every record is well formed; a command past its journal entry finds it PREPARED, and
  // the entry describes exactly what the command is about to write.
  ghost predicate Logged(name: Naming, s: State) {
    && GoodJournal(s.journal)
    && (OperationOf(s.phase).Some? ==>
          var op := OperationOf(s.phase).value;
          && op in s.journal && s.journal[op].state == PREPARED
          && (Intended(name, s).Some? ==> Describes(s.journal[op], s.refs, Intended(name, s).value)))
  }

  // The Seal differs from the head it replaces, so its transition is one.
  lemma SealRecordValid(name: Naming, refs: Refs, c: Candidate)
    requires c.expected != Some(ProspectiveId(name, c)) && c.expected == HeadOf(refs, c.ref)
    ensures ValidRecord(SealRecord(name, refs, c))
  {
    var t := SealRecord(name, refs, c).transitions[0];
    assert t.before.Some? ==> t.before.value.head != t.after.value.head;
  }

  lemma SealIntent(name: Naming, refs: Refs, c: Candidate)
    ensures Describes(SealRecord(name, refs, c), refs, AfterSeal(name, refs, c))
  {
    var r, to := SealRecord(name, refs, c), AfterSeal(name, refs, c);
    forall ref: Name | At(to, ref) != At(refs, ref)
      ensures exists i :: 0 <= i < |r.transitions| && r.transitions[i].ref == ref
    {
      assert r.transitions[0].ref == ref;
    }
  }

  lemma TagIntent(refs: Refs, ref: Name, tag: string, target: Id)
    requires ref in refs && tag !in refs[ref].tags
    ensures GoodRecord(TagRecord(ref, refs[ref], tag, target))
    ensures Describes(TagRecord(ref, refs[ref], tag, target), refs, refs[ref := Tagged(refs[ref], tag, target)])
  {
    var r, to := TagRecord(ref, refs[ref], tag, target), refs[ref := Tagged(refs[ref], tag, target)];
    assert tag in to[ref].tags;
    forall other: Name | At(to, other) != At(refs, other)
      ensures exists i :: 0 <= i < |r.transitions| && r.transitions[i].ref == other
    {
      assert r.transitions[0].ref == other;
    }
  }

  lemma MoveIntent(refs: Refs, source: Name, destination: Name)
    requires source in refs && destination !in refs && source != destination
    ensures GoodRecord(MoveRecord(source, destination, refs[source]))
    ensures Describes(MoveRecord(source, destination, refs[source]), refs,
              Put(Put(refs, source, None), destination, Some(refs[source])))
  {
    StringTotal(source, destination);
    var r, to := MoveRecord(source, destination, refs[source]),
        Put(Put(refs, source, None), destination, Some(refs[source]));
    forall ref: Name | At(to, ref) != At(refs, ref)
      ensures exists i :: 0 <= i < |r.transitions| && r.transitions[i].ref == ref
    {
      assert ref == source || ref == destination;
      assert r.transitions[0].ref == ref || r.transitions[1].ref == ref;
    }
  }

  lemma DropIntent(refs: Refs, ref: Name)
    requires ref in refs
    ensures GoodRecord(DropRecord(ref, refs[ref])) && Describes(DropRecord(ref, refs[ref]), refs, refs - {ref})
  {
    var r, to := DropRecord(ref, refs[ref]), refs - {ref};
    forall other: Name | At(to, other) != At(refs, other)
      ensures exists i :: 0 <= i < |r.transitions| && r.transitions[i].ref == other
    {
      assert r.transitions[0].ref == other;
    }
  }

  // A command that has just written its journal entry.
  lemma EntryLogs(name: Naming, s: State, s': State, op: nat, r: JournalRecord)
    requires GoodJournal(s.journal) && s'.journal == s.journal[op := r] && GoodRecord(r) && r.state == PREPARED
    requires OperationOf(s'.phase) == Some(op) && Intended(name, s').Some?
              && Describes(r, s'.refs, Intended(name, s').value)
    ensures Logged(name, s')
  {
  }

  lemma CommitLogs(name: Naming, s: State, s': State, op: nat, next: Phase)
    requires Logged(name, s) && Commits(s, s', op, next) && OperationOf(next).None?
    ensures Logged(name, s')
  {
    assert GoodRecord(s.journal[op].(state := COMMITTED));
  }

  // A command that has just written the manifests, or a step that writes neither.
  lemma QuietLogs(name: Naming, s: State, s': State)
    requires Logged(name, s) && s'.journal == s.journal && Intended(name, s').None?
    requires OperationOf(s'.phase).None? || OperationOf(s'.phase) == OperationOf(s.phase)
    ensures Logged(name, s')
  {
  }

  lemma SealEntryLogs(name: Naming, s: State, s': State, op: nat)
    requires Logged(name, s) && SealPrepare(name, s, s', op)
    ensures Logged(name, s')
  {
    SealIntent(name, s.refs, s.phase.cand);
    EntryLogs(name, s, s', op, SealRecord(name, s.refs, s.phase.cand));
  }

  lemma TagEntryLogs(name: Naming, s: State, s': State, ref: Name, tag: string, target: Id, op: nat)
    requires Logged(name, s) && TagPrepare(s, s', ref, tag, target, op)
    ensures Logged(name, s')
  {
    TagIntent(s.refs, ref, tag, target);
    EntryLogs(name, s, s', op, s'.journal[op]);
  }

  lemma MoveEntryLogs(name: Naming, s: State, s': State, source: Name, destination: Name, op: nat)
    requires Logged(name, s) && MovePrepare(s, s', source, destination, op)
    ensures Logged(name, s')
  {
    MoveIntent(s.refs, source, destination);
    EntryLogs(name, s, s', op, s'.journal[op]);
  }

  lemma DropEntryLogs(name: Naming, s: State, s': State, ref: Name, op: nat)
    requires Logged(name, s) && DropPrepare(s, s', ref, op)
    ensures Logged(name, s')
  {
    DropIntent(s.refs, ref);
    EntryLogs(name, s, s', op, s'.journal[op]);
  }

  predicate WritesEntry(l: Label) {
    l.DoSealPrepare? || l.DoTagPrepare? || l.DoMovePrepare? || l.DoDropPrepare?
  }

  lemma LaterStepLogs(name: Naming, s: State, s': State, l: Label)
    requires Logged(name, s) && Step(name, s, s', l) && !WritesEntry(l)
    ensures Logged(name, s')
  {
    match l
    case DoSealCommit => CommitLogs(name, s, s', s.phase.op, s'.phase);
    case DoCommit => CommitLogs(name, s, s', s.phase.op, s'.phase);
    case _ => QuietStepLogs(name, s, s', l);
  }

  lemma QuietStepLogs(name: Naming, s: State, s': State, l: Label)
    requires Logged(name, s) && Step(name, s, s', l) && !WritesEntry(l) && !l.DoSealCommit? && !l.DoCommit?
    ensures Logged(name, s')
  {
    QuietStep(name, s, s', l);
    QuietLogs(name, s, s');
  }

  lemma QuietStep(name: Naming, s: State, s': State, l: Label)
    requires Step(name, s, s', l) && !WritesEntry(l) && !l.DoSealCommit? && !l.DoCommit?
    ensures s'.journal == s.journal && Intended(name, s').None?
    ensures OperationOf(s'.phase).None? || OperationOf(s'.phase) == OperationOf(s.phase)
  {
  }

  lemma StepLogs(name: Naming, s: State, s': State, l: Label)
    requires Logged(name, s) && Step(name, s, s', l)
    ensures Logged(name, s')
  {
    match l
    case DoSealPrepare(op) => SealEntryLogs(name, s, s', op);
    case DoTagPrepare(ref, tag, target, op) => TagEntryLogs(name, s, s', ref, tag, target, op);
    case DoMovePrepare(source, destination, op) => MoveEntryLogs(name, s, s', source, destination, op);
    case DoDropPrepare(ref, op) => DropEntryLogs(name, s, s', ref, op);
    case _ => LaterStepLogs(name, s, s', l);
  }

  lemma {:induction false} LoggedRun(name: Naming, run: seq<State>, k: nat)
    requires AnyRun(name, run) && k < |run|
    ensures Logged(name, run[k])
    decreases k
  {
    if k > 0 {
      LoggedRun(name, run, k - 1);
      var s, s' := run[k - 1], run[k];
      assert NextAny(name, s, s');
      if Next(name, s, s') {
        var l :| Step(name, s, s', l);
        StepLogs(name, s, s', l);
      }
    }
  }

  lemma {:induction false} AddressedRun(name: Naming, run: seq<State>, k: nat)
    requires Injective(name) && AnyRun(name, run) && k < |run|
    ensures Addressed(name, run[k].blobs)
    decreases k
  {
    if k > 0 {
      AddressedRun(name, run, k - 1);
      assert NextAny(name, run[k - 1], run[k]);
      if Next(name, run[k - 1], run[k]) {
        var l :| Step(name, run[k - 1], run[k], l);
        AddressedStep(name, run[k - 1], run[k], l);
      }
    }
  }

  lemma AddressedStep(name: Naming, s: State, s': State, l: Label)
    requires Injective(name) && Addressed(name, s.blobs) && Step(name, s, s', l)
    ensures Addressed(name, s'.blobs)
  {
    if l.DoSealWrite? {
      WriteExtends(name, s.blobs, PartOf(name, s.phase.cand, s.phase.written));
    }
  }

  // No manifest changes before its record is on disk: whenever a command changes the REFs,
  // a PREPARED record written by an earlier step describes that very change.
  lemma RecordComesFirst(name: Naming, run: seq<State>, k: nat) returns (op: nat)
    requires AnyRun(name, run) && k + 1 < |run|
    requires Next(name, run[k], run[k + 1]) && run[k + 1].refs != run[k].refs
    ensures op in run[k].journal && run[k].journal[op].state == PREPARED
    ensures GoodRecord(run[k].journal[op]) && Describes(run[k].journal[op], run[k].refs, run[k + 1].refs)
  {
    LoggedRun(name, run, k);
    var l :| Step(name, run[k], run[k + 1], l);
    ChangeIsIntended(name, run[k], run[k + 1], l);
    op := OperationOf(run[k].phase).value;
  }

  lemma ChangeIsIntended(name: Naming, s: State, s': State, l: Label)
    requires Step(name, s, s', l) && s'.refs != s.refs
    ensures OperationOf(s.phase).Some? && Intended(name, s) == Some(s'.refs)
  {
  }

  // In every run, whatever others did in between: recovering puts every listed REF back to
  // its recorded manifest and changes nothing else at all.
  lemma RecoverInRun(name: Naming, run: seq<State>, k: nat, op: nat, again: State)
    requires AnyRun(name, run) && k + 1 < |run| && Recover(run[k], run[k + 1], op)
    ensures AllBefore(run[k + 1].refs, run[k].journal[op].transitions)
    ensures Elsewhere(run[k].refs, run[k + 1].refs, run[k].journal[op].transitions)
    ensures run[k + 1] == run[k].(refs := run[k + 1].refs)
    ensures !Recover(run[k + 1], again, op)
  {
    LoggedRun(name, run, k);
    var r := run[k].journal[op];
    RecoverRestoresExactly(run[k].refs, r);
    assert r.transitions[0].before != r.transitions[0].after;
    assert At(run[k + 1].refs, r.transitions[0].ref) == r.transitions[0].before;
  }

  // ---------------------------------------------------- recovery and the heads

  // The check Recover does not make: the head it brings back must fit the heads that stay.
  // A graph build over those heads decides it; a tag or a move brings back no other head.
  ghost predicate Restorable(blobs: map<Id, Blob>, refs: Refs, r: JournalRecord) {
    r.kind == TagKind || r.kind == MoveKind || r.transitions == [] || r.transitions[0].before.None?
    || GraphOk(Loadable(blobs), HeadIds(refs - {r.transitions[0].ref}) + {r.transitions[0].before.value.head})
  }

  // What a recovery leaves is safe exactly when that check would have passed.
  lemma RecoverSafeExactly(name: Naming, s: State, s': State, op: nat)
    requires Safe(name, s) && Logged(name, s) && Recover(s, s', op)
    ensures Safe(name, s') <==> Restorable(s.blobs, s.refs, s.journal[op])
  {
    var r := s.journal[op];
    RestoredTags(s.blobs, s.refs, s'.refs, r);
    if r.kind == MoveKind || r.kind == TagKind {
      RestoredSameHeads(s.refs, s'.refs, r);
      HeadsKept(s.blobs, s.blobs, s.refs, s'.refs);
    } else {
      RestoredHeads(s.refs, s'.refs, r);
      if r.transitions[0].before.None? {
        HeadsKept(s.blobs, s.blobs, s.refs, s'.refs);
      }
    }
  }

  // Whatever comes back was inspected: its tags load.
  lemma RestoredTags(blobs: map<Id, Blob>, refs: Refs, refs': Refs, r: JournalRecord)
    requires TagsOk(blobs, refs) && GoodRecord(r) && RecordLoads(blobs, r.transitions)
    requires AllAfter(refs, r.transitions) && RecoverRefs(refs, r) == Some(refs')
    ensures TagsOk(blobs, refs')
  {
    forall ref: Name, tag: string | ref in refs' && tag in refs'[ref].tags
      ensures LoadSeal(blobs, refs'[ref].tags[tag]).Some?
    {
      if r.kind == MoveKind {
        var n := New(r.transitions);
        assert ref != Old(r.transitions).ref ==> ref in refs && refs'[ref] == refs[ref];
        assert ref == Old(r.transitions).ref ==> refs'[ref] == refs[n.ref];
      } else if ref == r.transitions[0].ref {
        assert TransitionLoads(blobs, r.transitions[0]);
      }
    }
  }

  lemma RestoredSameHeads(refs: Refs, refs': Refs, r: JournalRecord)
    requires GoodRecord(r) && (r.kind == MoveKind || r.kind == TagKind)
    requires AllAfter(refs, r.transitions) && RecoverRefs(refs, r) == Some(refs')
    ensures HeadIds(refs') <= HeadIds(refs)
  {
    forall x: Id | x in HeadIds(refs') ensures x in HeadIds(refs) {
      var ref :| ref in refs' && refs'[ref].head == x;
      if r.kind == MoveKind && ref == Old(r.transitions).ref {
        assert refs[New(r.transitions).ref].head == x;
      } else {
        assert ref in refs && refs[ref].head == x;
      }
    }
  }

  lemma RestoredHeads(refs: Refs, refs': Refs, r: JournalRecord)
    requires GoodRecord(r) && r.kind != MoveKind && RecoverRefs(refs, r) == Some(refs')
    ensures var t := r.transitions[0];
            HeadIds(refs') == HeadIds(refs - {t.ref}) + if t.before.Some? then {t.before.value.head} else {}
    ensures HeadIds(refs - {r.transitions[0].ref}) <= HeadIds(refs)
  {
    var t := r.transitions[0];
    var rest := refs - {t.ref};
    forall x: Id | x in HeadIds(rest) ensures x in HeadIds(refs') && x in HeadIds(refs) {
      var ref :| ref in rest && rest[ref].head == x;
      assert refs'[ref].head == x && refs[ref].head == x;
    }
    if t.before.Some? {
      assert refs'[t.ref].head == t.before.value.head;
    }
    forall x: Id | x in HeadIds(refs')
      ensures x in HeadIds(rest) || (t.before.Some? && x == t.before.value.head)
    {
      var ref :| ref in refs' && refs'[ref].head == x;
      assert ref != t.ref ==> ref in rest && rest[ref].head == x;
    }
  }

  // Recovering a tag or a move from a safe state leaves it safe.
  lemma RecoverKeepsHeads(name: Naming, s: State, s': State, op: nat)
    requires Safe(name, s) && Logged(name, s) && Recover(s, s', op)
    requires s.journal[op].kind == MoveKind || s.journal[op].kind == TagKind
    ensures Safe(name, s')
  {
    RecoverSafeExactly(name, s, s', op);
  }

  // --------------------------------------------- runs whose recoveries fit

  ghost predicate FittingRecover(s: State, s': State, op: nat) {
    Recover(s, s', op) && Restorable(s.blobs, s.refs, s.journal[op])
  }

  ghost predicate NextFitting(name: Naming, s: State, s': State) {
    Next(name, s, s') || exists op :: FittingRecover(s, s', op)
  }

  ghost predicate FittingRun(name: Naming, run: seq<State>) {
    run != [] && Init(run[0])
    && forall i, j {:trigger NextFitting(name, run[i], run[j])} ::
         0 <= i < j < |run| && j == i + 1 ==> NextFitting(name, run[i], run[j])
  }

  // With that check in place, recovery belongs to the safety claim: every state of every
  // run of commands, edits, crashes and fitting recoveries is safe.
  lemma {:induction false} FittingRunSafe(name: Naming, run: seq<State>, k: nat)
    requires Injective(name) && FittingRun(name, run) && k < |run|
    ensures Safe(name, run[k]) && Logged(name, run[k])
    decreases k
  {
    if k == 0 {
      FreshIsSafe(name, run[0]);
    } else {
      FittingRunSafe(name, run, k - 1);
      var s, s' := run[k - 1], run[k];
      assert NextFitting(name, s, s');
      if Next(name, s, s') {
        var l :| Step(name, s, s', l);
        StepKeeps(name, s, s', l);
        StepLogs(name, s, s', l);
      } else {
        var op :| FittingRecover(s, s', op);
        RecoverSafeExactly(name, s, s', op);
      }
    }
  }

  // --------------------------------------------------------- extending a run

  lemma AnyRunNext(name: Naming, run: seq<State>, s: State)
    requires AnyRun(name, run) && NextAny(name, run[|run| - 1], s)
    ensures AnyRun(name, run + [s])
  {
    var more := run + [s];
    forall i, j | 0 <= i < j < |more| && j == i + 1 ensures NextAny(name, more[i], more[j]) {
      if j < |run| {
        assert NextAny(name, run[i], run[j]);
      }
    }
  }

  lemma FittingRunNext(name: Naming, run: seq<State>, s: State)
    requires FittingRun(name, run) && NextFitting(name, run[|run| - 1], s)
    ensures FittingRun(name, run + [s])
  {
    var more := run + [s];
    forall i, j | 0 <= i < j < |more| && j == i + 1 ensures NextFitting(name, more[i], more[j]) {
      if j < |run| {
        assert NextFitting(name, run[i], run[j]);
      }
    }
  }
}
