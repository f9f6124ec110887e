/** How the options of an add change the working Candidate (internal/repository/repository.go:119-286). */
module Authoring {
  import opened Ids
  import opened ObservedGraph
  import opened HeadSnapshot
  import opened Admission
  import opened RepositoryState

  // root and draft as given or not; cause with its selectors resolved.
  datatype AddOptions = AddOptions(content: string, cause: Option<CauseLink>, root: Option<bool>, clear: bool,
                                   draft: Option<bool>)

  datatype AddError = RootChoiceMissing | RootNeedsClear | RootWithCause

  // candidateForObservedEdit: the working Candidate, or one like the current head, or an empty one.
  function BaseCandidate(blobs: map<Id, Blob>, refs: Refs, candidates: map<Name, Candidate>, ref: Name): Candidate {
    if ref in candidates then candidates[ref]
    else if ref in refs && LoadSeal(blobs, refs[ref].head).Some? then
      var seal := LoadSeal(blobs, refs[ref].head).value;
      Candidate(ref, Some(refs[ref].head), seal.content, seal.attachments, seal.root, seal.draft, seal.links)
    else Candidate(ref, None, 0, [], false, false, [])
  }

  // A Candidate is edited on as it stands; a REF with neither Candidate nor head starts empty.
  lemma BaseOtherwise(blobs: map<Id, Blob>, refs: Refs, candidates: map<Name, Candidate>, ref: Name)
    ensures ref in candidates ==> BaseCandidate(blobs, refs, candidates, ref) == candidates[ref]
    ensures ref !in candidates && ref !in refs ==>
              var base := BaseCandidate(blobs, refs, candidates, ref);
              base.ref == ref && base.expected.None? && base.attachments == [] && base.links == []
              && !base.root && !base.draft
    ensures IsInitial(refs, candidates, ref) <==> ref !in candidates && HeadOf(refs, ref).None?
  {
  }

  // Without a Candidate of its own an existing REF starts from its head as it is stored:
  // sealing that again would name the head itself.
  lemma BaseIsHead(name: Naming, blobs: map<Id, Blob>, refs: Refs, candidates: map<Name, Candidate>, ref: Name)
    requires Addressed(name, blobs) && ref !in candidates && ref in refs && LoadSeal(blobs, refs[ref].head).Some?
    ensures var base := BaseCandidate(blobs, refs, candidates, ref);
            && base.ref == ref && base.expected == Some(refs[ref].head)
            && ProspectiveId(name, base) == refs[ref].head
            && LoadSeal(blobs, refs[ref].head) == Some(ProspectiveSeal(base))
  {
    var head := blobs[refs[ref].head];
    assert name(blobs[head.material]) == head.material && name(blobs[head.provenance]) == head.provenance;
  }

  predicate IsInitial(refs: Refs, candidates: map<Name, Candidate>, ref: Name) {
    ref !in candidates && ref !in refs
  }

  // The links to other targets, in order.
  function Without(links: seq<CauseLink>, target: Id): seq<CauseLink> {
    if links == [] then []
    else
      var last := links[|links| - 1];
      Without(links[..|links| - 1], target) + if last.target != target then [last] else []
  }

  lemma {:induction false} WithoutExact(links: seq<CauseLink>, target: Id)
    ensures forall l :: l in Without(links, target) <==> l in links && l.target != target
  {
    if links != [] {
      WithoutExact(links[..|links| - 1], target);
      assert links == links[..|links| - 1] + [links[|links| - 1]];
    }
  }

  // Where nothing has that target, nothing goes.
  lemma {:induction false} WithoutNone(links: seq<CauseLink>, target: Id)
    requires forall l :: l in links ==> l.target != target
    ensures Without(links, target) == links
  {
    if links != [] {
      var init, last := links[..|links| - 1], links[|links| - 1];
      assert links == init + [last] && last in links;
      forall l | l in init ensures l.target != target {
        assert l in links;
      }
      WithoutNone(init, target);
    }
  }

  method ReplaceCauseLink(links: seq<CauseLink>, replacement: CauseLink) returns (r: seq<CauseLink>)
    ensures r == Without(links, replacement.target) + [replacement]
  {
    r := [];
    for i := 0 to |links|
      invariant r == Without(links[..i], replacement.target)
    {
      assert links[..i + 1][..i] == links[..i];
      if links[i].target != replacement.target {
        r := r + [links[i]];
      }
    }
    assert links[..|links|] == links;
    r := r + [replacement];
  }

  // The flag the options leave on the Candidate.
  function Chosen(given: Option<bool>, kept: bool): bool {
    if given.Some? then given.value else kept
  }

  function AddRefusal(base: Candidate, initial: bool, o: AddOptions): Option<AddError> {
    if initial && o.root.None? then Some(RootChoiceMissing)
    else if o.root == Some(true) && !o.clear then Some(RootNeedsClear)
    else if o.cause.Some? && Chosen(o.root, base.root) then Some(RootWithCause)
    else None
  }

  // The Candidate after an accepted add: the links it keeps and the one it replaces.
  ghost predicate Edited(base: Candidate, o: AddOptions, content: Id, c: Candidate) {
    var kept := if o.clear then [] else base.links;
    && c.ref == base.ref && c.expected == base.expected && c.attachments == base.attachments && c.content == content
    && c.root == Chosen(o.root, base.root) && c.draft == Chosen(o.draft, base.draft)
    && c.links == if o.cause.Some? then Without(kept, o.cause.value.target) + [o.cause.value] else kept
  }

  // applyAddOptions.
  method ApplyAddOptions(base: Candidate, initial: bool, o: AddOptions, content: Id)
      returns (r: Result<Candidate, AddError>)
    ensures r.Failure? <==> AddRefusal(base, initial, o).Some?
    ensures r.Failure? ==> Some(r.error) == AddRefusal(base, initial, o)
    ensures r.Success? ==> Edited(base, o, content, r.value)
  {
    if initial && o.root.None? {
      return Failure(RootChoiceMissing);
    }
    var c := base.(content := content);
    if o.draft.Some? {
      c := c.(draft := o.draft.value);
    }
    if o.root.Some? {
      c := c.(root := o.root.value);
    }
    if o.root == Some(true) && !o.clear {
      return Failure(RootNeedsClear);
    }
    if o.clear {
      c := c.(links := []);
    }
    if o.cause.Some? {
      if c.root {
        return Failure(RootWithCause);
      }
      var links := ReplaceCauseLink(c.links, o.cause.value);
      c := c.(links := links);
    }
    r := Success(c);
  }

  // NormalizeProvenance: a root has no Causes, everything else has some.
  predicate RootShape(c: Candidate) {
    c.root <==> c.links == []
  }

  // An accepted add with a Cause always has that shape, whatever the Candidate was before:
  // the new link is there once, and every other target keeps its own.
  lemma CauseShapes(base: Candidate, initial: bool, o: AddOptions, content: Id, c: Candidate)
    requires AddRefusal(base, initial, o).None? && Edited(base, o, content, c) && o.cause.Some?
    ensures RootShape(c) && o.cause.value in c.links
    ensures forall l :: l in c.links && l.target == o.cause.value.target ==> l == o.cause.value
    ensures forall l: CauseLink :: l.target != o.cause.value.target ==> (l in c.links <==> !o.clear && l in base.links)
    ensures !o.clear && (forall l :: l in base.links ==> l.target != o.cause.value.target) ==>
              c.links == base.links + [o.cause.value]
  {
    if !o.clear && forall l :: l in base.links ==> l.target != o.cause.value.target {
      WithoutNone(base.links, o.cause.value.target);
    }
    WithoutExact(if o.clear then [] else base.links, o.cause.value.target);
  }

  // Without one, only a root transition reaches a Candidate that was fine before.
  lemma RootShapes(base: Candidate, initial: bool, o: AddOptions, content: Id, c: Candidate)
    requires AddRefusal(base, initial, o).None? && Edited(base, o, content, c) && o.cause.None?
    ensures RootShape(c) <==> if o.clear then Chosen(o.root, base.root)
              else Chosen(o.root, base.root) == (base.links == [])
  {
  }
}
