/** Historical review facts and reviewed admission (internal/repository/historical_review.go and
    historical_review_inspection.go). */
module HistoricalReview {
  import opened Ids
  import opened Walks
  import opened ObservedGraph
  import opened StalePaths
  import opened Admission

  const ATTACHMENT_NAME := "sealgraph-historical-review.json"
  const RETAIN := "retain"

  const MEDIA_TYPE := "application/vnd.sealgraph.historical-review+json"

  datatype RevisionState = ACTIVE_LEAF | ACTIVE_NON_LEAF | HISTORICAL_OR_DETACHED
  datatype Target = Target(target: Id, compared: seq<Id>, state: RevisionState, draft: bool)
  datatype Facts = Facts(ref: Ref, subject: Id, otherHeads: map<Ref, Id>, targets: seq<Target>)
  datatype Entry = Entry(target: Id, compared: seq<Id>, decision: string)
  datatype Record = Record(ref: Ref, subject: Id, otherHeads: map<Ref, Id>, entries: seq<Entry>)

  // ------------------------------------------------ the reviewed subject

  method WithoutReview(candidate: Candidate) returns (r: Candidate)
    ensures r == candidate.(attachments := Kept(candidate.attachments))
  {
    var attachments: seq<Attachment> := [];
    for i := 0 to |candidate.attachments|
      invariant attachments == Kept(candidate.attachments[..i])
    {
      assert candidate.attachments[..i + 1][..i] == candidate.attachments[..i];
      if candidate.attachments[i].name != ATTACHMENT_NAME {
        attachments := attachments + [candidate.attachments[i]];
      }
    }
    assert candidate.attachments[..|candidate.attachments|] == candidate.attachments;
    r := candidate.(attachments := attachments);
  }

  // The attachments other than the review record.
  function Kept(attachments: seq<Attachment>): seq<Attachment> {
    if attachments == [] then []
    else
      var last := attachments[|attachments| - 1];
      Kept(attachments[..|attachments| - 1]) + if last.name != ATTACHMENT_NAME then [last] else []
  }

  lemma {:induction false} KeptSplits(a: seq<Attachment>, b: seq<Attachment>)
    ensures Kept(a + b) == Kept(a) + Kept(b)
  {
    if b == [] {
      assert a + b == a;
    } else {
      var init := b[..|b| - 1];
      KeptSplits(a, init);
      assert (a + b)[..|a + b| - 1] == a + init;
    }
  }

  // Attaching a review record anywhere in the list, or replacing one, leaves the subject
  // the review is bound to unchanged, however a candidate is turned into an identity.
  lemma AttachingKeepsSubject(c: Candidate, identify: Candidate -> Id, before: seq<Attachment>,
          replaced: seq<Attachment>, after: seq<Attachment>, review: Attachment)
    requires c.attachments == before + replaced + after
    requires review.name == ATTACHMENT_NAME && forall i :: 0 <= i < |replaced| ==> replaced[i].name == ATTACHMENT_NAME
    ensures identify(c.(attachments := Kept(before + [review] + after)))
              == identify(c.(attachments := Kept(c.attachments)))
  {
    KeptSplits(before + [review], after);
    KeptSplits(before, [review]);
    KeptSplits(before + replaced, after);
    KeptSplits(before, replaced);
    KeptReviews(replaced);
    KeptReviews([review]);
  }

  lemma {:induction false} KeptReviews(reviews: seq<Attachment>)
    requires forall i :: 0 <= i < |reviews| ==> reviews[i].name == ATTACHMENT_NAME
    ensures Kept(reviews) == []
  {
    if reviews != [] {
      KeptReviews(reviews[..|reviews| - 1]);
    }
  }

  // -------------------------------------------------------------- facts

  // Every direct and transitive Cause target, sorted.
  method HistoricalCauseTargets(g: Graph, links: seq<CauseLink>) returns (r: seq<Id>)
    ensures Increasing(r)
    ensures forall x: Id {:trigger ReachedFrom(g.causes, Elems(LinkTargets(links)), x)} ::
              x in r <==> ReachedFrom(g.causes, Elems(LinkTargets(links)), x)
  {
    r := [];
    var stack := LinkTargets(links);
    ghost var from := Elems(stack);
    var seen: set<Id> := {};
    PendingStart(g.causes, stack);
    while stack != []
      invariant Pending(g.causes, from, seen, stack)
      invariant NoDup(r) && forall x: Id :: x in r <==> x in seen
      decreases |Universe(g.causes, from) - seen|, |stack|
    {
      var id := stack[|stack| - 1];
      PopLast(stack);
      PendingTake(g.causes, from, seen, stack, id, stack[..|stack| - 1]);
      stack := stack[..|stack| - 1];
      if id !in seen {
        seen := seen + {id};
        r := r + [id];
        stack := stack + Out(g.causes, id);
      }
    }
    PendingDone(g.causes, from, seen);
    SortIdsIncreasing(r);
    r := SortIds(r);
  }

  // The active leaves among the target and its successors, sorted.
  method ReviewComparisonLeaves(g: Graph, target: Id) returns (r: seq<Id>)
    ensures Increasing(r)
    ensures forall x: Id {:trigger Reaches(g.children, target, x)} ::
              x in r <==> Reaches(g.children, target, x) && ActiveLeaf(g.active, g.children, x)
  {
    r := [];
    var stack := [target];
    ghost var from := Elems(stack);
    var seen: set<Id> := {};
    PendingStart(g.children, stack);
    while stack != []
      invariant Pending(g.children, from, seen, stack)
      invariant NoDup(r) && forall x: Id :: x in r <==> x in seen && ActiveLeaf(g.active, g.children, x)
      decreases |Universe(g.children, from) - seen|, |stack|
    {
      var id := stack[|stack| - 1];
      PopLast(stack);
      PendingTake(g.children, from, seen, stack, id, stack[..|stack| - 1]);
      stack := stack[..|stack| - 1];
      if id !in seen {
        seen := seen + {id};
        if ActiveLeaf(g.active, g.children, id) {
          r := r + [id];
        }
        stack := stack + Out(g.children, id);
      }
    }
    PendingDone(g.children, from, seen);
    SortIdsIncreasing(r);
    r := SortIds(r);
    forall x: Id
      ensures ReachedFrom(g.children, from, x) <==> Reaches(g.children, target, x)
    {
      assert from == {target};
    }
  }

  // An active Seal always has an active leaf to be compared with: climb to an active
  // successor as long as there is one; the ranks of the revisions bound the climb.
  lemma {:induction false} ActiveHasLeaf(g: Graph, target: Id)
    requires g.Valid() && target in g.active
    ensures exists x: Id :: Reaches(g.children, target, x) && ActiveLeaf(g.active, g.children, x)
    decreases |Above(g.active, g.rank, RankOf(g.rank, target))|
  {
    ReachesSelf(g.children, target);
    if !ActiveLeaf(g.active, g.children, target) {
      var c: Id :| c in Out(g.children, target) && c in g.active;
      assert (target, c) in Swap(RevisionPairs(g.nodes));
      assert (c, target) in RevisionPairs(g.nodes);
      assert target in Out(g.revisions, c);
      AboveShrinks(g.active, g.rank, target, c);
      ActiveHasLeaf(g, c);
      var x: Id :| Reaches(g.children, c, x) && ActiveLeaf(g.active, g.children, x);
      ReachesFirstStep(g.children, target, c, x);
    }
  }

  ghost function Above(active: set<Id>, rank: map<Id, nat>, r: nat): set<Id> {
    set x | x in active && RankOf(rank, x) > r
  }

  lemma AboveShrinks(active: set<Id>, rank: map<Id, nat>, low: Id, high: Id)
    requires high in active && RankOf(rank, low) < RankOf(rank, high)
    ensures |Above(active, rank, RankOf(rank, high))| < |Above(active, rank, RankOf(rank, low))|
  {
    var a, b := Above(active, rank, RankOf(rank, high)), Above(active, rank, RankOf(rank, low));
    assert high in b && high !in a && a <= b;
    assert b == a + (b - a) && high in b - a;
  }

  // A map read of an absent Seal yields the zero value, which is no draft.
  predicate DraftSeal(nodes: map<Id, Seal>, id: Id) {
    id in nodes && nodes[id].draft
  }

  function StateIn(active: set<Id>, children: Edges, id: Id): RevisionState {
    if id !in active then HISTORICAL_OR_DETACHED
    else if ActiveLeaf(active, children, id) then ACTIVE_LEAF
    else ACTIVE_NON_LEAF
  }

  ghost predicate TargetFact(g: Graph, t: Target)
    reads g`nodes, g`active, g`children
  {
    && (t.draft <==> t.target in g.nodes && g.nodes[t.target].draft)
    && (t.state == HISTORICAL_OR_DETACHED <==> t.target !in g.active)
    && (t.state == ACTIVE_NON_LEAF <==>
          t.target in g.active && exists c: Id :: c in Out(g.children, t.target) && c in g.active)
    && (t.state == ACTIVE_LEAF <==>
          t.target in g.active && forall c: Id :: c in Out(g.children, t.target) ==> c !in g.active)
    && Increasing(t.compared)
    && forall x: Id {:trigger Reaches(g.children, t.target, x)} ::
         x in t.compared <==> Reaches(g.children, t.target, x) && ActiveLeaf(g.active, g.children, x)
  }

  ghost function TargetIds(targets: seq<Target>): seq<Id> {
    seq(|targets|, i requires 0 <= i < |targets| => targets[i].target)
  }

  // The facts a review of these links must cover: every reachable Cause once, in order.
  ghost predicate Covered(g: Graph, links: seq<CauseLink>, targets: seq<Target>)
    reads g`nodes, g`causes, g`active, g`children
  {
    && Increasing(TargetIds(targets))
    && (forall x: Id {:trigger ReachedFrom(g.causes, Elems(LinkTargets(links)), x)} ::
          x in TargetIds(targets) <==> ReachedFrom(g.causes, Elems(LinkTargets(links)), x))
    && forall t :: t in targets ==> TargetFact(g, t)
  }

  method ReviewTargets(g: Graph, links: seq<CauseLink>) returns (targets: seq<Target>)
    ensures Covered(g, links, targets)
  {
    targets := [];
    var ids := HistoricalCauseTargets(g, links);
    for i := 0 to |ids|
      invariant TargetIds(targets) == ids[..i]
      invariant forall t :: t in targets ==> TargetFact(g, t)
    {
      assert ids[i] in ids && ReachedFrom(g.causes, Elems(LinkTargets(links)), ids[i]);
      var leaves := ReviewComparisonLeaves(g, ids[i]);
      var t := Target(ids[i], leaves, StateIn(g.active, g.children, ids[i]), DraftSeal(g.nodes, ids[i]));
      assert TargetIds(targets + [t]) == TargetIds(targets) + [t.target] == ids[..i + 1];
      assert TargetFact(g, t);
      targets := targets + [t];
    }
    assert ids[..|ids|] == ids;
  }

  // ---------------------------------------------------------- admission

  datatype ReviewError = SubjectChanged | ObservationChanged | Coverage | Unconfirmed(at: Id) | DraftRelied(at: Id)

  ghost predicate Bound(record: Record, facts: Facts) {
    && record.ref == facts.ref && record.subject == facts.subject && record.otherHeads == facts.otherHeads
    && |record.entries| == |facts.targets|
    && forall i :: 0 <= i < |facts.targets| ==>
         record.entries[i].target == facts.targets[i].target && record.entries[i].compared == facts.targets[i].compared
  }

  // What the refusal of a record says, by the first check that fails.
  ghost predicate Unbound(record: Record, facts: Facts, e: ReviewError) {
    if record.ref != facts.ref || record.subject != facts.subject then e == SubjectChanged
    else if record.otherHeads != facts.otherHeads then e == ObservationChanged
    else e == Coverage && !Bound(record, facts)
  }

  method ValidateBinding(record: Record, facts: Facts) returns (err: Option<ReviewError>)
    ensures err.None? <==> Bound(record, facts)
    ensures err.Some? ==> Unbound(record, facts, err.value)
  {
    if record.ref != facts.ref || record.subject != facts.subject {
      return Some(SubjectChanged);
    }
    if record.otherHeads != facts.otherHeads {
      return Some(ObservationChanged);
    }
    if |record.entries| != |facts.targets| {
      return Some(Coverage);
    }
    for i := 0 to |facts.targets|
      invariant forall k :: 0 <= k < i ==>
                  record.entries[k].target == facts.targets[k].target
                      && record.entries[k].compared == facts.targets[k].compared
    {
      if record.entries[i].target != facts.targets[i].target
          || record.entries[i].compared != facts.targets[i].compared {
        return Some(Coverage);
      }
    }
    err := None;
  }

  ghost predicate Confirmed(record: Record, facts: Facts) {
    && Bound(record, facts)
    && (forall e :: e in record.entries ==> e.decision == RETAIN)
    && forall t :: t in facts.targets ==> !t.draft
  }

  // The first entry that is not retained, or retained although its Cause is a draft.
  ghost predicate Unretained(record: Record, facts: Facts, e: ReviewError)
    requires |record.entries| == |facts.targets|
  {
    exists i :: 0 <= i < |record.entries|
      && (forall k :: 0 <= k < i ==> record.entries[k].decision == RETAIN && !facts.targets[k].draft)
      && e == (if record.entries[i].decision != RETAIN then Unconfirmed(record.entries[i].target)
               else DraftRelied(record.entries[i].target))
      && (record.entries[i].decision != RETAIN || facts.targets[i].draft)
  }

  // Why a record does not confirm the facts.
  ghost predicate Refused(record: Record, facts: Facts, e: ReviewError) {
    if Bound(record, facts) then Unretained(record, facts, e) else Unbound(record, facts, e)
  }

  method ReviewAdmission(record: Record, facts: Facts) returns (err: Option<ReviewError>)
    ensures err.None? <==> Confirmed(record, facts)
    ensures err.Some? ==> Refused(record, facts, err.value)
  {
    err := ValidateBinding(record, facts);
    if err.Some? {
      return;
    }
    for i := 0 to |record.entries|
      invariant forall k :: 0 <= k < i ==> record.entries[k].decision == RETAIN && !facts.targets[k].draft
    {
      if record.entries[i].decision != RETAIN {
        assert record.entries[i] in record.entries;
        return Some(Unconfirmed(record.entries[i].target));
      }
      if facts.targets[i].draft {
        assert facts.targets[i] in facts.targets;
        return Some(DraftRelied(record.entries[i].target));
      }
    }
    err := None;
  }

  // An accepted review covers the Cause closure: each reachable Cause has exactly one
  // entry, it says retain, it is bound to exactly the active leaves among the successors
  // of that Cause, and the Cause is no draft. Nothing else is in the record.
  lemma AcceptedCovers(g: Graph, links: seq<CauseLink>, record: Record, facts: Facts, x: Id)
    requires Confirmed(record, facts) && Covered(g, links, facts.targets)
    ensures ReachedFrom(g.causes, Elems(LinkTargets(links)), x) <==> exists e :: e in record.entries && e.target == x
    ensures forall e, e' :: e in record.entries && e' in record.entries && e.target == x && e'.target == x ==> e == e'
    ensures forall e :: e in record.entries && e.target == x ==>
              e.decision == RETAIN && TargetFact(g, Target(x, e.compared, StateIn(g.active, g.children, x), false))
  {
    forall i | 0 <= i < |facts.targets| ensures TargetIds(facts.targets)[i] == record.entries[i].target {}
    forall e | e in record.entries && e.target == x
      ensures TargetFact(g, Target(x, e.compared, StateIn(g.active, g.children, x), false))
      ensures x in TargetIds(facts.targets)
    {
      var i :| 0 <= i < |record.entries| && record.entries[i] == e;
      assert facts.targets[i] in facts.targets;
      assert TargetIds(facts.targets)[i] == x;
    }
    if x in TargetIds(facts.targets) {
      var i :| 0 <= i < |facts.targets| && TargetIds(facts.targets)[i] == x;
      assert record.entries[i] in record.entries;
    }
    forall e, e' | e in record.entries && e' in record.entries && e.target == x && e'.target == x
      ensures e == e'
    {
      var i :| 0 <= i < |record.entries| && record.entries[i] == e;
      var j :| 0 <= j < |record.entries| && record.entries[j] == e';
      var ids := TargetIds(facts.targets);
      assert ids[i] == ids[j];
    }
  }
}
