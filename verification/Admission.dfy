/** Publication admission of a Candidate (internal/repository/observation_v5.go:266-316). */
module Admission {
  import opened Ids
  import opened Walks
  import opened ObservedGraph
  import opened StalePaths

  // Mutable publication intent for one REF.
  datatype Candidate = Candidate(ref: Ref, expected: Option<Id>, content: Id, attachments: seq<Attachment>,
                                 root: bool, draft: bool, links: seq<CauseLink>)

  datatype AdmissionError = AbsentCause(at: Id) | DraftCause(at: Id) | NotLeafCause(at: Id)

  function LinkTargets(links: seq<CauseLink>): (r: seq<Id>)
    ensures |r| == |links| && forall i :: 0 <= i < |r| ==> r[i] == links[i].target
  {
    seq(|links|, i requires 0 <= i < |links| => links[i].target)
  }

  // What admission asks of one Cause.
  predicate Fit(nodes: map<Id, Seal>, active: set<Id>, children: Edges, reviewed: bool, id: Id) {
    id in nodes && !nodes[id].draft && (reviewed || ActiveLeaf(active, children, id))
  }

  ghost predicate Refuses(g: Graph, targets: set<Id>, reviewed: bool, e: AdmissionError)
    reads g`nodes, g`causes, g`active, g`children
  {
    && ReachedFrom(g.causes, targets, e.at)
    && match e
       case AbsentCause(at) => at !in g.nodes
       case DraftCause(at) => at in g.nodes && g.nodes[at].draft
       case NotLeafCause(at) => at in g.nodes && !reviewed && !ActiveLeaf(g.active, g.children, at)
  }

  // Every Cause the Candidate reaches is fit.
  ghost predicate AllFit(g: Graph, targets: set<Id>, reviewed: bool)
    reads g`nodes, g`causes, g`active, g`children
  {
    forall x: Id {:trigger ReachedFrom(g.causes, targets, x)} ::
      ReachedFrom(g.causes, targets, x) ==> Fit(g.nodes, g.active, g.children, reviewed, x)
  }

  // The closure walk over the Causes of the Candidate: each is inspected once.
  method AdmitCauses(g: Graph, links: seq<CauseLink>, reviewed: bool) returns (err: Option<AdmissionError>)
    ensures err.None? <==> AllFit(g, Elems(LinkTargets(links)), reviewed)
    ensures err.Some? ==> Refuses(g, Elems(LinkTargets(links)), reviewed, err.value)
  {
    var stack := LinkTargets(links);
    ghost var from := Elems(stack);
    var seen: set<Id> := {};
    PendingStart(g.causes, stack);
    while stack != []
      invariant Pending(g.causes, from, seen, stack)
      invariant forall x: Id :: x in seen ==> Fit(g.nodes, g.active, g.children, reviewed, x)
      decreases |Universe(g.causes, from) - seen|, |stack|
    {
      var id := stack[|stack| - 1];
      PopLast(stack);
      PendingTake(g.causes, from, seen, stack, id, stack[..|stack| - 1]);
      assert id in stack && ReachedFrom(g.causes, from, id);
      stack := stack[..|stack| - 1];
      if id !in seen {
        if id !in g.nodes {
          return Some(AbsentCause(id));
        }
        if g.nodes[id].draft {
          return Some(DraftCause(id));
        }
        if !reviewed && !ActiveLeaf(g.active, g.children, id) {
          return Some(NotLeafCause(id));
        }
        seen := seen + {id};
        stack := stack + Out(g.causes, id);
      }
    }
    PendingDone(g.causes, from, seen);
    err := None;
  }

  // A normally admitted head is clean: in the graph it was admitted against, neither a
  // direct target nor any deeper Cause is stale.
  lemma AdmittedIsClean(g: Graph, head: Id, links: seq<CauseLink>)
    requires g.Gathered() && head in g.nodes && g.nodes[head].links == links
    requires AllFit(g, Elems(LinkTargets(links)), false)
    ensures !ReliesOnStale(g.causes, NonLeaves(g.active, g.children), head)
  {
    var targets := Elems(LinkTargets(links));
    forall t: Id, y: Id | t in Out(g.causes, head) && Reaches(g.causes, t, y)
      ensures ActiveLeaf(g.active, g.children, y)
    {
      assert (head, t) in CausePairs(g.nodes);
      var l :| l in g.nodes[head].links && l.target == t;
      var i :| 0 <= i < |links| && links[i] == l;
      assert LinkTargets(links)[i] == t;
      assert t in targets;
      assert ReachedFrom(g.causes, targets, y);
    }
    forall t: Id, y: Id ensures !Relies(g.causes, NonLeaves(g.active, g.children), head, t, y) {
      if t in Out(g.causes, head) && Reaches(g.causes, t, y) {
        assert ActiveLeaf(g.active, g.children, y);
      }
    }
  }

  // Conversely a head with a stale Cause below it is refused normal admission.
  lemma StaleIsRefused(g: Graph, head: Id, links: seq<CauseLink>)
    requires g.Gathered() && head in g.nodes && g.nodes[head].links == links
    requires ReliesOnStale(g.causes, NonLeaves(g.active, g.children), head)
    ensures !AllFit(g, Elems(LinkTargets(links)), false)
  {
    if AllFit(g, Elems(LinkTargets(links)), false) {
      AdmittedIsClean(g, head, links);
    }
  }

  // Admission depends on the graph only as a relation.
  lemma FitSame(g: Graph, h: Graph, targets: set<Id>, reviewed: bool)
    requires g.nodes == h.nodes && g.active == h.active
    requires SameEdges(g.causes, h.causes) && SameEdges(g.children, h.children)
    requires AllFit(g, targets, reviewed)
    ensures AllFit(h, targets, reviewed)
  {
    SameReach(g.causes, h.causes);
    forall x: Id | ReachedFrom(h.causes, targets, x) ensures Fit(h.nodes, h.active, h.children, reviewed, x) {
      assert ReachedFrom(g.causes, targets, x);
      assert forall c: Id :: c in Out(h.children, x) ==> c in Out(g.children, x);
    }
  }

  // What the status of a freshly admitted head says: staleFacts on the admission graph.
  method AdmittedStatus(g: Graph, head: Id, links: seq<CauseLink>) returns (direct: seq<Id>, transitive: seq<Path>)
    requires Acyclically(g) && StaleMemo(g) && g.Gathered()
    requires head in g.nodes && g.nodes[head].links == links
    requires AllFit(g, Elems(LinkTargets(links)), false)
    modifies g`stalePaths
    ensures direct == [] && transitive == []
  {
    AdmittedIsClean(g, head, links);
    ghost var stop := NonLeaves(g.active, g.children);
    var self;
    self, direct, transitive := StaleFacts(g, head);
    StaleFactsMeaning(g.causes, stop, head, direct, transitive);
  }
}
