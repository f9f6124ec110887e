/** Projecting format-4 Seals to format 5 (internal/migration/project_v5.go). */
module Projection {
  import opened Ids
  import opened Walks
  import opened DepthFirst
  import opened ObservedGraph
  import opened SealOrder
  import opened Text

  datatype ParentAssertion = ParentAssertion(observer: Id, child: Id, parent: Id)
  datatype UnobservedParent = UnobservedParent(child: Id, parent: Id)
  datatype MergedLink = MergedLink(observer: Id, oldTargets: seq<Id>, newTarget: Id)
  datatype Group = Group(target: Id, oldTargets: seq<Id>, previous: seq<Id>, messages: seq<string>)
  datatype OneSealSemantic = OneSealSemantic(materialized: seq<ParentAssertion>, collapsed: seq<ParentAssertion>,
      merged: seq<MergedLink>)
  datatype ProjectedSeal = ProjectedSeal(oldId: Id, newId: Id, seal: Seal)
  datatype ProjectError = NoEarlierMapping(observer: Id, missing: Id) | CollapseCycle(why: GraphError)

  type Mapping = map<Id, Id>

  // Material and Provenance encoded and hashed: the format-5 identity of a Seal's content.
  type Naming = Seal -> Id

  ghost predicate Distinguishes(name: Naming) {
    forall a: Seal, b: Seal :: name(a) == name(b) ==> a == b
  }

  function New(m: Mapping, id: Id): Id {
    if id in m then m[id] else id
  }

  function ParentOf(table: map<Id, Payload>, id: Id): Option<Id> {
    if id in table then table[id].parent else None
  }

  // ------------------------------------------- what a Seal's links turn into

  // The old targets that become t.
  ghost function TargetsOnto(links: seq<Link>, m: Mapping, t: Id): set<Id> {
    set l | l in links && New(m, l.target) == t :: l.target
  }

  ghost function MessagesOnto(links: seq<Link>, m: Mapping, t: Id): set<string> {
    set l | l in links && New(m, l.target) == t :: l.message
  }

  ghost predicate Observes(links: seq<Link>, c: Id) {
    exists l :: l in links && l.target == c
  }

  // The images of their parents, except t itself.
  ghost function PreviousOnto(links: seq<Link>, table: map<Id, Payload>, m: Mapping, t: Id): set<Id> {
    set l | l in links && New(m, l.target) == t && ParentOf(table, l.target).Some?
        && New(m, ParentOf(table, l.target).value) != t
      :: New(m, ParentOf(table, l.target).value)
  }

  // Parent edges of observed targets that survive, and those whose two ends became one.
  ghost function MaterializedBy(o: Id, links: seq<Link>, table: map<Id, Payload>, m: Mapping): set<ParentAssertion> {
    set l | l in links && ParentOf(table, l.target).Some? && New(m, ParentOf(table, l.target).value) != New(m, l.target)
      :: ParentAssertion(o, l.target, ParentOf(table, l.target).value)
  }

  ghost function CollapsedBy(o: Id, links: seq<Link>, table: map<Id, Payload>, m: Mapping): set<ParentAssertion> {
    set l | l in links && ParentOf(table, l.target).Some? && New(m, ParentOf(table, l.target).value) == New(m, l.target)
      :: ParentAssertion(o, l.target, ParentOf(table, l.target).value)
  }

  // The new Cause links: one for each image of an old target, holding what its group says.
  ghost predicate Projects(links: seq<CauseLink>, was: seq<Link>, table: map<Id, Payload>, m: Mapping) {
    && (forall i, j :: 0 <= i < j < |links| ==> links[i].target < links[j].target)
    && (forall t: Id {:trigger TargetsOnto(was, m, t)} :: (exists l :: l in links && l.target == t) <==>
         TargetsOnto(was, m, t) != {})
    && (forall l :: l in links ==> LinkFor(l, was, table, m))
  }

  ghost predicate Merges(merged: seq<MergedLink>, o: Id, links: seq<Link>, m: Mapping) {
    NoDup(merged) && forall g :: g in merged <==> IsMerge(g, o, links, m)
  }

  // Every target and every parent of a target is mapped already.
  ghost predicate Mapped(links: seq<Link>, table: map<Id, Payload>, m: Mapping) {
    forall l :: l in links ==>
        && l.target in m
        && (ParentOf(table, l.target).Some? ==> ParentOf(table, l.target).value in m)
  }

  // This target, or parent of a target, is not mapped.
  ghost predicate Misses(links: seq<Link>, table: map<Id, Payload>, m: Mapping, x: Id) {
    x !in m && exists l :: l in links && (x == l.target || ParentOf(table, l.target) == Some(x))
  }

  // ------------------------------------------------------------ grouping

  ghost predicate Holds<T>(s: seq<T>, all: set<T>) {
    NoDup(s) && Elems(s) == all
  }

  lemma AppendHolds<T>(s: seq<T>, all: set<T>, x: T)
    requires Holds(s, all)
    ensures Holds(AppendUnique(s, x), all + {x})
  {
  }

  // The group of t so far says exactly what the links seen so far say about t.
  ghost predicate GroupFor(g: Group, t: Id, links: seq<Link>, table: map<Id, Payload>, m: Mapping) {
    && g.target == t
    && Holds(g.oldTargets, TargetsOnto(links, m, t))
    && Holds(g.previous, PreviousOnto(links, table, m, t))
    && Holds(g.messages, MessagesOnto(links, m, t))
  }

  function GroupAt(groups: map<Id, Group>, t: Id): Group {
    if t in groups then groups[t] else Group(t, [], [], [])
  }

  ghost predicate Grouped(groups: map<Id, Group>, links: seq<Link>, table: map<Id, Payload>, m: Mapping) {
    forall t: Id {:trigger GroupAt(groups, t)} ::
      GroupFor(GroupAt(groups, t), t, links, table, m) && (t in groups <==> TargetsOnto(links, m, t) != {})
  }

  lemma GroupedNone(table: map<Id, Payload>, m: Mapping)
    ensures Grouped(map[], [], table, m)
  {
  }

  // What one more link adds to each set.
  lemma OntoNext(links: seq<Link>, l: Link, table: map<Id, Payload>, m: Mapping, t: Id)
    ensures TargetsOnto(links + [l], m, t) == TargetsOnto(links, m, t)
              + (if New(m, l.target) == t then {l.target} else {})
    ensures MessagesOnto(links + [l], m, t) == MessagesOnto(links, m, t)
              + (if New(m, l.target) == t then {l.message} else {})
    ensures PreviousOnto(links + [l], table, m, t) == PreviousOnto(links, table, m, t) +
              (if New(m, l.target) == t && ParentOf(table, l.target).Some?
                  && New(m, ParentOf(table, l.target).value) != t
               then {New(m, ParentOf(table, l.target).value)} else {})
  {
    assert forall x :: x in links + [l] <==> x in links || x == l;
  }

  lemma SemanticNext(o: Id, links: seq<Link>, l: Link, table: map<Id, Payload>, m: Mapping)
    ensures MaterializedBy(o, links + [l], table, m) == MaterializedBy(o, links, table, m) +
              (if ParentOf(table, l.target).Some? && New(m, ParentOf(table, l.target).value) != New(m, l.target)
               then {ParentAssertion(o, l.target, ParentOf(table, l.target).value)} else {})
    ensures CollapsedBy(o, links + [l], table, m) == CollapsedBy(o, links, table, m) +
              (if ParentOf(table, l.target).Some? && New(m, ParentOf(table, l.target).value) == New(m, l.target)
               then {ParentAssertion(o, l.target, ParentOf(table, l.target).value)} else {})
  {
    assert forall x :: x in links + [l] <==> x in links || x == l;
  }

  // The group of the link's image after the link was entered.
  function Joined(g: Group, l: Link, table: map<Id, Payload>, m: Mapping): Group {
    var parent := ParentOf(table, l.target);
    Group(g.target, AppendUnique(g.oldTargets, l.target),
          if parent.Some? && New(m, parent.value) != New(m, l.target) then
              AppendUnique(g.previous, New(m, parent.value)) else g.previous,
          AppendUnique(g.messages, l.message))
  }

  lemma JoinedFor(g: Group, links: seq<Link>, l: Link, table: map<Id, Payload>, m: Mapping)
    requires GroupFor(g, New(m, l.target), links, table, m)
    ensures GroupFor(Joined(g, l, table, m), New(m, l.target), links + [l], table, m)
  {
    var t, parent := New(m, l.target), ParentOf(table, l.target);
    OntoNext(links, l, table, m, t);
    AppendHolds(g.oldTargets, TargetsOnto(links, m, t), l.target);
    AppendHolds(g.messages, MessagesOnto(links, m, t), l.message);
    if parent.Some? {
      AppendHolds(g.previous, PreviousOnto(links, table, m, t), New(m, parent.value));
    }
  }

  lemma GroupedNext(groups: map<Id, Group>, links: seq<Link>, l: Link, table: map<Id, Payload>, m: Mapping)
    requires Grouped(groups, links, table, m)
    ensures var t := New(m, l.target);
            Grouped(groups[t := Joined(GroupAt(groups, t), l, table, m)], links + [l], table, m)
  {
    var t := New(m, l.target);
    var more := groups[t := Joined(GroupAt(groups, t), l, table, m)];
    assert GroupFor(GroupAt(groups, t), t, links, table, m);
    JoinedFor(GroupAt(groups, t), links, l, table, m);
    forall u: Id
      ensures GroupFor(GroupAt(more, u), u, links + [l], table, m)
                && (u in more <==> TargetsOnto(links + [l], m, u) != {})
    {
      assert GroupFor(GroupAt(groups, u), u, links, table, m);
      OntoNext(links, l, table, m, u);
      if u == t {
        assert l.target in TargetsOnto(links + [l], m, u);
      } else {
        assert GroupAt(more, u) == GroupAt(groups, u);
      }
    }
  }

  ghost predicate Once(sem: OneSealSemantic) {
    NoDup(sem.materialized) && NoDup(sem.collapsed)
  }

  // One old link: its group, and how its target's parent edge is classified.
  method GroupLink(observer: Id, l: Link, groups: map<Id, Group>, table: map<Id, Payload>, m: Mapping,
          sem: OneSealSemantic, ghost links: seq<Link>)
      returns (res: Result<(map<Id, Group>, OneSealSemantic), ProjectError>)
    requires Grouped(groups, links, table, m)
    requires Tallied(observer, sem, links, table, m)
    ensures res.Success? <==> Mapped([l], table, m)
    ensures res.Failure? ==> res.error.NoEarlierMapping? && res.error.observer == observer
    ensures res.Failure? ==> Misses([l], table, m, res.error.missing)
    ensures res.Success? ==> Grouped(res.value.0, links + [l], table, m) && res.value.1.merged == sem.merged
    ensures res.Success? ==> Tallied(observer, res.value.1, links + [l], table, m)
    ensures res.Success? && !Observes(links, l.target) && Once(sem) ==> Once(res.value.1)
  {
    if l.target !in m {
      assert l in [l];
      return Failure(NoEarlierMapping(observer, l.target));
    }
    GroupedNext(groups, links, l, table, m);
    SemanticNext(observer, links, l, table, m);
    var t := m[l.target];
    var group := GroupAt(groups, t);
    group := group.(oldTargets := AppendUnique(group.oldTargets, l.target),
        messages := AppendUnique(group.messages, l.message));
    var parent := ParentOf(table, l.target);
    if parent.None? {
      return Success((groups[t := group], sem));
    }
    if parent.value !in m {
      assert l in [l];
      return Failure(NoEarlierMapping(observer, parent.value));
    }
    var assertion := ParentAssertion(observer, l.target, parent.value);
    if m[parent.value] == t {
      AddedElem(sem.collapsed, assertion);
      res := Success((groups[t := group], sem.(collapsed := sem.collapsed + [assertion])));
    } else {
      group := group.(previous := AppendUnique(group.previous, m[parent.value]));
      AddedElem(sem.materialized, assertion);
      res := Success((groups[t := group], sem.(materialized := sem.materialized + [assertion])));
    }
  }

  lemma AddedElem<T>(s: seq<T>, x: T)
    ensures Elems(s + [x]) == Elems(s) + {x}
  {
  }

  ghost predicate DistinctTargets(links: seq<Link>) {
    forall i, j :: 0 <= i < j < |links| ==> links[i].target != links[j].target
  }

  lemma FreshTarget(links: seq<Link>, k: nat)
    requires k < |links|
    ensures DistinctTargets(links) ==> !Observes(links[..k], links[k].target)
  {
  }

  lemma MappedNext(links: seq<Link>, k: nat, table: map<Id, Payload>, m: Mapping)
    requires k < |links| && Mapped(links[..k], table, m)
    ensures Mapped(links[..k + 1], table, m) <==> Mapped([links[k]], table, m)
    ensures !Mapped([links[k]], table, m) ==> !Mapped(links, table, m)
  {
    TakeNext(links, k);
    assert links[k] in links && links[k] in [links[k]];
  }

  ghost predicate Tallied(observer: Id, sem: OneSealSemantic, links: seq<Link>, table: map<Id, Payload>, m: Mapping) {
    && Elems(sem.materialized) == MaterializedBy(observer, links, table, m)
    && Elems(sem.collapsed) == CollapsedBy(observer, links, table, m)
  }

  // The whole of one Seal's links, grouped by the image of their targets.
  method GroupLinks(observer: Id, links: seq<Link>, table: map<Id, Payload>, m: Mapping)
      returns (res: Result<(map<Id, Group>, OneSealSemantic), ProjectError>)
    ensures res.Success? <==> Mapped(links, table, m)
    ensures res.Failure? ==> res.error.NoEarlierMapping? && res.error.observer == observer
    ensures res.Failure? ==> Misses(links, table, m, res.error.missing)
    ensures res.Success? ==> Grouped(res.value.0, links, table, m) && res.value.1.merged == []
    ensures res.Success? ==> Tallied(observer, res.value.1, links, table, m)
    ensures res.Success? && DistinctTargets(links) ==> Once(res.value.1)
  {
    var groups: map<Id, Group> := map[];
    var sem := OneSealSemantic([], [], []);
    GroupedNone(table, m);
    var k := 0;
    while k < |links|
      invariant k <= |links| && Mapped(links[..k], table, m) && sem.merged == []
      invariant Grouped(groups, links[..k], table, m)
      invariant Tallied(observer, sem, links[..k], table, m)
      invariant DistinctTargets(links) ==> Once(sem)
    {
      TakeNext(links, k);
      FreshTarget(links, k);
      MappedNext(links, k, table, m);
      var one := GroupLink(observer, links[k], groups, table, m, sem, links[..k]);
      if one.Failure? {
        return Failure(one.error);
      }
      groups, sem := one.value.0, one.value.1;
      k := k + 1;
    }
    assert links[..k] == links;
    res := Success((groups, sem));
  }

  // The groups in target order, their lists sorted, and the record of those that merge.
  method EmitGroups(observer: Id, groups: map<Id, Group>, ghost links: seq<Link>, ghost table: map<Id, Payload>,
          ghost m: Mapping)
      returns (result: seq<CauseLink>, merged: seq<MergedLink>)
    requires Grouped(groups, links, table, m)
    ensures Projects(result, links, table, m) && Merges(merged, observer, links, m)
  {
    var keys := SortedKeys(groups.Keys);
    result, merged := [], [];
    var k := 0;
    while k < |keys|
      invariant k <= |keys|
      invariant Emitted(result, keys[..k], links, table, m)
      invariant MergedUpTo(merged, observer, keys[..k], links, m)
    {
      assert keys[k] in keys;
      assert GroupFor(GroupAt(groups, keys[k]), keys[k], links, table, m);
      var group := groups[keys[k]];
      TakeNext(keys, k);
      EmitNext(result, keys, k, group, links, table, m);
      var oldTargets := SortIds(group.oldTargets);
      SortedTargets(group, keys[k], links, table, m);
      MergedNext(merged, observer, keys, k, oldTargets, links, m);
      result := result + [CauseLink(group.target, SortIds(group.previous), SortTexts(group.messages))];
      if |oldTargets| > 1 {
        merged := merged + [MergedLink(observer, oldTargets, group.target)];
      }
      k := k + 1;
    }
    assert keys[..k] == keys;
    AllEmitted(result, keys, groups, links, table, m);
    AllMerged(merged, observer, keys, groups, links, table, m);
  }

  ghost predicate Emitted(result: seq<CauseLink>, keys: seq<Id>, links: seq<Link>, table: map<Id, Payload>,
          m: Mapping)
  {
    |result| == |keys| && forall i :: 0 <= i < |keys| ==>
        result[i].target == keys[i] && LinkFor(result[i], links, table, m)
  }

  ghost predicate LinkFor(l: CauseLink, links: seq<Link>, table: map<Id, Payload>, m: Mapping) {
    && Increasing(l.previous) && Elems(l.previous) == PreviousOnto(links, table, m, l.target)
    && TextsSorted(l.messages) && Elems(l.messages) == MessagesOnto(links, m, l.target)
  }

  lemma EmitNext(result: seq<CauseLink>, keys: seq<Id>, k: nat, group: Group, links: seq<Link>, table: map<Id,
          Payload>, m: Mapping)
    requires k < |keys| && Emitted(result, keys[..k], links, table, m) && GroupFor(group, keys[k], links, table, m)
    ensures Emitted(result + [CauseLink(group.target, SortIds(group.previous), SortTexts(group.messages))],
              keys[..k + 1], links, table, m)
  {
    TakeNext(keys, k);
    SortIdsIncreasing(group.previous);
    SortTextsSorted(group.messages);
    assert Elems(SortIds(group.previous)) == Elems(group.previous);
    assert Elems(SortTexts(group.messages)) == Elems(group.messages);
  }

  lemma SortedTargets(group: Group, t: Id, links: seq<Link>, table: map<Id, Payload>, m: Mapping)
    requires GroupFor(group, t, links, table, m)
    ensures Increasing(SortIds(group.oldTargets)) && Elems(SortIds(group.oldTargets)) == TargetsOnto(links, m, t)
  {
    SortIdsIncreasing(group.oldTargets);
  }

  ghost predicate IsMerge(g: MergedLink, o: Id, links: seq<Link>, m: Mapping) {
    g.observer == o && Increasing(g.oldTargets) && |g.oldTargets| > 1
        && Elems(g.oldTargets) == TargetsOnto(links, m, g.newTarget)
  }

  ghost predicate MergedUpTo(merged: seq<MergedLink>, o: Id, keys: seq<Id>, links: seq<Link>, m: Mapping) {
    NoDup(merged) && forall g: MergedLink :: g in merged <==> g.newTarget in keys && IsMerge(g, o, links, m)
  }

  lemma MergedNext(merged: seq<MergedLink>, o: Id, keys: seq<Id>, k: nat, oldTargets: seq<Id>, links: seq<Link>,
          m: Mapping)
    requires k < |keys| && MergedUpTo(merged, o, keys[..k], links, m) && Increasing(keys)
    requires Increasing(oldTargets) && Elems(oldTargets) == TargetsOnto(links, m, keys[k])
    ensures |oldTargets| > 1 ==> MergedUpTo(merged + [MergedLink(o, oldTargets, keys[k])], o, keys[..k + 1], links, m)
    ensures |oldTargets| <= 1 ==> MergedUpTo(merged, o, keys[..k + 1], links, m)
  {
    TakeNext(keys, k);
    assert keys[k] !in keys[..k];
    forall g: MergedLink | g.newTarget == keys[k] && IsMerge(g, o, links, m) ensures g.oldTargets == oldTargets {
      SameElems(g.oldTargets, oldTargets);
    }
    NoDupConcat(merged, [MergedLink(o, oldTargets, keys[k])]);
  }

  lemma SameElems(a: seq<Id>, b: seq<Id>)
    requires Increasing(a) && Increasing(b) && Elems(a) == Elems(b)
    ensures a == b
  {
    forall x ensures x in a <==> x in b {
      assert x in Elems(a) <==> x in Elems(b);
    }
    IncreasingUnique(a, b);
  }

  lemma AllEmitted(result: seq<CauseLink>, keys: seq<Id>, groups: map<Id, Group>, links: seq<Link>, table: map<Id,
          Payload>, m: Mapping)
    requires Increasing(keys) && Emitted(result, keys, links, table, m)
    requires Grouped(groups, links, table, m) && forall x: Id :: x in keys <==> x in groups
    ensures Projects(result, links, table, m)
  {
    forall t: Id ensures (exists l :: l in result && l.target == t) <==> TargetsOnto(links, m, t) != {} {
      assert GroupFor(GroupAt(groups, t), t, links, table, m);
      if t in keys {
        var i :| 0 <= i < |keys| && keys[i] == t;
        assert result[i] in result && result[i].target == t;
      }
    }
  }

  lemma AllMerged(merged: seq<MergedLink>, o: Id, keys: seq<Id>, groups: map<Id, Group>, links: seq<Link>,
          table: map<Id, Payload>, m: Mapping)
    requires MergedUpTo(merged, o, keys, links, m)
    requires Grouped(groups, links, table, m) && forall x: Id :: x in keys <==> x in groups
    ensures Merges(merged, o, links, m)
  {
    forall g: MergedLink | IsMerge(g, o, links, m) ensures g.newTarget in keys {
      assert GroupFor(GroupAt(groups, g.newTarget), g.newTarget, links, table, m);
      assert g.oldTargets[0] in Elems(g.oldTargets);
    }
  }

  // projectCauseLinks. It fails exactly when a target, or a target's parent, comes later.
  method ProjectCauseLinks(observer: SealRecord, table: map<Id, Payload>, m: Mapping)
      returns (res: Result<(seq<CauseLink>, OneSealSemantic), ProjectError>)
    ensures res.Success? <==> Mapped(observer.payload.links, table, m)
    ensures res.Failure? ==> res.error.NoEarlierMapping? && res.error.observer == observer.id
    ensures res.Failure? ==> Misses(observer.payload.links, table, m, res.error.missing)
    ensures res.Success? ==>
              && Projects(res.value.0, observer.payload.links, table, m)
              && Accounts(res.value.1, observer, table, m)
  {
    var grouped := GroupLinks(observer.id, observer.payload.links, table, m);
    if grouped.Failure? {
      return Failure(grouped.error);
    }
    var links, merged := EmitGroups(observer.id, grouped.value.0, observer.payload.links, table, m);
    res := Success((links, grouped.value.1.(merged := merged)));
  }

  // What is reported about one observer.
  ghost predicate Accounts(sem: OneSealSemantic, o: SealRecord, table: map<Id, Payload>, m: Mapping) {
    && Tallied(o.id, sem, o.payload.links, table, m)
    && Merges(sem.merged, o.id, o.payload.links, m)
    && (DistinctTargets(o.payload.links) ==> Once(sem))
  }

  // ------------------------------------------------------- all Seals, in order

  datatype Projected = Projected(seals: seq<ProjectedSeal>, toNew: Mapping, materialized: seq<ParentAssertion>,
                                 collapsed: seq<ParentAssertion>, merged: seq<MergedLink>)

  function Lift(p: Payload, links: seq<CauseLink>): Seal {
    Seal(p.content, p.attachments, p.root, p.draft, links)
  }

  // Content, attachments and both flags are the record's own.
  ghost predicate Carries(s: Seal, p: Payload) {
    s.content == p.content && s.attachments == p.attachments && s.root == p.root && s.draft == p.draft
  }

  // The record's image: the same content, the projected links, named by what it holds.
  ghost predicate IsImage(s: ProjectedSeal, r: SealRecord, name: Naming, table: map<Id, Payload>, m: Mapping) {
    && s.oldId == r.id && r.id in m && m[r.id] == s.newId && s.newId == name(s.seal)
    && Carries(s.seal, r.payload)
    && Mapped(r.payload.links, table, m) && Projects(s.seal.links, r.payload.links, table, m)
  }

  ghost function AllMaterialized(dump: seq<SealRecord>, table: map<Id, Payload>, m: Mapping): set<ParentAssertion> {
    set r, a | r in dump && a in MaterializedBy(r.id, r.payload.links, table, m) :: a
  }

  ghost function AllCollapsed(dump: seq<SealRecord>, table: map<Id, Payload>, m: Mapping): set<ParentAssertion> {
    set r, a | r in dump && a in CollapsedBy(r.id, r.payload.links, table, m) :: a
  }

  ghost predicate AllMerges(merged: seq<MergedLink>, dump: seq<SealRecord>, m: Mapping) {
    NoDup(merged) && forall g: MergedLink :: g in merged <==>
        exists r :: r in dump && IsMerge(g, r.id, r.payload.links, m)
  }

  ghost predicate AllDistinct(dump: seq<SealRecord>) {
    forall r :: r in dump ==> DistinctTargets(r.payload.links)
  }

  // The projection of the records seen so far.
  ghost predicate IsProjection(p: Projected, dump: seq<SealRecord>, name: Naming, table: map<Id, Payload>) {
    && p.toNew.Keys == Elems(IdsOf(dump))
    && |p.seals| == |dump| && (forall i :: 0 <= i < |dump| ==> IsImage(p.seals[i], dump[i], name, table, p.toNew))
    && Elems(p.materialized) == AllMaterialized(dump, table, p.toNew)
    && Elems(p.collapsed) == AllCollapsed(dump, table, p.toNew)
    && AllMerges(p.merged, dump, p.toNew)
    && (AllDistinct(dump) ==> NoDup(p.materialized) && NoDup(p.collapsed))
  }

  ghost predicate Grows(m: Mapping, more: Mapping) {
    forall id: Id :: id in m ==> id in more && more[id] == m[id]
  }

  // A mapped Seal's projection does not depend on what is mapped later.
  lemma Stable(links: seq<Link>, table: map<Id, Payload>, m: Mapping, more: Mapping, o: Id)
    requires Mapped(links, table, m) && Grows(m, more)
    ensures Mapped(links, table, more)
    ensures forall t: Id {:trigger TargetsOnto(links, more, t)} ::
              TargetsOnto(links, more, t) == TargetsOnto(links, m, t)
    ensures forall t: Id {:trigger MessagesOnto(links, more, t)} ::
              MessagesOnto(links, more, t) == MessagesOnto(links, m, t)
    ensures forall t: Id {:trigger PreviousOnto(links, table, more, t)} ::
              PreviousOnto(links, table, more, t) == PreviousOnto(links, table, m, t)
    ensures MaterializedBy(o, links, table, more) == MaterializedBy(o, links, table, m)
    ensures CollapsedBy(o, links, table, more) == CollapsedBy(o, links, table, m)
  {
  }

  lemma StableProjects(was: seq<CauseLink>, links: seq<Link>, table: map<Id, Payload>, m: Mapping, more: Mapping)
    requires Mapped(links, table, m) && Grows(m, more) && Projects(was, links, table, m)
    ensures Projects(was, links, table, more)
  {
    Stable(links, table, m, more, 0);
    forall t: Id ensures (exists l :: l in was && l.target == t) <==> TargetsOnto(links, more, t) != {} {
      assert TargetsOnto(links, more, t) == TargetsOnto(links, m, t);
    }
    forall l | l in was ensures LinkFor(l, links, table, more) {
      assert LinkFor(l, links, table, m);
    }
  }

  lemma StableImage(s: ProjectedSeal, r: SealRecord, name: Naming, table: map<Id, Payload>, m: Mapping, more: Mapping)
    requires IsImage(s, r, name, table, m) && Grows(m, more)
    ensures IsImage(s, r, name, table, more)
  {
    Stable(r.payload.links, table, m, more, r.id);
    StableProjects(s.seal.links, r.payload.links, table, m, more);
  }

  // Every record of the dump is mapped, so the reports do not change either.
  lemma StableReports(dump: seq<SealRecord>, table: map<Id, Payload>, m: Mapping, more: Mapping,
          merged: seq<MergedLink>)
    requires Grows(m, more) && forall r :: r in dump ==> Mapped(r.payload.links, table, m)
    ensures AllMaterialized(dump, table, more) == AllMaterialized(dump, table, m)
    ensures AllCollapsed(dump, table, more) == AllCollapsed(dump, table, m)
    ensures AllMerges(merged, dump, m) ==> AllMerges(merged, dump, more)
  {
    forall r | r in dump
      ensures MaterializedBy(r.id, r.payload.links, table, more) == MaterializedBy(r.id, r.payload.links, table, m)
      ensures CollapsedBy(r.id, r.payload.links, table, more) == CollapsedBy(r.id, r.payload.links, table, m)
      ensures forall g: MergedLink {:trigger IsMerge(g, r.id, r.payload.links, more)} ::
                IsMerge(g, r.id, r.payload.links, more) <==> IsMerge(g, r.id, r.payload.links, m)
    {
      Stable(r.payload.links, table, m, more, r.id);
    }
  }

  lemma ReportsNext(dump: seq<SealRecord>, r: SealRecord, table: map<Id, Payload>, m: Mapping)
    ensures AllMaterialized(dump + [r], table, m) == AllMaterialized(dump, table, m)
              + MaterializedBy(r.id, r.payload.links, table, m)
    ensures AllCollapsed(dump + [r], table, m) == AllCollapsed(dump, table, m)
              + CollapsedBy(r.id, r.payload.links, table, m)
  {
    assert forall x :: x in dump + [r] <==> x in dump || x == r;
  }

  lemma MergesNext(dump: seq<SealRecord>, r: SealRecord, m: Mapping, merged: seq<MergedLink>, more: seq<MergedLink>)
    requires AllMerges(merged, dump, m) && Merges(more, r.id, r.payload.links, m) && r.id !in Elems(IdsOf(dump))
    ensures AllMerges(merged + more, dump + [r], m)
  {
    forall d | d in dump ensures d.id in Elems(IdsOf(dump)) {
      var i :| 0 <= i < |dump| && dump[i] == d;
      assert IdsOf(dump)[i] == d.id;
    }
    NoDupConcat(merged, more);
    assert forall x :: x in dump + [r] <==> x in dump || x == r;
  }

  // Reports about different observers never coincide.
  lemma OnceNext(dump: seq<SealRecord>, r: SealRecord, table: map<Id, Payload>, m: Mapping,
          listed: seq<ParentAssertion>, more: seq<ParentAssertion>)
    requires NoDup(listed) && NoDup(more) && r.id !in Elems(IdsOf(dump))
    requires forall a :: a in listed ==> a.observer in Elems(IdsOf(dump))
    requires forall a :: a in more ==> a.observer == r.id
    ensures NoDup(listed + more)
  {
    NoDupConcat(listed, more);
  }

  lemma ElemsConcat<T>(a: seq<T>, b: seq<T>)
    ensures Elems(a + b) == Elems(a) + Elems(b)
  {
  }

  lemma ReportedObservers(dump: seq<SealRecord>, table: map<Id, Payload>, m: Mapping)
    ensures forall a :: a in AllMaterialized(dump, table, m) || a in AllCollapsed(dump, table, m) ==>
              a.observer in Elems(IdsOf(dump))
  {
    forall r | r in dump ensures r.id in Elems(IdsOf(dump)) {
      var i :| 0 <= i < |dump| && dump[i] == r;
      assert IdsOf(dump)[i] == r.id;
    }
  }

  lemma ProjectionNext(p: Projected, dump: seq<SealRecord>, name: Naming, table: map<Id, Payload>, r: SealRecord,
          links: seq<CauseLink>, sem: OneSealSemantic)
    requires IsProjection(p, dump, name, table) && r.id !in p.toNew
    requires Mapped(r.payload.links, table, p.toNew) && Projects(links, r.payload.links, table, p.toNew)
              && Accounts(sem, r, table, p.toNew)
    ensures IsProjection(Extended(p, r, name, links, sem), dump + [r], name, table)
  {
    var next, more := Extended(p, r, name, links, sem), dump + [r];
    var m, m' := p.toNew, next.toNew;
    IdsNext(dump, r);
    forall i | 0 <= i < |more| ensures IsImage(next.seals[i], more[i], name, table, m') {
      if i < |dump| {
        StableImage(p.seals[i], dump[i], name, table, m, m');
      } else {
        StableProjects(links, r.payload.links, table, m, m');
      }
    }
    forall d | d in dump ensures Mapped(d.payload.links, table, m) {
      var i :| 0 <= i < |dump| && dump[i] == d;
      assert IsImage(p.seals[i], dump[i], name, table, m);
    }
    ExtendedReports(p, dump, table, r, sem, m');
    ExtendedOnce(p, dump, table, r, sem);
  }

  lemma IdsNext(dump: seq<SealRecord>, r: SealRecord)
    ensures Elems(IdsOf(dump + [r])) == Elems(IdsOf(dump)) + {r.id}
  {
    assert IdsOf(dump + [r]) == IdsOf(dump) + [r.id];
  }

  lemma ExtendedReports(p: Projected, dump: seq<SealRecord>, table: map<Id, Payload>, r: SealRecord,
          sem: OneSealSemantic, m': Mapping)
    requires Elems(p.materialized) == AllMaterialized(dump, table, p.toNew)
              && Elems(p.collapsed) == AllCollapsed(dump, table, p.toNew)
    requires AllMerges(p.merged, dump, p.toNew) && Accounts(sem, r, table, p.toNew) && r.id !in Elems(IdsOf(dump))
    requires Grows(p.toNew, m') && Mapped(r.payload.links, table, p.toNew) && forall d :: d in dump ==>
              Mapped(d.payload.links, table, p.toNew)
    ensures Elems(p.materialized + sem.materialized) == AllMaterialized(dump + [r], table, m')
    ensures Elems(p.collapsed + sem.collapsed) == AllCollapsed(dump + [r], table, m')
    ensures AllMerges(p.merged + sem.merged, dump + [r], m')
  {
    ReportsNext(dump, r, table, p.toNew);
    MergesNext(dump, r, p.toNew, p.merged, sem.merged);
    ElemsConcat(p.materialized, sem.materialized);
    ElemsConcat(p.collapsed, sem.collapsed);
    StableReports(dump + [r], table, p.toNew, m', p.merged + sem.merged);
  }

  lemma ExtendedOnce(p: Projected, dump: seq<SealRecord>, table: map<Id, Payload>, r: SealRecord, sem: OneSealSemantic)
    requires Elems(p.materialized) == AllMaterialized(dump, table, p.toNew)
              && Elems(p.collapsed) == AllCollapsed(dump, table, p.toNew)
    requires AllDistinct(dump) ==> NoDup(p.materialized) && NoDup(p.collapsed)
    requires Accounts(sem, r, table, p.toNew) && r.id !in Elems(IdsOf(dump))
    ensures AllDistinct(dump + [r]) ==> NoDup(p.materialized + sem.materialized) && NoDup(p.collapsed + sem.collapsed)
  {
    if AllDistinct(dump + [r]) {
      assert r in dump + [r] && forall d :: d in dump ==> d in dump + [r];
      ReportedObservers(dump, table, p.toNew);
      forall a | a in p.materialized || a in p.collapsed ensures a.observer in Elems(IdsOf(dump)) {
        assert a in Elems(p.materialized) || a in Elems(p.collapsed);
      }
      forall a | a in sem.materialized || a in sem.collapsed ensures a.observer == r.id {
        assert a in Elems(sem.materialized) || a in Elems(sem.collapsed);
      }
      OnceNext(dump, r, table, p.toNew, p.materialized, sem.materialized);
      OnceNext(dump, r, table, p.toNew, p.collapsed, sem.collapsed);
    }
  }

  function Extended(p: Projected, r: SealRecord, name: Naming, links: seq<CauseLink>, sem: OneSealSemantic): Projected {
    var seal := Lift(r.payload, links);
    Projected(p.seals + [ProjectedSeal(r.id, name(seal), seal)], p.toNew[r.id := name(seal)],
              p.materialized + sem.materialized, p.collapsed + sem.collapsed, p.merged + sem.merged)
  }

  // Whatever a record links, and the parent of that, is listed before it.
  ghost predicate PlacedEarlier(dump: seq<SealRecord>, table: map<Id, Payload>) {
    forall k: nat :: k < |dump| ==> PlacedAt(dump, table, k)
  }

  ghost predicate PlacedAt(dump: seq<SealRecord>, table: map<Id, Payload>, k: nat)
    requires k < |dump|
  {
    forall l :: l in dump[k].payload.links ==>
      && l.target in IdsOf(dump[..k])
      && (ParentOf(table, l.target).Some? ==> ParentOf(table, l.target).value in IdsOf(dump[..k]))
  }

  lemma PlacedIsMapped(dump: seq<SealRecord>, table: map<Id, Payload>, k: nat, m: Mapping)
    requires k < |dump| && m.Keys == Elems(IdsOf(dump[..k]))
    ensures PlacedAt(dump, table, k) <==> Mapped(dump[k].payload.links, table, m)
  {
    assert forall x: Id :: x in m <==> x in IdsOf(dump[..k]);
  }

  // The record and the identifier an error names.
  ghost predicate Misplaced(dump: seq<SealRecord>, table: map<Id, Payload>, observer: Id, missing: Id) {
    exists k: nat :: k < |dump| && MisplacedAt(dump, table, k, observer, missing)
  }

  ghost predicate MisplacedAt(dump: seq<SealRecord>, table: map<Id, Payload>, k: nat, observer: Id, missing: Id)
    requires k < |dump|
  {
    && dump[k].id == observer && missing !in IdsOf(dump[..k])
    && exists l :: l in dump[k].payload.links && (missing == l.target || ParentOf(table, l.target) == Some(missing))
  }

  lemma MissesIsMisplaced(dump: seq<SealRecord>, table: map<Id, Payload>, k: nat, m: Mapping, x: Id)
    requires k < |dump| && m.Keys == Elems(IdsOf(dump[..k])) && Misses(dump[k].payload.links, table, m, x)
    ensures Misplaced(dump, table, dump[k].id, x)
  {
    assert x !in Elems(IdsOf(dump[..k]));
    assert MisplacedAt(dump, table, k, dump[k].id, x);
  }

  // The first k records are projected, and they were placed right.
  ghost predicate Partway(p: Projected, dump: seq<SealRecord>, k: nat, name: Naming, table: map<Id, Payload>) {
    && k <= |dump| && IsProjection(p, dump[..k], name, table)
    && forall i: nat :: i < k ==> PlacedAt(dump, table, i)
  }

  lemma PartwayStart(dump: seq<SealRecord>, name: Naming, table: map<Id, Payload>)
    ensures Partway(Projected([], map[], [], [], []), dump, 0, name, table)
  {
    assert dump[..0] == [];
  }

  lemma PartwayDone(p: Projected, dump: seq<SealRecord>, name: Naming, table: map<Id, Payload>)
    requires Partway(p, dump, |dump|, name, table)
    ensures IsProjection(p, dump, name, table) && PlacedEarlier(dump, table)
  {
    assert dump[..|dump|] == dump;
  }

  // One record, with everything before it projected.
  method ProjectNext(name: Naming, dump: seq<SealRecord>, table: map<Id, Payload>, k: nat, p: Projected)
      returns (res: Result<Projected, ProjectError>)
    requires NoDup(IdsOf(dump)) && k < |dump| && Partway(p, dump, k, name, table)
    ensures res.Success? ==> Partway(res.value, dump, k + 1, name, table)
    ensures res.Failure? ==> !PlacedEarlier(dump, table) && res.error.NoEarlierMapping?
    ensures res.Failure? ==> Misplaced(dump, table, res.error.observer, res.error.missing)
  {
    TakeNext(dump, k);
    NotMappedYet(dump, k);
    PlacedIsMapped(dump, table, k, p.toNew);
    var one := ProjectCauseLinks(dump[k], table, p.toNew);
    if one.Failure? {
      MissesIsMisplaced(dump, table, k, p.toNew, one.error.missing);
      return Failure(one.error);
    }
    ProjectionNext(p, dump[..k], name, table, dump[k], one.value.0, one.value.1);
    res := Success(Extended(p, dump[k], name, one.value.0, one.value.1));
  }

  // The main loop: it succeeds exactly when every mapping it needs is there in time.
  method ProjectAll(name: Naming, dump: seq<SealRecord>, table: map<Id, Payload>)
      returns (res: Result<Projected, ProjectError>)
    requires NoDup(IdsOf(dump)) && Tabulates(table, dump)
    ensures res.Success? <==> PlacedEarlier(dump, table)
    ensures res.Success? ==> IsProjection(res.value, dump, name, table)
    ensures res.Failure? ==> res.error.NoEarlierMapping?
    ensures res.Failure? ==> Misplaced(dump, table, res.error.observer, res.error.missing)
  {
    var p := Projected([], map[], [], [], []);
    var k := 0;
    PartwayStart(dump, name, table);
    while k < |dump|
      invariant Partway(p, dump, k, name, table)
      decreases |dump| - k
    {
      var next := ProjectNext(name, dump, table, k, p);
      if next.Failure? {
        return next;
      }
      p := next.value;
      k := k + 1;
    }
    PartwayDone(p, dump, name, table);
    res := Success(p);
  }

  lemma NotMappedYet(dump: seq<SealRecord>, k: nat)
    requires NoDup(IdsOf(dump)) && k < |dump|
    ensures dump[k].id !in Elems(IdsOf(dump[..k]))
  {
    assert IdsOf(dump[..k]) == IdsOf(dump)[..k];
  }

  // A dependency-first inventory is placed like that.
  lemma DependencyFirstPlaced(dump: seq<SealRecord>, table: map<Id, Payload>)
    requires Tabulates(table, dump) && DependencyFirst(Dependencies(table), IdsOf(dump))
    ensures PlacedEarlier(dump, table)
  {
    forall k: nat | k < |dump| ensures PlacedAt(dump, table, k) {
      forall l | l in dump[k].payload.links
        ensures l.target in IdsOf(dump[..k])
        ensures ParentOf(table, l.target).Some? ==> ParentOf(table, l.target).value in IdsOf(dump[..k])
      {
        LinkPlaced(dump, table, k, l);
      }
    }
  }

  lemma LinkPlaced(dump: seq<SealRecord>, table: map<Id, Payload>, k: nat, l: Link)
    requires Tabulates(table, dump) && DependencyFirst(Dependencies(table), IdsOf(dump))
    requires k < |dump| && l in dump[k].payload.links
    ensures l.target in IdsOf(dump[..k])
    ensures ParentOf(table, l.target).Some? ==> ParentOf(table, l.target).value in IdsOf(dump[..k])
  {
    var deps, ids := Dependencies(table), IdsOf(dump);
    assert ids[..k] == IdsOf(dump[..k]);
    assert dump[k] in dump;
    assert l.target in Out(deps, ids[k]);
    var j :| 0 <= j < k && ids[j] == l.target;
    if ParentOf(table, l.target).Some? {
      var parent := ParentOf(table, l.target).value;
      assert parent in Out(deps, ids[j]);
      assert parent in ids[..j];
      EarlierPrefix(ids, j, k, parent);
    }
  }

  lemma EarlierPrefix(ids: seq<Id>, j: nat, k: nat, x: Id)
    requires j <= k <= |ids| && x in ids[..j]
    ensures x in Elems(ids[..k])
  {
    var i :| 0 <= i < j && ids[i] == x;
    assert ids[..k][i] == x;
  }

  // ------------------------------------------------------ unobserved parents

  ghost predicate Observed(dump: seq<SealRecord>, c: Id) {
    exists r :: r in dump && Observes(r.payload.links, c)
  }

  method ObservedTargets(dump: seq<SealRecord>) returns (observed: set<Id>)
    ensures forall c: Id :: c in observed <==> Observed(dump, c)
  {
    observed := {};
    for i := 0 to |dump|
      invariant forall c: Id :: c in observed <==> Observed(dump[..i], c)
    {
      TakeNext(dump, i);
      ghost var before := observed;
      var links := dump[i].payload.links;
      for j := 0 to |links|
        invariant forall c: Id :: c in observed <==> c in before || Observes(links[..j], c)
      {
        TakeNext(links, j);
        observed := observed + {links[j].target};
      }
      assert links[..|links|] == links;
      forall c: Id ensures c in observed <==> Observed(dump[..i + 1], c) {
        assert c in observed <==> Observed(dump[..i], c) || Observes(dump[i].payload.links, c);
      }
    }
    assert dump[..|dump|] == dump;
  }

  ghost predicate IsUnobserved(u: UnobservedParent, dump: seq<SealRecord>) {
    !Observed(dump, u.child) && exists r :: r in dump && r.id == u.child && r.payload.parent == Some(u.parent)
  }

  method UnobservedParents(dump: seq<SealRecord>) returns (result: seq<UnobservedParent>)
    requires NoDup(IdsOf(dump))
    ensures NoDup(result) && forall u :: u in result <==> IsUnobserved(u, dump)
  {
    var observed := ObservedTargets(dump);
    result := [];
    for i := 0 to |dump|
      invariant NoDup(result)
      invariant forall u :: u in result <==>
                  && !Observed(dump, u.child)
                  && exists j :: 0 <= j < i && dump[j].id == u.child && dump[j].payload.parent == Some(u.parent)
    {
      var r := dump[i];
      if r.payload.parent.Some? && r.id !in observed {
        var u := UnobservedParent(r.id, r.payload.parent.value);
        forall j | 0 <= j < i ensures dump[j].id != r.id {
          assert IdsOf(dump)[j] != IdsOf(dump)[i];
        }
        result := result + [u];
      }
    }
    forall u ensures u in result <==> IsUnobserved(u, dump) {
      if IsUnobserved(u, dump) {
        var r :| r in dump && r.id == u.child && r.payload.parent == Some(u.parent);
        var j :| 0 <= j < |dump| && dump[j] == r;
      }
    }
  }

  // -------------------------------------------------------- what is preserved

  // Cause links survive in both directions: every old link leads from the image to the
  // image, and every new link of an image stems from an old link of each Seal it is the
  // image of, however many collapsed into it.
  lemma CausesCorrespond(p: Projected, dump: seq<SealRecord>, name: Naming, table: map<Id, Payload>, i: nat, j: nat)
    requires IsProjection(p, dump, name, table) && Distinguishes(name)
    requires i < |dump| && j < |dump| && p.toNew[dump[i].id] == p.toNew[dump[j].id]
    ensures p.seals[i].seal == p.seals[j].seal
    ensures forall l :: l in dump[i].payload.links ==>
              exists n :: n in p.seals[j].seal.links && n.target == New(p.toNew, l.target)
    ensures forall n :: n in p.seals[i].seal.links ==>
              exists l :: l in dump[j].payload.links && New(p.toNew, l.target) == n.target
  {
    var m, a, b := p.toNew, p.seals[i], p.seals[j];
    assert IsImage(a, dump[i], name, table, m) && IsImage(b, dump[j], name, table, m);
    forall l | l in dump[i].payload.links ensures exists n :: n in b.seal.links && n.target == New(m, l.target) {
      assert l.target in TargetsOnto(dump[i].payload.links, m, New(m, l.target));
    }
    forall n | n in a.seal.links ensures exists l :: l in dump[j].payload.links && New(m, l.target) == n.target {
      assert n in b.seal.links;
      assert TargetsOnto(dump[j].payload.links, m, n.target) != {};
      var c: Id :| c in TargetsOnto(dump[j].payload.links, m, n.target);
    }
  }

  // Every parent edge of an observed child is reported exactly once: it survives or its
  // ends became one Seal.
  lemma ParentsAccounted(p: Projected, dump: seq<SealRecord>, name: Naming, table: map<Id, Payload>, o: SealRecord,
          l: Link, parent: Id)
    requires IsProjection(p, dump, name, table)
    requires o in dump && l in o.payload.links && ParentOf(table, l.target) == Some(parent)
    ensures ParentAssertion(o.id, l.target, parent) in p.materialized <==>
              New(p.toNew, parent) != New(p.toNew, l.target)
    ensures ParentAssertion(o.id, l.target, parent) in p.collapsed <==> New(p.toNew, parent) == New(p.toNew, l.target)
  {
    var a, m := ParentAssertion(o.id, l.target, parent), p.toNew;
    assert a in p.materialized <==> a in Elems(p.materialized);
    assert a in p.collapsed <==> a in Elems(p.collapsed);
    if New(m, parent) != New(m, l.target) {
      assert a in MaterializedBy(o.id, o.payload.links, table, m);
    } else {
      assert a in CollapsedBy(o.id, o.payload.links, table, m);
    }
  }

  // Nothing else is reported: every report is a parent edge some Seal observes.
  lemma ReportsAreEdges(p: Projected, dump: seq<SealRecord>, name: Naming, table: map<Id, Payload>, a: ParentAssertion)
    requires IsProjection(p, dump, name, table) && (a in p.materialized || a in p.collapsed)
    ensures exists o, l :: o in dump && o.id == a.observer && l in o.payload.links && l.target == a.child
              && ParentOf(table, l.target) == Some(a.parent)
  {
    assert a in Elems(p.materialized) || a in Elems(p.collapsed);
    if a in Elems(p.materialized) {
      var o :| o in dump && a in MaterializedBy(o.id, o.payload.links, table, p.toNew);
    } else {
      var o :| o in dump && a in CollapsedBy(o.id, o.payload.links, table, p.toNew);
    }
  }

  // A parent edge is dropped unobserved exactly when no report mentions it.
  lemma UnobservedIsTheRest(p: Projected, dump: seq<SealRecord>, name: Naming, table: map<Id, Payload>,
          c: SealRecord, parent: Id)
    requires IsProjection(p, dump, name, table) && Tabulates(table, dump)
    requires c in dump && c.payload.parent == Some(parent)
    ensures IsUnobserved(UnobservedParent(c.id, parent), dump) <==>
            forall o: Id :: ParentAssertion(o, c.id, parent) !in p.materialized
                && ParentAssertion(o, c.id, parent) !in p.collapsed
  {
    if Observed(dump, c.id) {
      var o :| o in dump && Observes(o.payload.links, c.id);
      var l :| l in o.payload.links && l.target == c.id;
      ParentsAccounted(p, dump, name, table, o, l, parent);
    } else {
      forall o: Id
        ensures ParentAssertion(o, c.id, parent) !in p.materialized && ParentAssertion(o, c.id, parent) !in p.collapsed
      {
        var a := ParentAssertion(o, c.id, parent);
        if a in p.materialized || a in p.collapsed {
          ReportsAreEdges(p, dump, name, table, a);
        }
      }
    }
  }

  // The new previous-revision sets hold exactly what was materialised.
  lemma PreviousIsMaterialized(p: Projected, dump: seq<SealRecord>, name: Naming, table: map<Id, Payload>, i: nat,
          n: CauseLink, q: Id)
    requires IsProjection(p, dump, name, table) && NoDup(IdsOf(dump)) && i < |dump| && n in p.seals[i].seal.links
    ensures q in n.previous <==>
            exists a :: a in p.materialized && a.observer == dump[i].id && New(p.toNew, a.child) == n.target
                && New(p.toNew, a.parent) == q
  {
    var r, m := dump[i], p.toNew;
    assert IsImage(p.seals[i], r, name, table, m);
    assert LinkFor(n, r.payload.links, table, m);
    assert q in n.previous <==> q in Elems(n.previous);
    assert r in dump;
    if q in n.previous {
      var l :| l in r.payload.links && New(m, l.target) == n.target && ParentOf(table, l.target).Some?
               && New(m, ParentOf(table, l.target).value) != n.target && q == New(m, ParentOf(table, l.target).value);
      ParentsAccounted(p, dump, name, table, r, l, ParentOf(table, l.target).value);
    }
    forall a | a in p.materialized && a.observer == r.id && New(m, a.child) == n.target && New(m, a.parent) == q
      ensures q in n.previous
    {
      assert a in Elems(p.materialized);
      var o :| o in dump && a in MaterializedBy(o.id, o.payload.links, table, m);
      SameRecord(dump, o, r);
    }
  }

  lemma SameRecord(dump: seq<SealRecord>, a: SealRecord, b: SealRecord)
    requires NoDup(IdsOf(dump)) && a in dump && b in dump && a.id == b.id
    ensures a == b
  {
    var i :| 0 <= i < |dump| && dump[i] == a;
    var j :| 0 <= j < |dump| && dump[j] == b;
    assert IdsOf(dump)[i] == IdsOf(dump)[j];
  }
}
