/** Computing, checking and ordering a migration document (internal/migration/project_v5.go, universal_blob_v1.go). */
module Migration {
  import opened Ids
  import opened SealOrder
  import opened Text
  import opened Sorting
  import opened Projection
  import opened ProjectedGraph

  // ------------------------------------------------------------- record orders

  // Identifiers have one length, so joined identifiers compare like lists of identifiers.
  predicate ListLess(a: seq<Id>, b: seq<Id>) {
    b != [] && (a == [] || a[0] < b[0] || (a[0] == b[0] && ListLess(a[1..], b[1..])))
  }

  lemma {:induction false} ListTotal(a: seq<Id>, b: seq<Id>)
    ensures ListLess(a, b) || ListLess(b, a) || a == b
    ensures !(ListLess(a, b) && ListLess(b, a))
  {
    if a != [] && b != [] {
      ListTotal(a[1..], b[1..]);
      assert a == [a[0]] + a[1..] && b == [b[0]] + b[1..];
    }
  }

  lemma {:induction false} ListTransitive(a: seq<Id>, b: seq<Id>, c: seq<Id>)
    requires ListLess(a, b) && ListLess(b, c)
    ensures ListLess(a, c)
  {
    if a != [] && a[0] == b[0] == c[0] {
      ListTransitive(a[1..], b[1..], c[1..]);
    }
  }

  // Records compared by a key that determines them are strictly ordered.
  lemma StrictByKey<T(!new)>(less: (T, T) -> bool, key: T -> seq<Id>)
    requires forall a: T, b: T {:trigger less(a, b)} :: less(a, b) == ListLess(key(a), key(b))
    requires forall a: T, b: T {:trigger key(a), key(b)} :: key(a) == key(b) ==> a == b
    ensures StrictOrder(less)
  {
    forall a: T, b: T {:trigger less(a, b)}
      ensures less(a, b) || less(b, a) || a == b
      ensures !(less(a, b) && less(b, a))
    {
      ListTotal(key(a), key(b));
      assert less(b, a) == ListLess(key(b), key(a));
    }
    forall a: T, b: T, c: T {:trigger less(a, b), less(b, c)} | less(a, b) && less(b, c) ensures less(a, c) {
      ListTransitive(key(a), key(b), key(c));
    }
  }

  function AssertionKey(a: ParentAssertion): seq<Id> {
    [a.observer, a.child, a.parent]
  }

  function UnobservedKey(u: UnobservedParent): seq<Id> {
    [u.child, u.parent]
  }

  function MergedKey(g: MergedLink): seq<Id> {
    [g.observer, g.newTarget] + g.oldTargets
  }

  predicate AssertionLess(a: ParentAssertion, b: ParentAssertion) {
    ListLess(AssertionKey(a), AssertionKey(b))
  }

  predicate UnobservedLess(a: UnobservedParent, b: UnobservedParent) {
    ListLess(UnobservedKey(a), UnobservedKey(b))
  }

  predicate MergedLess(a: MergedLink, b: MergedLink) {
    ListLess(MergedKey(a), MergedKey(b))
  }

  lemma ListHead(x: Id, a: seq<Id>, y: Id, b: seq<Id>)
    ensures ListLess([x] + a, [y] + b) <==> x < y || (x == y && ListLess(a, b))
  {
    assert ([x] + a)[1..] == a && ([y] + b)[1..] == b;
  }

  // Reports are ordered by their identifiers, from left to right.
  lemma ReportOrder(a: ParentAssertion, b: ParentAssertion, u: UnobservedParent, v: UnobservedParent)
    ensures AssertionLess(a, b) <==>
              || a.observer < b.observer
              || (a.observer == b.observer && (a.child < b.child || (a.child == b.child && a.parent < b.parent)))
    ensures UnobservedLess(u, v) <==> u.child < v.child || (u.child == v.child && u.parent < v.parent)
  {
    assert AssertionKey(a) == [a.observer] + ([a.child] + ([a.parent] + []));
    assert AssertionKey(b) == [b.observer] + ([b.child] + ([b.parent] + []));
    ListHead(a.observer, [a.child] + ([a.parent] + []), b.observer, [b.child] + ([b.parent] + []));
    ListHead(a.child, [a.parent] + [], b.child, [b.parent] + []);
    ListHead(a.parent, [], b.parent, []);
    assert UnobservedKey(u) == [u.child] + ([u.parent] + []) && UnobservedKey(v) == [v.child] + ([v.parent] + []);
    ListHead(u.child, [u.parent] + [], v.child, [v.parent] + []);
    ListHead(u.parent, [], v.parent, []);
  }

  lemma MergedOrder(a: MergedLink, b: MergedLink)
    ensures MergedLess(a, b) <==>
              || a.observer < b.observer
              || (a.observer == b.observer && a.newTarget < b.newTarget)
              || (a.observer == b.observer && a.newTarget == b.newTarget && ListLess(a.oldTargets, b.oldTargets))
  {
    assert MergedKey(a) == [a.observer] + ([a.newTarget] + a.oldTargets);
    assert MergedKey(b) == [b.observer] + ([b.newTarget] + b.oldTargets);
    ListHead(a.observer, [a.newTarget] + a.oldTargets, b.observer, [b.newTarget] + b.oldTargets);
    ListHead(a.newTarget, a.oldTargets, b.newTarget, b.oldTargets);
  }

  lemma RecordOrders()
    ensures StrictOrder(AssertionLess) && StrictOrder(UnobservedLess) && StrictOrder(MergedLess)
  {
    forall a, b | AssertionKey(a) == AssertionKey(b) ensures a == b {
      assert AssertionKey(a)[0] == AssertionKey(b)[0] && AssertionKey(a)[1] == AssertionKey(b)[1];
      assert AssertionKey(a)[2] == AssertionKey(b)[2];
    }
    forall a, b | UnobservedKey(a) == UnobservedKey(b) ensures a == b {
      assert UnobservedKey(a)[0] == UnobservedKey(b)[0] && UnobservedKey(a)[1] == UnobservedKey(b)[1];
    }
    forall a, b | MergedKey(a) == MergedKey(b) ensures a == b {
      assert MergedKey(a)[0] == MergedKey(b)[0] && MergedKey(a)[1] == MergedKey(b)[1];
      assert MergedKey(a)[2..] == a.oldTargets && MergedKey(b)[2..] == b.oldTargets;
    }
    StrictByKey(AssertionLess, AssertionKey);
    StrictByKey(UnobservedLess, UnobservedKey);
    StrictByKey(MergedLess, MergedKey);
  }

  // -------------------------------------------------------- the semantic section

  datatype Semantic = Semantic(materialized: seq<ParentAssertion>, unobserved: seq<UnobservedParent>,
                               collapsed: seq<ParentAssertion>, merged: seq<MergedLink>)

  // Exactly the parent edges that survive, are dropped unobserved or collapse, and the links
  // that merge; each once and in order.
  ghost predicate IsSemantic(sem: Semantic, dump: seq<SealRecord>, table: map<Id, Payload>, m: Mapping) {
    && SortedBy(sem.materialized, AssertionLess) && Elems(sem.materialized) == AllMaterialized(dump, table, m)
    && SortedBy(sem.collapsed, AssertionLess) && Elems(sem.collapsed) == AllCollapsed(dump, table, m)
    && SortedBy(sem.unobserved, UnobservedLess) && NoDup(sem.unobserved)
    && (forall u :: u in sem.unobserved <==> IsUnobserved(u, dump))
    && SortedBy(sem.merged, MergedLess) && AllMerges(sem.merged, dump, m)
    && (AllDistinct(dump) ==> NoDup(sem.materialized) && NoDup(sem.collapsed))
  }

  // normalizeMigrationSemantic.
  function Normalized(sem: Semantic): Semantic {
    Semantic(SortBy(sem.materialized, AssertionLess), SortBy(sem.unobserved, UnobservedLess),
             SortBy(sem.collapsed, AssertionLess), SortBy(sem.merged, MergedLess))
  }

  lemma SortedSame<T(!new)>(s: seq<T>, less: (T, T) -> bool)
    requires StrictOrder(less)
    ensures SortedBy(SortBy(s, less), less) && Elems(SortBy(s, less)) == Elems(s)
    ensures NoDup(s) ==> NoDup(SortBy(s, less))
    ensures forall x :: x in SortBy(s, less) <==> x in s
  {
    SortBySorted(s, less);
    SortedMembers(s, less);
    if NoDup(s) {
      NoDupPermuted(s, SortBy(s, less));
    }
  }

  lemma NoDupPermuted<T(!new)>(a: seq<T>, b: seq<T>)
    requires NoDup(a) && multiset(a) == multiset(b)
    ensures NoDup(b)
  {
    var id := (x: T) => x;
    assert DistinctKeys(a, id);
    PermutedDistinct(a, b, id);
    forall i, j | 0 <= i < j < |b| ensures b[i] != b[j] {
      assert id(b[i]) != id(b[j]);
    }
  }

  lemma NormalizedIsSemantic(p: Projected, unobserved: seq<UnobservedParent>, dump: seq<SealRecord>, name: Naming,
          table: map<Id, Payload>)
    requires IsProjection(p, dump, name, table)
    requires NoDup(unobserved) && forall u :: u in unobserved <==> IsUnobserved(u, dump)
    ensures IsSemantic(Normalized(Semantic(p.materialized, unobserved, p.collapsed, p.merged)), dump, table, p.toNew)
  {
    RecordOrders();
    SortedSame(p.materialized, AssertionLess);
    SortedSame(p.collapsed, AssertionLess);
    SortedSame(unobserved, UnobservedLess);
    SortedSame(p.merged, MergedLess);
  }

  lemma ListedOnce<T(!new)>(a: seq<T>, b: seq<T>, less: (T, T) -> bool)
    requires StrictOrder(less) && SortedBy(a, less) && SortedBy(b, less) && NoDup(a) && NoDup(b)
    requires forall x :: x in a <==> x in b
    ensures a == b
  {
    SameCounts(a, b);
    SortedUnique(a, b, less);
  }

  lemma {:induction false} SameCounts<T(!new)>(a: seq<T>, b: seq<T>)
    requires NoDup(a) && NoDup(b) && forall x :: x in a <==> x in b
    ensures multiset(a) == multiset(b)
  {
    forall x ensures multiset(a)[x] == multiset(b)[x] {
      CountOnce(a, x);
      CountOnce(b, x);
    }
  }

  lemma {:induction false} CountOnce<T(!new)>(s: seq<T>, x: T)
    requires NoDup(s)
    ensures multiset(s)[x] == if x in s then 1 else 0
  {
    if s != [] {
      assert s == [s[0]] + s[1..];
      CountOnce(s[1..], x);
    }
  }

  // One inventory and mapping has one semantic section.
  lemma SemanticUnique(a: Semantic, b: Semantic, dump: seq<SealRecord>, table: map<Id, Payload>, m: Mapping)
    requires IsSemantic(a, dump, table, m) && IsSemantic(b, dump, table, m) && AllDistinct(dump)
    ensures a == b
  {
    RecordOrders();
    forall x ensures x in a.materialized <==> x in b.materialized {
      assert x in Elems(a.materialized) <==> x in Elems(b.materialized);
    }
    forall x ensures x in a.collapsed <==> x in b.collapsed {
      assert x in Elems(a.collapsed) <==> x in Elems(b.collapsed);
    }
    ListedOnce(a.materialized, b.materialized, AssertionLess);
    ListedOnce(a.collapsed, b.collapsed, AssertionLess);
    ListedOnce(a.unobserved, b.unobserved, UnobservedLess);
    ListedOnce(a.merged, b.merged, MergedLess);
  }

  // ------------------------------------------------------ one projection each

  // The two mappings agree on the first k records.
  ghost predicate AgreeUpTo(p: Projected, q: Projected, dump: seq<SealRecord>, k: nat)
    requires k <= |dump| && |p.seals| == |q.seals| == |dump|
  {
    forall i: nat :: i < k ==> p.seals[i] == q.seals[i] && New(p.toNew, dump[i].id) == New(q.toNew, dump[i].id)
  }

  lemma AgreeOn(p: Projected, q: Projected, dump: seq<SealRecord>, k: nat, x: Id)
    requires k <= |dump| && |p.seals| == |q.seals| == |dump| && AgreeUpTo(p, q, dump, k) && x in IdsOf(dump[..k])
    ensures New(p.toNew, x) == New(q.toNew, x)
  {
    var i :| 0 <= i < k && IdsOf(dump[..k])[i] == x;
    assert dump[i].id == x;
  }

  lemma AgreeOnto(links: seq<Link>, table: map<Id, Payload>, m: Mapping, n: Mapping)
    requires forall l :: l in links ==> New(m, l.target) == New(n, l.target)
    requires forall l :: l in links && ParentOf(table, l.target).Some? ==>
               New(m, ParentOf(table, l.target).value) == New(n, ParentOf(table, l.target).value)
    ensures AlikeOnto(links, links, table, m, n)
  {
    forall t: Id
      ensures TargetsOnto(links, m, t) == TargetsOnto(links, n, t)
      ensures PreviousOnto(links, table, m, t) == PreviousOnto(links, table, n, t)
      ensures MessagesOnto(links, m, t) == MessagesOnto(links, n, t)
    {
    }
  }

  lemma AgreeNext(p: Projected, q: Projected, dump: seq<SealRecord>, name: Naming, table: map<Id, Payload>, k: nat)
    requires IsProjection(p, dump, name, table) && IsProjection(q, dump, name, table) && PlacedEarlier(dump, table)
    requires k < |dump| && AgreeUpTo(p, q, dump, k)
    ensures AgreeUpTo(p, q, dump, k + 1)
  {
    var links := dump[k].payload.links;
    assert PlacedAt(dump, table, k);
    forall l | l in links
      ensures New(p.toNew, l.target) == New(q.toNew, l.target)
      ensures ParentOf(table, l.target).Some? ==>
                New(p.toNew, ParentOf(table, l.target).value) == New(q.toNew, ParentOf(table, l.target).value)
    {
      AgreeOn(p, q, dump, k, l.target);
      if ParentOf(table, l.target).Some? {
        AgreeOn(p, q, dump, k, ParentOf(table, l.target).value);
      }
    }
    AgreeOnto(links, table, p.toNew, q.toNew);
    assert IsImage(p.seals[k], dump[k], name, table, p.toNew) && IsImage(q.seals[k], dump[k], name, table, q.toNew);
    ProjectsUnique(p.seals[k].seal.links, q.seals[k].seal.links, links, links, table, p.toNew, q.toNew);
  }

  lemma {:induction false} AgreeAll(p: Projected, q: Projected, dump: seq<SealRecord>, name: Naming,
          table: map<Id, Payload>, k: nat)
    requires IsProjection(p, dump, name, table) && IsProjection(q, dump, name, table) && PlacedEarlier(dump, table)
    requires k <= |dump|
    ensures AgreeUpTo(p, q, dump, k)
  {
    if k > 0 {
      AgreeAll(p, q, dump, name, table, k - 1);
      AgreeNext(p, q, dump, name, table, k - 1);
    }
  }

  // Whoever projects an inventory gets the same Seals and the same mapping.
  lemma ProjectionDetermined(p: Projected, q: Projected, dump: seq<SealRecord>, name: Naming, table: map<Id, Payload>)
    requires IsProjection(p, dump, name, table) && IsProjection(q, dump, name, table) && PlacedEarlier(dump, table)
    ensures p.seals == q.seals && p.toNew == q.toNew
  {
    AgreeAll(p, q, dump, name, table, |dump|);
    assert dump[..|dump|] == dump;
    SameMapping(p, q, dump);
  }

  lemma SameMapping(p: Projected, q: Projected, dump: seq<SealRecord>)
    requires |p.seals| == |q.seals| == |dump| && AgreeUpTo(p, q, dump, |dump|)
    requires p.toNew.Keys == q.toNew.Keys == Elems(IdsOf(dump))
    ensures p.seals == q.seals && p.toNew == q.toNew
  {
    forall x: Id | x in p.toNew ensures p.toNew[x] == q.toNew[x] {
      var i :| 0 <= i < |dump| && IdsOf(dump)[i] == x;
      assert New(p.toNew, dump[i].id) == New(q.toNew, dump[i].id);
    }
  }

  // ------------------------------------------------------------- the computation

  // The inventory by identity.
  ghost function TableOf(dump: seq<SealRecord>): (table: map<Id, Payload>)
    requires NoDup(IdsOf(dump))
    ensures Tabulates(table, dump)
  {
    if dump == [] then
      map[]
    else
      var k := |dump| - 1;
      TableNext(dump, k);
      assert dump[..k + 1] == dump;
      TabulateNext(TableOf(dump[..k]), dump, k);
      TableOf(dump[..k])[dump[k].id := dump[k].payload]
  }

  lemma TableNext(dump: seq<SealRecord>, k: nat)
    requires NoDup(IdsOf(dump)) && k < |dump|
    ensures NoDup(IdsOf(dump[..k])) && NoDup(IdsOf(dump[..k + 1]))
    ensures forall table :: Tabulates(table, dump[..k]) ==> dump[k].id !in table
  {
    assert IdsOf(dump[..k]) == IdsOf(dump)[..k];
    assert IdsOf(dump[..k + 1]) == IdsOf(dump)[..k + 1];
  }

  method IndexSeals(dump: seq<SealRecord>) returns (table: map<Id, Payload>)
    requires NoDup(IdsOf(dump))
    ensures table == TableOf(dump)
  {
    table := map[];
    for k := 0 to |dump|
      invariant Tabulates(table, dump[..k]) && table.Keys == Elems(IdsOf(dump[..k]))
    {
      NotMappedYet(dump, k);
      assert IdsOf(dump[..k + 1]) == IdsOf(dump[..k]) + [dump[k].id];
      assert IdsOf(dump[..k]) == IdsOf(dump)[..k];
      TabulateNext(table, dump, k);
      table := table[dump[k].id := dump[k].payload];
    }
    assert dump[..|dump|] == dump;
    TableUnique(table, TableOf(dump), dump, dump);
  }

  // The inventory has a projection, and what collapses does not close a cycle.
  ghost predicate CanMigrate(dump: seq<SealRecord>, name: Naming, table: map<Id, Payload>) {
    && PlacedEarlier(dump, table)
    && exists p :: IsProjection(p, dump, name, table) && Migratable(dump, table, p.toNew)
  }

  lemma CanMigrateOne(p: Projected, dump: seq<SealRecord>, name: Naming, table: map<Id, Payload>)
    requires IsProjection(p, dump, name, table) && PlacedEarlier(dump, table)
    ensures CanMigrate(dump, name, table) <==> Migratable(dump, table, p.toNew)
  {
    forall q | IsProjection(q, dump, name, table) ensures q.toNew == p.toNew {
      ProjectionDetermined(p, q, dump, name, table);
    }
  }

  // ComputeUniversalBlobV1Projection. It succeeds exactly on inventories that can migrate;
  // a refusal names a link or parent that is not placed before its observer, or means that
  // no rank of the collapse classes falls.
  method Compute(name: Naming, dump: seq<SealRecord>) returns (res: Result<(Projected, Semantic), ProjectError>)
    requires NoDup(IdsOf(dump))
    ensures res.Success? <==> CanMigrate(dump, name, TableOf(dump))
    ensures res.Success? ==> IsProjection(res.value.0, dump, name, TableOf(dump))
    ensures res.Success? ==>
              && |res.value.0.seals| == |dump|
              && forall i :: 0 <= i < |dump| ==>
                   var s, r := res.value.0.seals[i], dump[i];
                   && s.oldId == r.id && s.newId == name(s.seal) && res.value.0.toNew[r.id] == s.newId
                   && s.seal.content == r.payload.content && s.seal.attachments == r.payload.attachments
                   && s.seal.root == r.payload.root && s.seal.draft == r.payload.draft
    ensures res.Success? ==> IsSemantic(res.value.1, dump, TableOf(dump), res.value.0.toNew)
    ensures res.Failure? && res.error.NoEarlierMapping? ==>
              Misplaced(dump, TableOf(dump), res.error.observer, res.error.missing)
    ensures res.Failure? && res.error.CollapseCycle? ==> PlacedEarlier(dump, TableOf(dump))
  {
    var oldSeals := IndexSeals(dump);
    var projected := ProjectAll(name, dump, oldSeals);
    if projected.Failure? {
      return Failure(projected.error);
    }
    var p := projected.value;
    var unobserved := UnobservedParents(dump);
    var sem := Normalized(Semantic(p.materialized, unobserved, p.collapsed, p.merged));
    NormalizedIsSemantic(p, unobserved, dump, name, oldSeals);
    AcceptedExactly(p, dump, name, oldSeals);
    CanMigrateOne(p, dump, name, oldSeals);
    var err := ValidateProjectedGraph(p.seals);
    if err.Some? {
      return Failure(CollapseCycle(err.value));
    }
    res := Success((p, sem));
  }

  // On an inventory in the canonical order nothing but a collapse can be in the way.
  lemma CanonicalMigrates(dump: seq<SealRecord>, name: Naming, table: map<Id, Payload>, p: Projected)
    requires InOrder(dump) && Tabulates(table, dump) && IsProjection(p, dump, name, table)
    ensures PlacedEarlier(dump, table)
    ensures NothingCollapses(p) ==> CanMigrate(dump, name, table)
  {
    CanonicalDump(dump, table);
    DependencyFirstPlaced(dump, table);
    if NothingCollapses(p) {
      WithoutCollapseAccepted(p, dump, name, table);
      AcceptedExactly(p, dump, name, table);
    }
  }

  datatype ImportError = NotComputed(why: ProjectError) | SemanticMismatch

  // ProjectUniversalBlobV1: the importer computes the projection again and accepts exactly
  // the document that carries the semantic section of its inventory.
  method Project(name: Naming, dump: seq<SealRecord>, embedded: Semantic)
      returns (res: Result<Projected, ImportError>)
    requires NoDup(IdsOf(dump)) && AllDistinct(dump)
    ensures res.Success? ==> IsProjection(res.value, dump, name, TableOf(dump))
    ensures res.Success? ==> IsSemantic(embedded, dump, TableOf(dump), res.value.toNew)
    ensures res.Failure? && res.error.NotComputed? <==> !CanMigrate(dump, name, TableOf(dump))
    ensures res == Failure(SemanticMismatch) ==>
              forall p :: IsProjection(p, dump, name, TableOf(dump)) ==>
                            !IsSemantic(embedded, dump, TableOf(dump), p.toNew)
  {
    var computed := Compute(name, dump);
    ghost var table := TableOf(dump);
    if computed.Failure? {
      return Failure(NotComputed(computed.error));
    }
    var p, sem := computed.value.0, computed.value.1;
    if sem != embedded {
      forall q | IsProjection(q, dump, name, table) ensures !IsSemantic(embedded, dump, table, q.toNew) {
        ProjectionDetermined(p, q, dump, name, table);
        if IsSemantic(embedded, dump, table, q.toNew) {
          SemanticUnique(sem, embedded, dump, table, p.toNew);
        }
      }
      return Failure(SemanticMismatch);
    }
    res := Success(p);
  }

  // ------------------------------------------------------------- the document

  datatype ObjectRecord = ObjectRecord(id: Id, data: string)
  datatype RefRecord = RefRecord(name: string, head: Id)
  datatype TagRecord = TagRecord(ref: string, name: string, target: Id)

  predicate ObjectLess(a: ObjectRecord, b: ObjectRecord) {
    a.id < b.id
  }

  predicate RefLess(a: RefRecord, b: RefRecord) {
    StringLess(a.name, b.name)
  }

  predicate TagLess(a: TagRecord, b: TagRecord) {
    if a.ref != b.ref then StringLess(a.ref, b.ref) else StringLess(a.name, b.name)
  }

  predicate IdLess(a: Id, b: Id) {
    a < b
  }

  lemma RefsOrdered()
    ensures WeakOrder(RefLess) && WeakOrder(TagLess) && WeakOrder(ObjectLess) && WeakOrder(IdLess)
  {
    StringOrder();
  }

  // The list of one kind of record, arranged by its key.
  ghost predicate Arranged<T(!new)>(was: seq<T>, now: seq<T>, less: (T, T) -> bool) {
    SortedBy(now, less) && multiset(now) == multiset(was)
  }

  // Where the keys differ there is one arrangement.
  lemma ArrangedUnique<T(!new), K>(was: seq<T>, a: seq<T>, b: seq<T>, less: (T, T) -> bool, key: T -> K)
    requires Arranged(was, a, less) && Arranged(was, b, less) && DistinctKeys(was, key)
    requires forall x: T, y: T {:trigger less(x, y)} :: !less(x, y) && !less(y, x) ==> key(x) == key(y)
    requires WeakOrder(less)
    ensures a == b
  {
    PermutedDistinct(was, a, key);
    KeyedUnique(a, b, less, key);
  }

  lemma {:induction false} KeyedUnique<T(!new), K>(a: seq<T>, b: seq<T>, less: (T, T) -> bool, key: T -> K)
    requires SortedBy(a, less) && SortedBy(b, less) && multiset(a) == multiset(b) && DistinctKeys(a, key)
              && WeakOrder(less)
    requires forall x: T, y: T {:trigger less(x, y)} :: !less(x, y) && !less(y, x) ==> key(x) == key(y)
    ensures a == b
  {
    assert |multiset(a)| == |a| && |multiset(b)| == |b|;
    if a != [] {
      KeyedLeast(a, b, less, key);
      DropFirst(a);
      DropFirst(b);
      KeyedUnique(a[1..], b[1..], less, key);
      assert a == [a[0]] + a[1..] && b == [b[0]] + b[1..];
    }
  }

  lemma KeyedLeast<T(!new), K>(a: seq<T>, b: seq<T>, less: (T, T) -> bool, key: T -> K)
    requires SortedBy(a, less) && SortedBy(b, less) && multiset(a) == multiset(b) && DistinctKeys(a, key)
    requires forall x: T, y: T {:trigger less(x, y)} :: !less(x, y) && !less(y, x) ==> key(x) == key(y)
    requires a != [] && b != []
    ensures a[0] == b[0]
  {
    assert a[0] in multiset(a) && b[0] in multiset(b);
    var i :| 0 <= i < |b| && b[i] == a[0];
    var j :| 0 <= j < |a| && a[j] == b[0];
    LeastKeys(a, b, less, key, i, j);
    SamePlace(a, 0, j, key);
  }

  // Two sorted lists that hold each other's first element begin with the same key.
  lemma LeastKeys<T(!new), K>(a: seq<T>, b: seq<T>, less: (T, T) -> bool, key: T -> K, i: nat, j: nat)
    requires SortedBy(a, less) && SortedBy(b, less) && j < |a| && i < |b| && b[i] == a[0] && a[j] == b[0]
    requires forall x: T, y: T {:trigger less(x, y)} :: !less(x, y) && !less(y, x) ==> key(x) == key(y)
    ensures key(a[0]) == key(a[j])
  {
    if i > 0 && j > 0 {
      assert !less(a[0], a[j]) && !less(a[j], a[0]);
    }
  }

  lemma SamePlace<T(!new), K>(s: seq<T>, i: nat, j: nat, key: T -> K)
    requires DistinctKeys(s, key) && i <= j < |s|
    ensures key(s[i]) == key(s[j]) ==> i == j
  {
  }

  class UniversalBlob {
    var objects: seq<ObjectRecord>
    var seals: seq<SealRecord>
    var refs: seq<RefRecord>
    var tags: seq<TagRecord>
    var projection: Semantic
    var excluded: seq<Id>

    constructor (objects: seq<ObjectRecord>, seals: seq<SealRecord>, refs: seq<RefRecord>, tags: seq<TagRecord>,
            projection: Semantic, excluded: seq<Id>)
      ensures this.objects == objects && this.seals == seals && this.refs == refs && this.tags == tags
      ensures this.projection == projection && this.excluded == excluded
    {
      this.objects, this.seals, this.refs, this.tags := objects, seals, refs, tags;
      this.projection, this.excluded := projection, excluded;
    }

    // CanonicalizeUniversalBlobV1. It succeeds exactly on orderable inventories; then the
    // Seals are in the canonical order and every other list is arranged by its key. When it
    // fails only the objects have been arranged.
    method Canonicalize() returns (err: Option<OrderError>)
      modifies this
      ensures err.None? <==> Orderable(old(seals))
      ensures err.Some? ==> Unordered(old(seals), err.value)
      ensures ObjectsArranged(old(objects), objects)
      ensures err.None? ==> InOrder(seals) && |seals| == |old(seals)| && forall r :: r in seals <==> r in old(seals)
      ensures err.None? ==> ListsArranged(old(refs), refs, old(tags), tags, old(excluded), excluded)
      ensures err.None? ==> ArrangedSemantic(old(projection), projection)
      ensures err.Some? ==> seals == old(seals) && refs == old(refs) && tags == old(tags)
      ensures err.Some? ==> projection == old(projection) && excluded == old(excluded)
    {
      ArrangeObjects(objects);
      objects := SortBy(objects, ObjectLess);
      var ordered := OrderSeals(seals);
      if ordered.Failure? {
        return Some(ordered.error);
      }
      Rearrange();
      seals := ordered.value;
      err := None;
    }

    // Every list but the Seals and the objects, by its key.
    method Rearrange()
      modifies this`refs, this`tags, this`excluded, this`projection
      ensures ListsArranged(old(refs), refs, old(tags), tags, old(excluded), excluded)
      ensures ArrangedSemantic(old(projection), projection)
    {
      ArrangeLists(refs, tags, excluded);
      NormalizedArranged(projection);
      refs, tags := SortBy(refs, RefLess), SortBy(tags, TagLess);
      excluded, projection := SortBy(excluded, IdLess), Normalized(projection);
    }
  }

  // REFs by name, tags by REF and name, identifiers by value.
  ghost predicate ListsInOrder(refs: seq<RefRecord>, tags: seq<TagRecord>, ids: seq<Id>) {
    && (forall i, j :: 0 <= i < j < |refs| ==> refs[i].name == refs[j].name || StringLess(refs[i].name, refs[j].name))
    && (forall i, j :: 0 <= i < j < |tags| ==>
          || StringLess(tags[i].ref, tags[j].ref)
          || (tags[i].ref == tags[j].ref && (tags[i].name == tags[j].name || StringLess(tags[i].name, tags[j].name))))
    && forall i, j :: 0 <= i < j < |ids| ==> ids[i] <= ids[j]
  }

  lemma ArrangedInOrder(refs: seq<RefRecord>, tags: seq<TagRecord>, ids: seq<Id>)
    requires SortedBy(refs, RefLess) && SortedBy(tags, TagLess) && SortedBy(ids, IdLess)
    ensures ListsInOrder(refs, tags, ids)
  {
    StringOrder();
    forall i, j | 0 <= i < j < |refs| ensures refs[i].name == refs[j].name || StringLess(refs[i].name, refs[j].name) {
      assert !RefLess(refs[j], refs[i]);
    }
    forall i, j | 0 <= i < j < |tags|
      ensures StringLess(tags[i].ref, tags[j].ref)
           || (tags[i].ref == tags[j].ref && (tags[i].name == tags[j].name || StringLess(tags[i].name, tags[j].name)))
    {
      assert !TagLess(tags[j], tags[i]);
    }
    forall i, j | 0 <= i < j < |ids| ensures ids[i] <= ids[j] {
      assert !IdLess(ids[j], ids[i]);
    }
  }

  ghost predicate ObjectsArranged(was: seq<ObjectRecord>, now: seq<ObjectRecord>) {
    Arranged(was, now, ObjectLess) && forall i, j :: 0 <= i < j < |now| ==> now[i].id <= now[j].id
  }

  ghost predicate ListsArranged(refs: seq<RefRecord>, refs': seq<RefRecord>, tags: seq<TagRecord>,
          tags': seq<TagRecord>, ids: seq<Id>, ids': seq<Id>) {
    && Arranged(refs, refs', RefLess) && Arranged(tags, tags', TagLess) && Arranged(ids, ids', IdLess)
    && ListsInOrder(refs', tags', ids')
  }

  lemma ArrangeObjects(objects: seq<ObjectRecord>)
    ensures ObjectsArranged(objects, SortBy(objects, ObjectLess))
  {
    RefsOrdered();
    SortByKey(objects, ObjectLess);
    var now := SortBy(objects, ObjectLess);
    forall i, j | 0 <= i < j < |now| ensures now[i].id <= now[j].id {
      assert !ObjectLess(now[j], now[i]);
    }
  }

  lemma ArrangeLists(refs: seq<RefRecord>, tags: seq<TagRecord>, ids: seq<Id>)
    ensures ListsArranged(refs, SortBy(refs, RefLess), tags, SortBy(tags, TagLess), ids, SortBy(ids, IdLess))
  {
    RefsOrdered();
    SortByKey(refs, RefLess);
    SortByKey(tags, TagLess);
    SortByKey(ids, IdLess);
    ArrangedInOrder(SortBy(refs, RefLess), SortBy(tags, TagLess), SortBy(ids, IdLess));
  }

  ghost predicate ArrangedSemantic(was: Semantic, now: Semantic) {
    && Arranged(was.materialized, now.materialized, AssertionLess)
         && Arranged(was.collapsed, now.collapsed, AssertionLess)
    && Arranged(was.unobserved, now.unobserved, UnobservedLess) && Arranged(was.merged, now.merged, MergedLess)
  }

  lemma NormalizedArranged(sem: Semantic)
    ensures ArrangedSemantic(sem, Normalized(sem))
  {
    RecordOrders();
    SortBySorted(sem.materialized, AssertionLess);
    SortBySorted(sem.unobserved, UnobservedLess);
    SortBySorted(sem.collapsed, AssertionLess);
    SortBySorted(sem.merged, MergedLess);
  }

  // One canonical document for every arrangement of the same records: REF names, tag names
  // within a REF and identifiers are different in a repository.
  lemma CanonicalDocumentUnique(refs: seq<RefRecord>, tags: seq<TagRecord>, sem: Semantic,
          refs1: seq<RefRecord>, refs2: seq<RefRecord>, tags1: seq<TagRecord>, tags2: seq<TagRecord>, sem1: Semantic,
          sem2: Semantic)
    requires Arranged(refs, refs1, RefLess) && Arranged(refs, refs2, RefLess)
              && DistinctKeys(refs, (r: RefRecord) => r.name)
    requires Arranged(tags, tags1, TagLess) && Arranged(tags, tags2, TagLess)
    requires DistinctKeys(tags, (t: TagRecord) => (t.ref, t.name))
    requires ArrangedSemantic(sem, sem1) && ArrangedSemantic(sem, sem2)
    ensures refs1 == refs2 && tags1 == tags2 && sem1 == sem2
  {
    StringOrder();
    RefsOrdered();
    RecordOrders();
    ArrangedUnique(refs, refs1, refs2, RefLess, (r: RefRecord) => r.name);
    ArrangedUnique(tags, tags1, tags2, TagLess, (t: TagRecord) => (t.ref, t.name));
    SortedUnique(sem1.materialized, sem2.materialized, AssertionLess);
    SortedUnique(sem1.unobserved, sem2.unobserved, UnobservedLess);
    SortedUnique(sem1.collapsed, sem2.collapsed, AssertionLess);
    SortedUnique(sem1.merged, sem2.merged, MergedLess);
  }
}
