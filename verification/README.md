# Sealgraph verification model

Sealgraph stores immutable, content-addressed Seals. A Seal lists Cause links; each link may
also assert previous revisions of its target. A repository is a set of movable REF heads over
these objects, and every fact it reports is derived from the graph the heads reach. This project
models that derivation, the protocol that moves the heads, the migration from format 4 to
format 5 and three self-contained algorithms, and proves what each of them promises.

The modules follow the repository's components:

* `Ids`, `Text`, `Sorting`, `Utf8`, `Walks`: identifiers and their order, strings, sorting, the
  UTF-8 and JSON string layer, and walks in a graph. An ObjectID of the graph is a number: the
  repository only compares identifiers and sorts them, and 64-digit hexadecimal strings sort like
  numbers.
* `DepthFirst`, `ObservedGraph`, `FirstMatch`, `StalePaths`, `Impact`, `RevisionChains`,
  `DirectionSearch`, `DirectionGraph`, `Admission`, `HistoricalReview`, `ObservationReasons`: the observed-graph
  engine. The graph is an object whose maps are filled by a work list; memos, queues, colours and
  visit counters are mutable state, and each algorithm is proved against a definition over walks.
* `HeadSnapshot`: the lock-free reader that collects the REF manifests twice, over an arbitrary
  history of foreign writes.
* `RepositoryState`, `Publication`, `Recovery`, `RecoveryWitness`, `Authoring`, `Commands`:
  authoring, publication and recovery. `RepositoryState` defines one relation for every atomic step
  of seal, tag, mv and drop, with a crash possible between any two; `Publication` and `Recovery`
  prove invariants of all runs; `Commands` is the repository object whose methods perform those steps
  write by write, with a budget of writes after which the process dies, and are proved to produce
  only such runs.
* `SealOrder`, `Projection`, `ProjectedGraph`, `Migration`: the canonical dependency-first Seal
  order, the projection of format-4 Seals to format 5, when its graph is accepted, and the document
  that carries both.
* `TextDiff`, `Paging`, `CanonicalSeal`, `JsonReader`, `SealReading`: the line comparison, the
  two-stream cursor paging, the canonical format-4 bytes and how they read back.

Hashing an encoded object is a parameter `name` that gives different objects different
identifiers; the format-5 codecs are part of it. The stores are maps with atomic writes. Foreign
writes, crash points and map iteration orders are arbitrary.

`dafny verify dfyconfig.toml` verifies the whole project.

Four results are worth knowing when changing the code:

* `validateMoveShape` does not require the two manifests of an `mv` record to be equal. Recovering
  an `mv` record restores both REFs exactly when they are
  (`Recovery.RecoverRestoresExactly`, with a losing input in `Recovery.UnequalMoveIsNotRestored`).
  Records written by `MoveREF` always are.
* Recovering a seal or a drop can leave heads whose graph is cyclic, although the record is in order
  and its targets load. The heads stay safe exactly when the head that comes back fits the heads that
  stay, a graph build that recovery does not make (`Recovery.RecoverSafeExactly`); with that check
  every run with recoveries is safe (`Recovery.FittingRunSafe`). Both failures are reached by ordinary
  commands (`RecoveryWitness.RecoveredSealCanBreak`, `RecoveryWitness.RecoveredDropCanBreak`).
  Recovering a tag or a move is always safe.
* Seals that become one can make a migration fail. It is accepted exactly when some rank of the
  collapse classes falls along every old Cause link and from every linked child to its parent, unless
  the two collapse (`ProjectedGraph.AcceptedExactly`). Without a collapse that always holds
  (`ProjectedGraph.WithoutCollapseAccepted`); content changed and changed back fails once Seals rely
  on both revisions (`ProjectedGraph.RevertCannotMigrate`).
* The double collect needs the hypothesis that no manifest returns to an earlier value while it
  runs, and nothing weaker will do (`HeadSnapshot.DoubleCollectExact`).

## Model

| member | source | states |
|---|---|---|
| `Walks.Closure` | internal/repository/revision_graph.go:477-490 | the last-in-first-out work list returns exactly what its seeds reach |
| `Walks.WorklistExact` | internal/repository/observation_v5.go:192-206 | a visited set that holds the seeds, is closed and holds nothing unreachable is the reachable set |
| `Walks.RankedIsAcyclic` | internal/repository/observation_v5.go:146-190 | a rank that falls along every edge excludes every closed walk |
| `DepthFirst.ColourSearch.Check` | internal/repository/observation_v5.go:146-190 | the three-colour search terminates on every graph and accepts exactly the closed acyclic ones; acceptance yields a rank that falls along every edge, refusal a witness |
| `DepthFirst.ColourSearch.Visit` | internal/repository/observation_v5.go:152-181 | one visit keeps the colours consistent: grey nodes form the current walk, black ones are ranked above all they point to |
| `DepthFirst.WitnessRefutes` | internal/repository/observation_v5.go:153-174 | each reported error is a cycle, self edge or missing node that really makes the graph unacceptable |
| `ObservedGraph.Graph.Build` | internal/repository/observation_v5.go:38-87 | building succeeds exactly when the heads have a stored, acyclic closure; the nodes are then the least closed set holding the heads, every edge map says exactly what they assert, and Causes and revisions are ranked; otherwise the error names a reached Seal that does not load or a fault of the loaded graph |
| `ObservedGraph.Graph.Drain` | internal/repository/observation_v5.go:45-80 | the queue loads everything reachable or names a reachable Seal that does not load |
| `ObservedGraph.Graph.Absorb` | internal/repository/observation_v5.go:58-79 | one Seal adds exactly its own Cause edges, revision edges, successor edges and assertions |
| `ObservedGraph.Graph.DeriveActive` | internal/repository/observation_v5.go:192-206 | the active set is what the heads reach along revision edges |
| `ObservedGraph.ReachedIsLeast` | internal/repository/observation_v5.go:45-80 | every supporting set of the heads holds all that was loaded |
| `ObservedGraph.OkMeansAcyclic` | internal/repository/observation_v5.go:81-86 | heads with an acyclic closure pass the check on the gathered edge maps |
| `FirstMatch.AllMatchesExact` | internal/repository/revision_graph.go:491-533 | the unmemoised, uncut enumeration lists every first-match Cause path once and in order |
| `FirstMatch.MatchExists` | internal/repository/revision_graph.go:508-533 | a first-match path exists exactly when a matching Seal is reachable |
| `FirstMatch.CollectedFirst` | internal/repository/revision_graph.go:491-506 | joining cut suffix lists, sorting and cutting again gives the first paths of the full set |
| `Ids.LexExact` | internal/repository/revision_graph.go:216-229 | among paths of one length the first Seal that differs decides |
| `StalePaths.FirstStalePaths` | internal/repository/revision_graph.go:193-214 | the memoised search lists every Cause path whose last Seal is its first non-active-leaf, each once and in order |
| `StalePaths.StaleFacts` | internal/repository/revision_graph.go:174-191 | self, direct and transitive facts are exactly those of the definition |
| `StalePaths.StaleFactsMeaning` | internal/repository/revision_graph.go:174-191 | some direct or transitive fact is reported exactly when a Cause below the head is not an active leaf |
| `StalePaths.IsFrontier` | internal/repository/revision_graph.go:265-272 | with a memo shared by all heads the answer is that no stale head lies in the strict Cause closure |
| `StalePaths.ReachesStaleHead` | internal/repository/revision_graph.go:274-290 | the memoised search decides reachability of a stale head and keeps the memo truthful |
| `StalePaths.FrontierCovers` | internal/repository/revision_graph.go:231-290 | every stale head has a frontier head in its reflexive Cause closure, so the frontier is not empty when something is stale |
| `StalePaths.FrontierAntichain` | internal/repository/revision_graph.go:231-290 | no frontier head reaches a different stale head |
| `StalePaths.Stale` | internal/repository/revision_graph.go:231-263 | the listing is the stale REFs in name order, each with its head and the exact self, direct and transitive facts about it; with the frontier option those whose heads are frontier heads |
| `Impact.ImpactSuffixPaths` | internal/repository/revision_graph.go:508-533 | with every memo entry cut at the limit, the result is the first entries of the ordered set of first-match paths |
| `Impact.CutPaths` | internal/repository/revision_graph.go:491-506 | the same for the paths of a head |
| `Impact.TruncationExact` | internal/repository/revision_graph.go:435-443 | such a list is a prefix of the complete enumeration, so comparing its length with the limit decides truncation |
| `Impact.ImpactedHasPath` | internal/repository/revision_graph.go:426-443 | a head has a path exactly when it is impacted: no impacted head is lost |
| `Impact.ImpactOf` | internal/repository/revision_graph.go:420-456 | one head is reported exactly when impacted, and its revision proofs never fail |
| `Impact.ImpactQuery` | internal/repository/revision_graph.go:382-458 | the records are exactly the impacted Seals other than the selected one, with exact paths, an exact truncation flag and proofs for every path; it fails exactly when some observer was not observed, naming the first |
| `Impact.MatchedIsSource` | internal/repository/revision_graph.go:406-408 | the end of an impact path is a source, hence reachable along in-scope revisions |
| `RevisionChains.Depths` | internal/repository/history.go:51-86 | the search reaches exactly the revisions of the head and records the true distance of each |
| `RevisionChains.NeverRelaxed` | internal/repository/history.go:67-73 | when an edge meets a known Seal its recorded depth is never lowered |
| `RevisionChains.FilteredRevisions` | internal/repository/revision_graph.go:460-476 | the filtered edges are exactly those some in-scope observer asserts |
| `RevisionChains.AllInScope` | internal/repository/revision_graph.go:397-405 | without a filter the graph's own revision edges are the scoped ones |
| `RevisionChains.ShortestChain` | internal/repository/revision_graph.go:535-560 | a chain is found exactly when one exists, and it is the first of the shortest ones, Seal by Seal |
| `RevisionChains.ProveRevision` | internal/repository/revision_graph.go:535-576 | the proof exists exactly when the target is reachable in scope, is the first of the shortest, tells of every Seal on it what is asserted in scope, and every edge carries all and at least one of its in-scope assertions |
| `RevisionChains.ScopedRevisionObservation` | internal/repository/revision_graph.go:578-610 | the scoped assertions about a Seal in order, their states, and the previous revisions exactly those they name |
| `RevisionChains.StatesTell` | internal/repository/revision_graph.go:588-607 | a scope is marked asserted exactly when it names a previous revision, and unobserved exactly when no assertion is in scope |
| `RevisionChains.EdgeSources` | internal/repository/revision_graph.go:561-573 | the sources of an edge are exactly the in-scope assertions that name it, in their order |
| `DirectionGraph.TraceDirectionGraph` | internal/repository/trace_direction_graph.go:72-114 | it fails exactly on a bad limit, on the first visit of a Seal that is not stored, or on a cyclic closure; what it observed are the Seals of the first visits, all that the heads and the center reach when the closure is complete; each completeness flag says exactly whether the work fits into the budget, and the visits used are one per queue entry and one per route; whatever the budget, exactly the routes the first visits lead to are accounted for, each by kind and with the best one recorded, and a complete result lists exactly the Seals strictly above and below the center |
| `DirectionGraph.BudgetExact` | internal/repository/trace_direction_graph.go:72-114 | the two flags and the visits used, from the routes either search found |
| `DirectionGraph.ExtraExact` | internal/repository/trace_direction_graph.go:226-248 | in an acyclic observation the heads reach the center along Causes and revisions, whoever asserts them, exactly when it belongs to their own closure |
| `DirectionGraph.DirectionClosure` | internal/repository/trace_direction_graph.go:135-166 | the budgeted closure observes exactly the Seals of the first queue entries, first in first out from the center and the sorted heads, charges one visit for every entry, completes exactly when all of them fit, and otherwise stops at the budget or at the first entry that is not stored |
| `DirectionGraph.FirstTurns` | internal/repository/trace_direction_graph.go:135-166 | the seeds and the number of visits alone decide what is observed |
| `DirectionSearch.DirectionMembers` | internal/repository/trace_direction_graph.go:186-224 | every reported path is a simple Cause path and every recorded indirect path has least length even when the budget ran out; the routes found are exactly those that extend one of the first visits, as many as the budget allows, in order of length and then Seal by Seal; every one of them is reported under its kind and the best is recorded, and nothing else is; a complete search reports every member with its least path |
| `DirectionSearch.FoundInOrder` | internal/repository/trace_direction_graph.go:186-224 | what was generated is what extends the walks taken off the queue, and these are the first in order |
| `DirectionSearch.FoundUnique` | internal/repository/trace_direction_graph.go:186-224 | so the number of visits alone decides which routes are found |
| `DirectionSearch.SearchMembers` | internal/repository/trace_direction_graph.go:186-224 | the queue loop generates simple walks level by level, none twice, and owes none that is not queued |
| `DirectionSearch.MemberGenuine` | internal/repository/trace_direction_graph.go:263-293 | what the members map holds at any time is genuine and of least length |
| `DirectionSearch.MemberFinal` | internal/repository/trace_direction_graph.go:279-293 | with an empty queue the recorded path is the least by length and then lexicographically |
| `DirectionSearch.RouteIffReaches` | internal/repository/trace_direction_graph.go:186-224 | in an acyclic observed graph a route to a Seal exists exactly when it is strictly related to the center |
| `DirectionSearch.GeneratedAreRoutes` | internal/repository/trace_direction_graph.go:186-224 | the walks generated are routes, and all routes once the queue is empty |
| `DirectionGraph.CompleteIsExact` | internal/repository/trace_direction_graph.go:186-224 | a complete search reports exactly the strictly related Seals |
| `DirectionSearch.ReverseCauses` | internal/repository/trace_direction_graph.go:250-261 | the turned edges are exactly the Cause edges turned around, sorted |
| `Admission.AdmitCauses` | internal/repository/observation_v5.go:292-316 | the walk passes exactly when every reachable Cause is present, not draft and, unless reviewed, an active leaf; otherwise it names one that is not |
| `Admission.AdmittedIsClean` | internal/repository/observation_v5.go:266-316 | a normally admitted head relies on no stale Cause in the graph it was admitted against |
| `Admission.StaleIsRefused` | internal/repository/observation_v5.go:311-313 | a head that relies on a stale Cause is refused normal admission |
| `Admission.AdmittedStatus` | internal/repository/revision_graph.go:174-191 | the stale facts of a normally admitted head are empty |
| `Admission.FitSame` | internal/repository/observation_v5.go:292-316 | admission depends on the graph only as a relation |
| `HistoricalReview.WithoutReview` | internal/repository/historical_review.go:31-40 | every attachment but the review records is kept, in order |
| `HistoricalReview.AttachingKeepsSubject` | internal/repository/historical_review.go:31-40 | attaching or replacing the review leaves the subject it is bound to unchanged |
| `HistoricalReview.HistoricalCauseTargets` | internal/repository/historical_review.go:66-85 | the targets are exactly the reachable Causes, sorted |
| `HistoricalReview.ReviewComparisonLeaves` | internal/repository/historical_review.go:87-105 | the compared Seals are exactly the active leaves reachable along successor edges |
| `HistoricalReview.ActiveHasLeaf` | internal/repository/historical_review.go:87-105 | an active Seal of an accepted graph has such a leaf |
| `HistoricalReview.ReviewTargets` | internal/repository/historical_review.go:42-64 | the facts list exactly the reachable Causes, each with its exact comparison set, revision state and draft flag |
| `HistoricalReview.ValidateBinding` | internal/repository/historical_review.go:130-151 | a record is accepted exactly when its REF, subject, other heads and entries match the facts, and otherwise refused for the first of these that differs |
| `HistoricalReview.ReviewAdmission` | internal/repository/historical_review_inspection.go:55-68 | reviewed admission passes exactly when every target is retained and none is draft, and otherwise names the first that is not |
| `HistoricalReview.AcceptedCovers` | internal/repository/historical_review_inspection.go:43-68 | an accepted review has exactly one entry for every reachable Cause, bound to its exact comparison set and retained |
| `ObservationReasons.ReasonsFor` | internal/repository/observation_inspect.go:261-316 | the records are about the subject and list every Seal some Cause path ends at unless it is an active leaf, with the first paths in visiting order and an exact completeness flag; a failure names a Seal on a Cause walk that repeats or does not load |
| `ObservationReasons.EnumerateExact` | internal/repository/observation_inspect.go:262-303 | the recursion visits exactly the Cause paths |
| `ObservationReasons.EnumerateAllOrder` | internal/repository/observation_inspect.go:262-303 | a path is visited before those that go on from it, and where two part the link order decides |
| `ObservationReasons.EnumerateAllNoDup` | internal/repository/observation_inspect.go:262-303 | with distinct link targets it visits no path twice, so the completeness flag counts different paths |
| `ObservationReasons.ListedIffReached` | internal/repository/observation_inspect.go:262-303 | a Seal ends a visited path exactly when a Cause of the subject reaches it |
| `ObservationReasons.ReasonsIffStale` | internal/repository/observation_inspect.go:258-316 | whatever the witness bound, a reason is reported exactly when the stale facts report one |
| `HeadSnapshot.DoubleCollect` | internal/repository/observation.go:23-90 | two collects with the same values fix the whole REF map at the instant between them when no manifest returns to an earlier value |
| `HeadSnapshot.World.ObserveStable` | internal/repository/observation.go:23-90 | the reader's loops, against any interleaving of foreign writes, yield a map each REF of which was read twice with that value, and which was the whole REF map at one instant when none returns; while nothing changes they always succeed |
| `HeadSnapshot.World.RevalidateHeads` | internal/repository/observation.go:63-90 | a successful second pass read every REF, present or absent, with the observed value; it succeeds when nothing changed |
| `HeadSnapshot.DoubleCollectExact` | internal/repository/observation.go:23-90 | the hypothesis is exact: every agreeing pair of collects within an interval shows the REF map between them if and only if no REF returns there |
| `HeadSnapshot.ReturningValuesFool` | internal/repository/observation.go:63-90 | two REFs and five states for which the reads agree although no instant matches them |
| `Publication.SafeRun` | internal/repository/repository.go:363-466 | in every state of every run of seal, tag, mv and drop with edits and crashes between any two writes, the heads have a stored acyclic closure and all tags load |
| `Publication.StepKeeps` | internal/repository/repository.go:363-466 | each atomic step keeps that invariant |
| `Publication.PartsMakeSeal` | internal/repository/repository.go:426-466 | once its three objects are written the Seal loads as it was validated |
| `Publication.WriteExtends` | internal/repository/repository.go:455-464 | writing a content-addressed object never replaces another |
| `Publication.GraphOkKept` | internal/repository/observation_v5.go:38-87 | a fine graph stays fine when objects are added and heads are removed |
| `Publication.ManifestStepKeeps` | internal/repository/tag_move.go:29-151 | tag, mv and drop keep the heads safe |
| `Publication.SafeMeansStored` | internal/repository/repository.go:515-571 | everything the head of a REF reaches is stored with its Material, Provenance, content and attachments, and so is what its tags name |
| `Publication.LoadsExactly` | internal/repository/repository.go:515-571 | a Seal loads exactly when all of it is stored, field by field as stored |
| `Publication.Observe` | internal/repository/observation_v5.go:26-87 | in every state of every run the observation of the current heads succeeds and is acyclic |
| `Recovery.Inspect` | internal/repository/recovery.go:134-185 | inspection fails exactly when a recorded target does not load, naming the first such REF, and otherwise reports each REF's place and the status that holds |
| `Recovery.StatusExclusive` | internal/recovery/recovery.go:267-280 | a valid record has at most one status |
| `Recovery.EqualSidesConfuse` | internal/recovery/recovery.go:271-273 | some REF map gives a record two statuses at once exactly when before and after are equal in all its transitions, which is what the inequality check excludes |
| `Recovery.RecoverRestoresExactly` | internal/repository/recovery.go:187-235 | recovery acts exactly on applied records, touches only listed REFs, and restores all of them exactly when an mv record moves one manifest |
| `Recovery.UnequalMoveIsNotRestored` | internal/recovery/recovery.go:311-328 | a record the shape check accepts for which recovery does not restore |
| `Recovery.RecoverUndoes` | internal/repository/recovery.go:187-235 | recovering right after a command gives back the REF map it started from |
| `Recovery.LoggedRun` | internal/recovery/recovery.go:61-129 | in all runs, with foreign changes between commands and recoveries, every record is valid and a command past its journal entry finds it PREPARED and exact |
| `Recovery.RecordComesFirst` | internal/repository/repository.go:396-418 | no command changes a manifest before a PREPARED record of that very change exists |
| `Recovery.RecoverInRun` | internal/repository/recovery.go:187-216 | in all runs a recovery restores every listed REF, changes nothing else and cannot be repeated |
| `Recovery.RecoverSafeExactly` | internal/repository/recovery.go:187-235 | for every kind of record, what a recovery leaves is safe exactly when the head it brings back fits the heads that stay: always for a tag or a move, and for a seal or a drop when nothing comes back or the graph over those heads builds |
| `Recovery.RecoverKeepsHeads` | internal/repository/recovery.go:187-235 | recovering a tag or a move keeps the heads safe |
| `Recovery.FittingRunSafe` | internal/repository/recovery.go:187-216 | with that check in place every state of every run of commands, edits, crashes and recoveries is safe |
| `RecoveryWitness.RecoveredDropCanBreak` | internal/repository/recovery.go:134-216 | a run of admitted seals and a drop after which recovering the drop makes the graph of the heads cyclic |
| `RecoveryWitness.SideIsFit` | internal/repository/observation_v5.go:292-316 | the seals of those runs pass the normal admission too, whatever graph they are judged by |
| `RecoveryWitness.RecoveredSealCanBreak` | internal/repository/recovery.go:134-216 | the same for a seal record |
| `Recovery.MoveIntent` | internal/repository/tag_move.go:128-146 | the record mv writes is valid, moves one manifest and describes exactly the rename |
| `Recovery.SealIntent` | internal/repository/repository.go:388-406 | the record seal writes describes exactly the update of its REF |
| `Commands.Repository.Seal` | internal/repository/repository.go:363-424 | wherever the command stops the REFs are untouched, as another program left them, or one head moved while its tags and every other REF stayed, with the manifests on both sides recorded; success publishes the Seal with exactly the content, attachments, flags and links of the Candidate, commits the record and removes the Candidate; every refusal has its reason in the state before, in the order of the checks; a success was judged by a graph in which every Cause it reaches is fit and, when reviewed, by a recorded review that accounts for them |
| `Commands.Repository.CheckReview` | internal/repository/historical_review_inspection.go:25-68 | a reviewed seal passes exactly when a readable record confirms the facts of the moment about a Candidate that is neither root nor draft, and is otherwise refused for the first thing that does not |
| `Commands.Repository.RecordExact` | internal/repository/historical_review_inspection.go:25-42 | the first attachment under the review's name decides, and it must be a stored review of its media type that reads |
| `Commands.Repository.Unmoved` | internal/repository/repository.go:380-387 | whatever another program leaves in the manifests while the objects are written, the seal goes on exactly when they are as observed |
| `Commands.PublishedIsClean` | internal/repository/revision_graph.go:174-191 | after a normal seal a fresh observation of the new heads reports no direct and no transitive stale fact about its REF |
| `Commands.JudgedIsObserved` | internal/repository/observation_v5.go:266-316 | the graph a Candidate was judged by is the graph observed once it is published |
| `Commands.Repository.Status` | internal/repository/revision_graph.go:111-137 | the status of a REF fails exactly when the graph of the heads does not build; it tells the flags of Candidate and head and the exact stale facts |
| `Commands.Repository.Add` | internal/repository/repository.go:119-152 | a Candidate is saved only after its content, names what the options say and was checked by the graph with its Seal in place; otherwise no Candidate changes, for the reason reported |
| `Authoring.ApplyAddOptions` | internal/repository/repository.go:155-189 | the options are refused in order, or change exactly the fields they name |
| `Authoring.BaseIsHead` | internal/repository/repository.go:201-227 | without a Candidate of its own an existing REF starts from its head as stored: sealing that again would name the head itself |
| `Authoring.CauseShapes` | internal/repository/repository.go:252-262 | an accepted add with a Cause holds that link once, keeps every other target and never makes a root with Causes |
| `Commands.Repository.WriteParts` | internal/repository/repository.go:426-466 | Material, Provenance and Seal are written in order, each a step of the run, and then the Seal loads as it was validated |
| `Commands.Repository.ValidateGraph` | internal/repository/observation_v5.go:266-316 | acceptance means the graph with the Candidate in place is stored and acyclic and, unless draft or root, every Cause it reaches is fit; a refusal means one of these fails |
| `Commands.Repository.CreateTag` | internal/repository/tag_move.go:29-77 | one tag is new while the head, every other tag and every other REF stay, or nothing changes; an addition is recorded and, when the command completes, committed; each outcome occurs under exactly its own condition |
| `Commands.Repository.MoveREF` | internal/repository/tag_move.go:102-152 | the manifest moves unchanged to the free name or nothing moves; a move is recorded, and each outcome occurs under exactly its own condition |
| `Commands.Repository.DropREF` | internal/repository/recovery.go:41-85 | the REF disappears as a whole or not at all; a drop is recorded, and each outcome occurs under exactly its own condition |
| `Commands.Repository.RecoverOperation` | internal/repository/recovery.go:187-216 | unless the process dies, it succeeds exactly on readable applied records, then restoring every listed REF and nothing else; otherwise nothing changes; the heads stay safe exactly when what comes back fits |
| `Commands.Repository.Prepare` | internal/recovery/recovery.go:61-91 | a record is entered exactly when valid and under a new identifier |
| `Commands.Repository.Commit` | internal/recovery/recovery.go:93-129 | only the record that was prepared, unchanged and still PREPARED, becomes COMMITTED, and nothing else changes |
| `Commands.Repository.Reading` | internal/repository/observation_v5.go:26-36 | as long as no other program changed the manifests and every recovery fitted, a reader finds safe heads, whatever happened before |
| `SealOrder.TopologicalSealOrder` | internal/migration/universal_blob_v1.go:440-491 | success exactly on closed acyclic inventories, and then the canonical order whatever the map iteration order; otherwise an absent dependency is named or there is a cycle |
| `SealOrder.CanonicalIsLeast` | internal/migration/universal_blob_v1.go:475-486 | no dependency-first order comes lexicographically before it |
| `SealOrder.CanonicalUnique` | internal/migration/universal_blob_v1.go:475-486 | it is unique |
| `SealOrder.CanonicalOrders` | internal/migration/universal_blob_v1.go:475-491 | it lists every Seal once, dependencies first |
| `SealOrder.StuckIsCyclic` | internal/migration/universal_blob_v1.go:487-489 | Seals left over when nothing is ready contain a cycle |
| `SealOrder.Tally` | internal/migration/universal_blob_v1.go:441-462 | the counters start at the number of different dependencies, and an absent one is refused |
| `SealOrder.Release` | internal/migration/universal_blob_v1.go:480-485 | placing a Seal makes ready exactly those that waited for it alone |
| `Migration.UniversalBlob.Canonicalize` | internal/migration/universal_blob_v1.go:67-93 | exactly orderable inventories succeed; the Seals are then in the canonical order and objects, REFs, tags, excluded objects and projection records are arranged by their keys; otherwise only the objects are arranged and the error is true of the inventory |
| `Migration.ReportOrder` | internal/migration/project_v5.go:204-241 | reports are ordered by their identifiers from left to right |
| `Migration.CanonicalDocumentUnique` | internal/migration/universal_blob_v1.go:63-93 | every arrangement of the same REFs, tags and projection records has one canonical arrangement |
| `SealOrder.InOrderUnique` | internal/migration/universal_blob_v1.go:67-84 | one order for every input permutation, and canonicalising again changes nothing |
| `SealOrder.ValidateSeals` | internal/migration/universal_blob_v1.go:374-395 | the importer accepts exactly the canonical order of Seals that carry their own identities |
| `Projection.ProjectCauseLinks` | internal/migration/project_v5.go:137-186 | it fails exactly on unmapped targets or parents and names one; otherwise there is one sorted link for every image, with exactly the mapped parents and messages of its group, and every parent edge and merge is reported |
| `Projection.ProjectAll` | internal/migration/project_v5.go:76-89 | it succeeds exactly on inventories that list every linked Seal and its parent before the observer, and otherwise names a misplaced one; the reports of all observers are complete and without repetition |
| `Projection.CausesCorrespond` | internal/migration/project_v5.go:54-96 | OldToNew is a functional bisimulation of Cause links, also for Seals that collapse into one |
| `Projection.ParentsAccounted` | internal/migration/project_v5.go:152-167 | every observed parent edge is exactly one of materialised or collapsed |
| `Projection.ReportsAreEdges` | internal/migration/project_v5.go:152-167 | nothing else is reported |
| `Projection.UnobservedIsTheRest` | internal/migration/project_v5.go:188-202 | a parent edge is dropped unobserved exactly when no report mentions it |
| `Projection.UnobservedParents` | internal/migration/project_v5.go:188-202 | the unobserved list holds exactly the parent edges of Seals nobody links, once each |
| `Projection.PreviousIsMaterialized` | internal/migration/project_v5.go:162-167 | the new previous-revision sets hold exactly the materialised parents |
| `ProjectedGraph.ValidateProjectedGraph` | internal/migration/project_v5.go:290-344 | it accepts exactly the closed graphs with a rank that falls along every Cause and revision edge, and otherwise names a fault of the edges |
| `ProjectedGraph.AcceptedExactly` | internal/migration/project_v5.go:92-94 | whatever collapses, a projection is accepted exactly when some rank of the collapse classes falls along every old Cause link and from every linked child to its parent, unless the two collapse |
| `ProjectedGraph.CollapseExactly` | internal/migration/project_v5.go:117-135 | two old Seals become one exactly when material, flags and what their links turn into are equal |
| `Migration.Compute` | internal/migration/project_v5.go:54-96 | it succeeds exactly on inventories that are placed right and whose collapse classes have such a rank; every new Seal has the content, attachments and flags of its record and is named by what it holds; the reports are exact and in order, and a refusal names a misplaced record or means that there is no such rank |
| `Migration.ProjectionDetermined` | internal/migration/project_v5.go:48-53 | whoever projects an inventory gets the same Seals and the same mapping |
| `Migration.SemanticUnique` | internal/migration/project_v5.go:204-218 | an inventory and its mapping have one normalised semantic section |
| `Migration.Project` | internal/migration/project_v5.go:37-46 | the importer accepts exactly the documents that carry the semantic section of their own inventory |
| `Migration.CanonicalMigrates` | internal/migration/project_v5.go:48-53 | on an inventory in the canonical order nothing but a collapse can be in the way |
| `ProjectedGraph.WithoutCollapseAccepted` | internal/migration/project_v5.go:92-94 | when different old Seals stay different the check passes: the canonical order is the rank |
| `ProjectedGraph.RevertCannotMigrate` | internal/migration/project_v5.go:92-94 | an inventory in canonical order whose classes have no such rank, so that its every projection is refused |
| `ProjectedGraph.MigratedGraphOk` | internal/migration/project_v5.go:92-94 | what the importer accepts, the format-5 graph observation accepts for any heads |
| `TextDiff.PrintAligned` | internal/cli/compare_text.go:126-149 | what is to be printed replays before into after; within the cell budget it keeps as many lines as a longest common subsequence, and of all scripts that do it keeps before it removes and removes before it adds, counting kept lines together; over the budget it is all of before, then all of after; what is shown are those calls, clipped, whose rendering fits what the earlier ones left of the byte budget, and the output is marked omitted exactly when they are not everything |
| `TextDiff.BestIsFirst` | internal/cli/compare_text.go:151-176 | the script that the table leads to comes first among all alignments that keep as many lines |
| `TextDiff.TextOutput.AllFits` | internal/cli/compare_text.go:80-93 | where no line is longer than the limit and everything fits, everything is shown |
| `TextDiff.ShortestScript` | internal/cli/compare_text.go:126-183 | no other script that turns before into after keeps more lines or changes fewer |
| `TextDiff.NoLongerCommon` | internal/cli/compare_text.go:137-147 | no common subsequence is longer than the table says |
| `TextDiff.LongestCommon` | internal/cli/compare_text.go:137-147 | one of that length exists |
| `TextDiff.KeptIsCommon` | internal/cli/compare_text.go:151-183 | the kept lines of any working script are a common subsequence, and the changed lines make up the rest |
| `TextDiff.FillTable` | internal/cli/compare_text.go:137-147 | every cell of the flat 32-bit table holds the length for its two suffixes, without overflow |
| `TextDiff.EmitBoth` | internal/cli/compare_text.go:151-176 | the emitter's script covers both prefixes and keeps the full length |
| `TextDiff.TextOutput.Line` | internal/cli/compare_text.go:80-93 | a line is shown within the budget or the output is marked omitted |
| `Paging.Page` | internal/traceoccurrence/page.go:19-50 | the first starts after an offset, up to the limit, and whether more follow |
| `Paging.StartsExact` | internal/traceoccurrence/page.go:40-48 | the listing holds exactly the matching offsets |
| `Paging.Collect` | internal/cli/trace_occurrences_output.go:237-272 | one page is the first entries of what remains in the two streams, and has_more says whether anything follows |
| `Paging.FillPage` | internal/cli/trace_occurrences_output.go:219-235 | a page with more to come is full, so it has a last entry, and its cursor is accepted by the next request |
| `Paging.RemainingAfter` | internal/cli/trace_occurrences_output.go:237-272 | asking with a cursor lists exactly the entries after it |
| `Paging.PagingLossless` | internal/cli/trace_occurrences_output.go:207-272 | the pages of any limit joined are the whole listing, each entry once and in order; all but the last are full |
| `Paging.AllPaged` | internal/cli/trace_occurrences_output.go:237-272 | starting without a cursor lists exactly the occurrences of the view |
| `Utf8.AppendString` | internal/canonical/seal.go:138-168 | it refuses exactly invalid UTF-8 and otherwise appends the quoted form |
| `Utf8.QuotedParses` | internal/canonical/seal.go:138-168 | a JSON string parser (section 7 of RFC 8259) undoes it, whatever bytes follow |
| `Utf8.ShortestEscape` | internal/canonical/seal.go:144-165 | no other JSON spelling of a character is shorter, and hexadecimal digits are small letters |
| `Utf8.RunesRoundTrip` | internal/canonical/seal.go:139-143 | decoding inverts UTF-8 encoding |
| `Utf8.ValidIsEncoded` | internal/canonical/seal.go:139-143 | a valid byte string is the encoding of its runes |
| `SealReading.EncodeSeal` | internal/canonical/seal.go:15-85 | it refuses exactly invalid payloads, for a reason that is true of them, and otherwise prints one JSON object whose members, read by a parser of its own, are the fields of the normalised payload in order |
| `SealReading.SealRead` | internal/canonical/seal.go:15-85 | the printed bytes parse as the object with schema, parent, content, attachments, links, root and draft in this order, each with its value |
| `SealReading.ReadPrinted` | internal/canonical/seal.go:15-134 | reading that object back gives the payload |
| `SealReading.SameBytesIffSameButOrder` | internal/canonical/seal.go:15-85 | two valid payloads have the same bytes exactly when they differ only in the order of links and attachments |
| `SealReading.SealBytesUnique` | internal/canonical/seal.go:15-134 | different payloads print differently |
| `CanonicalSeal.NormalizeSeal` | internal/domain/validate.go:73-102 | it accepts exactly the valid payloads and sorts both lists; each refusal is true of the payload |
| `CanonicalSeal.NormalizeLinks` | internal/domain/validate.go:9-33 | it refuses exactly bad links and repeated targets and otherwise returns the same links with their targets ascending byte by byte |
| `CanonicalSeal.NormalizeAttachments` | internal/domain/validate.go:35-71 | it refuses exactly bad attachments and repeated names and otherwise returns the same attachments with their names ascending byte by byte |
| `CanonicalSeal.NormalizedValid` | internal/domain/validate.go:73-102 | normalising keeps validity and is idempotent |
| `SealReading.DecodeSeal` | internal/canonical/seal.go:87-106 | bytes are accepted exactly when they re-encode to themselves |
| `SealReading.AcceptedIsNormalised` | internal/canonical/seal.go:98-105 | the accepted bytes are exactly the printed forms of normalised payloads, each read back as that payload |
| `SealReading.ReaderFaithful` | internal/canonical/seal.go:87-106 | a reader of just that form is such a decoder |
| `Sorting.NeighboursDiffer` | internal/domain/validate.go:27-31 | in a sorted list comparing neighbours finds every repetition |
| `Sorting.SortedUnique` | internal/domain/validate.go:21-26 | a list has one sorted arrangement |
| `Sorting.BytesLessExact` | internal/domain/validate.go:21-26 | strings compare by the first byte that differs, a proper prefix first |
| `Text.StringLessExact` | internal/repository/revision_graph.go:238-246 | names compare the same way |

## Left out

- File-system work (temporary files, renames, modes, fsync): atomic steps with crash points between them. Durability of a single write is not modelled.
- Writers without the guard: they change manifests between commands and while a seal writes its objects. After that a command's compare-and-swap of a manifest is taken to hold until its next write.
- In the step relation of `RepositoryState` admission is only the graph check, so safety is proved for more runs than the commands produce; the repository object performs the whole admission.
- Format-6 and format-7 provenance (link metadata, origin maps), source bindings, workfiles, local traces, cursors as encoded tokens.
- The order of assertions of one target, REF lists, `maximalRevisionPaths`, the entry order of Log, the previous-state labels of an unscoped revision observation: derived from the modelled maps by one scan each.
- Selector and prefix resolution, REF name rules, the CLI, JSON documents, snapshots and fsck.
- The base64 and JSON form of a migration document.
- SHA-256: different objects get different identifiers.
- Ids.SortIds and the other sorting functions stand for `sort.Slice` and `sort.Strings`; their results are unique where the keys differ, so the algorithm does not matter.
- SealReading.DecodeSeal: `encoding/json` and its refusal of trailing values are a parameter, any decoder that reads back printed normalised payloads; `JsonReader` is one for texts without white space and numbers.
- Commands.Repository.Add: the Cause arrives with its selectors resolved, and links are not sorted before they are saved.
- Commands.Repository.Status: without the source binding and the workfile.
- Commands.Repository.CheckReview: decoding a review record is a parameter.
- DirectionGraph.DirectionClosure: shares the graph object of the observation, so the model also gathers assertions the original does not keep there.
- HeadSnapshot.World.RevalidateHeads: the optional comparison of the loose-object inventory, which reads no manifest, is not modelled.
- Migration.Compute: the sets of typed roles, which only record identifiers already listed, are not modelled.
- Migration.Project: for inventories without repeated Cause targets, which format 4 guarantees.
- Projection.ProjectAll: that the lists report nothing twice holds for Seals without repeated Cause targets, which format 4 guarantees.
- TextDiff.PrintAligned: clipping the two contents at 64 KiB and splitting them into lines comes before it and is not modelled.
- Paging.Collect: the limit is positive, as the command line parser checks.
