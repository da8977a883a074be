# CMDBoss, modelled and verified in Dafny

CMDBoss is a configuration management database: configuration items (CIs) of declared types, typed relationships between them,
an audit trail, a transactional outbox, discovery runs that converge the inventory on a snapshot, and a few per-worker caches.
This project models the state machines behind it and proves what they keep over every run, every interleaving or every input.

## How the model is laid out

* **Pure layer.** `Walks` (directed walks, distances, cycles), `Schema` (the field language and its normalising validator),
  `Audit` (diffs and replay).
* **Inventory.** `Inventory` holds the stored collections as one value and says what each repository call does to it as one atomic
  step: relationship types with the per-worker contract cache, edges, items, deletion with detach, discovery upserts, flagging.
  `GraphIntegrity`, `DependencyDag` and `Lineage` prove what every run of such steps keeps.
* **Repositories.** `Database`, `GraphRepository` and `ItemRepository` are classes over mutable collections. Their methods do the
  original's checks and writes one by one, with its loops, and each is proved to have exactly the effect and the reply that
  `Inventory` gives for the call.
* **Discovery.** `EdgeReconciliation` and `CiReconciliation` define the two halves of a run on values. `CiConvergence`, `CiPasses`,
  `CiOutcome`, `CiRerun`, `EdgeReruns`, `Discovery` and `DiscoveryLineage` prove framing, exact sweeping, conservation of work, quiet
  re-runs and convergence; `DiscoveryExamples` holds two concrete snapshots. `DiscoveryReconciler` is the reconciler's loops over the
  repository classes, proved to compute that run; `Batches` shows that sweeping a set is sweeping its members one by one.
* **Protocols.** `UpdateRace` (revision compare-and-swap), `IdempotentCreate` (Idempotency-Key claims), `DispatchRace` (several
  outbox dispatchers) and `TypeRegistry` (schema caches and polling invalidator) split the original's operations into their database
  steps and quantify over every interleaving. In `TypeRegistry` reads that miss the cache and updates are two steps each, every other
  operation is one. `OutboxDispatch` is the single dispatcher, sweep by sweep.
* **Fast forms.** `Keyset` (cursor pagination against sorted enumeration), `RateLimit` (a limiter that evicts against one that
  never does).

Identifiers are natural numbers drawn from one counter. A store query that returns documents in no fixed order is an arbitrary
enumeration of the matching set. Clocks, publish outcomes, run ids and page requests are parameters.

## Where the code falls short of what is said about it

* The documentation promises that dependency edges form a DAG (`docs/adr/0002-ci-relationship-graph.md:29-30`). The cycle check looks
  only `max_depth` levels deep and drops the flag that says its search was cut off (`cmdboss/graph.py:289`). What always holds is that
  no simple cycle of 2 to `max_depth + 1` items exists. `DependencyDag` gives the exact conditions for a DAG and, for every bound, a
  run that closes a longer cycle.
* Edges are created before stale ones are deleted, so one discovery run need not converge: an edge of a limited type that moves from
  one target to another is refused by the first run, which then deletes the old edge, and created by the second
  (`DiscoveryExamples.ReparentingTakesTwoRuns`). One run is enough if and only if it leaves every wanted edge stored or refused for
  another reason (`Discovery.OneRunSettlesIff`), which it does when no stale edge is in the way of a wanted one
  (`Discovery.UnobstructedRunSettles`). Two runs are enough if relation types are
  given in lower case and item types accept their own defaults (`Discovery.DiscoveryConverges`); both conditions are needed.
* Relationship types are stored in lower case but compared as given (`cmdboss/discovery/reconciler.py:99`): an edge whose type is
  given in mixed case is created and deleted by the same run (`EdgeReconciliation.LoneEdgeSurvivesIffCanonical`).
* A default is stored without being validated. If a field rejects its own default, an item created with it is reported as an error by
  every later run, and so loses its edges (`DiscoveryExamples.BadDefaultLosesEdge`); `CiConvergence.CreatedIsUnchangedIff` is the
  exact condition.
* Cardinality is checked before duplicates (`cmdboss/graph.py:212`), so every run after the first reports a stored edge of a
  limited type as a cardinality error instead of as unchanged (`EdgeReruns.StoredEdgeVerdict`).
* An If-Match revision that nobody has handed out yet can win a revision a second time and undo the first winner
  (`UpdateRace.GuessLosesUpdate`); `UpdateRace.RaisedByOneIffPrudent` is the exact condition.
* One handler covers publishing an event and marking it sent (`cmdboss/outbox.py:137-150`), so an event whose mark raises is published
  again, or ends up dead although it was published. Even with one dispatcher and no replay an event is published once for being sent
  plus once for every mark that is lost (`OutboxDispatch.PublishedOncePlusLostMarks`).
* Spreading the remaining attempts over full batches tells how many sweeps drain the outbox if and only if the batch is one row or a
  row has one attempt (`OutboxDispatch.WholeBatchesSufficeIff`). `OutboxDispatch.OutboxDrains` is the bound that always holds.
* `sent` is documented as final (`docs/ARCHITECTURE.md:251-256`). It is so from a given moment on if and only if no dispatcher holds
  the event having fetched it with one attempt left (`DispatchRace.SentIsFinalIff`); two dispatchers can bury a sent event
  (`DispatchRace.SlowFailureBuriesSentEvent`).
* `update_type` writes one more than the version it read, so two updates that overlap give a version two meanings and a worker may
  answer with the model of one for the document of the other (`TypeRegistry.OverlappingUpdatesMislead`); `TypeRegistry.UpdateMisleadsIff`
  is the exact condition.
* A poll that falls between a cache miss's query and its caching (`cmdboss/registry.py:88-89`) leaves an outdated document that no
  later poll finds (`TypeRegistry.OvertakenReadOutlivesPolls`); `TypeRegistry.PollKeepsCoherentIff` is the exact condition.
* A create is idempotent only while its record has not expired (`IdempotentCreate.ExpiryAllowsSecondItem`). An expiry allows a second
  item if and only if the key has an item or a request that still holds or is about to release it (`IdempotentCreate.ExpiryDoublesIff`).

## Model

| member | source | states |
|---|---|---|
| Walks.LayerStep | cmdboss/graph.py:436-457 | A node is within `k + 1` arcs exactly if it is within `k` or an arc leads to it from a node at distance exactly `k`: the step one search level makes. |
| Walks.EmptyLayerMeansAll | cmdboss/graph.py:457-458 | If no node lies at some distance, everything reachable lies closer. |
| Walks.ArcClosesNoShortCycle | cmdboss/graph.py:287-295 | Adding an arc whose target does not reach its source within `k` arcs closes no simple cycle of 2 to `k + 1` nodes. |
| Walks.ArcHasNoShortWayBack | cmdboss/graph.py:287-295 | Where no simple cycle of 2 to `k + 1` nodes exists, no walk of at most `k` arcs leads back along an arc that is there. |
| Walks.ArcKeepsAcyclicIff | cmdboss/graph.py:287-295 | Adding an arc to an acyclic graph keeps it acyclic exactly if its target does not reach its source at all. |
| Walks.AcyclicIffOneWay | cmdboss/graph.py:287-295 | Having no simple cycle of two or more nodes is the same as no two different nodes reaching each other. |
| Schema.CompileModel | cmdboss/schema.py:224-248 | Compiling a field map gives each field its annotation, its type-gated constraints and its optionality, and no other fields. |
| Schema.CoerceIdempotent | cmdboss/schema.py:181-248 | A normalised value normalises to itself. |
| Schema.NormalFormsConform | cmdboss/schema.py:181-221 | A field leaves a value as it is if and only if the value conforms to its declared type, enumeration and constraints, or is null in an optional field. |
| Schema.ValidatedConforms | cmdboss/schema.py:224-248 | A validated document has exactly the declared fields: unknown and missing required fields are rejected, supplied values come out conforming, conforming ones unaltered, and absent optional ones get their default. |
| Schema.StableIffGoodDefaults | cmdboss/schema.py:237-241 | Validating a validated document changes nothing, for every payload, if and only if every default is null or already in its field's normal form, or the model accepts no payload at all. |
| Schema.OverlaidAgainIff | cmdboss/repository.py:576-586 | Data overlaid on a document, validated, stored and overlaid once more compares equal, and validates if and only if the defaults that were filled in are accepted by their fields. |
| Audit.ComputeDiff | cmdboss/audit.py:32-45 | The loop over the keys of both documents returns exactly the fields that read differently, an absent field reading as null. |
| Audit.DiffRoundTrip | cmdboss/audit.py:32-45 | Redoing a diff on the old reading gives the new one, undoing it on the new gives the old, and it is empty exactly if the two read alike. |
| GraphRepository.RelationshipRepository.Bfs | cmdboss/graph.py:427-458 | The level-by-level search reports each node other than the start within `max_depth` arcs exactly once, each followed edge whose near end is closer than `max_depth` exactly once, and truncation exactly if some node lies at distance `max_depth`. |
| GraphRepository.ReportedHasDistance | cmdboss/graph.py:427-458 | Being reported is having a shortest distance between 1 and the bound. |
| GraphRepository.UntruncatedSearchIsComplete | cmdboss/graph.py:457-458 | A search that was not cut off has reported everything reachable except its start. |
| GraphRepository.DependenciesAndImpactAreInverse | cmdboss/graph.py:477-501 | `y` is among the bounded dependencies of `x` exactly if `x` is in the bounded impact of `y`. |
| GraphRepository.RelationshipRepository.Dependencies | cmdboss/graph.py:477-488 | Lists each depended-on item within the bound once; when not truncated, exactly the reachable ones. |
| GraphRepository.RelationshipRepository.Impact | cmdboss/graph.py:490-501 | The same over the reversed dependency edges. |
| GraphRepository.RelationshipRepository.CheckCardinality | cmdboss/graph.py:267-285 | Rejects exactly if the contract limits the source and it already has an edge of the type, or limits the target and it already has one. |
| GraphRepository.RelationshipRepository.CheckNoCycle | cmdboss/graph.py:287-295 | Rejects exactly if the source is another node within `max_depth` dependency arcs of the target; whether the search was cut off plays no part. |
| GraphRepository.RelationshipRepository.CreateEdge | cmdboss/graph.py:176-265 | Runs the gates in the original's order and either writes edge, audit record and event together or reports the first gate that fails, leaving everything but the contract cache alone. |
| GraphRepository.RelationshipRepository.DeleteEdge | cmdboss/graph.py:332-367 | Missing edge, revision mismatch, or removal with one audit record and one event. |
| GraphRepository.RelationshipRepository.DetachCi | cmdboss/graph.py:388-423 | Removes exactly the edges that touch the item, with one audit record and one event each, and returns their number. |
| GraphRepository.RelationshipRepository.IterSourceEdges | cmdboss/graph.py:381-386 | The dictionary holds the key of every edge of the source, each with an edge that has it. |
| GraphRepository.RelationshipRegistry.GetType | cmdboss/graph.py:91-98 | Answers from the cache, including a remembered absence, else with the stored active contract, and remembers the answer. |
| GraphRepository.RelationshipRegistry.CreateType | cmdboss/graph.py:110-124 | A taken name, active or not, is refused; otherwise the contract is stored and the local cache entry dropped. |
| GraphRepository.RelationshipRegistry.DeactivateType | cmdboss/graph.py:126-133 | An unknown or inactive name is refused; otherwise the contract stays stored, inactive, under its name. |
| GraphIntegrity.CreateEdgeKeeps | cmdboss/graph.py:176-295 | Creating an edge keeps endpoints, contracts, uniqueness, cardinality, item tags and the absence of short dependency cycles, whatever the request. |
| GraphIntegrity.DeleteCiKeeps | cmdboss/repository.py:459-497 | So does deleting an item, with or without detach. |
| GraphIntegrity.ApplyDiscoveryKeeps | cmdboss/repository.py:530-628 | So does a discovery upsert; in particular at most one item bears a type, source and external id. |
| GraphIntegrity.RunKeepsIntegrity | cmdboss/graph.py:189-295 | Every run of item, edge, discovery and registry operations, with other workers changing contracts and caches lapsing at any time, keeps all of these facts. |
| GraphIntegrity.ContractsAreImmutable | cmdboss/graph.py:110-133 | Once a contract's name is taken its definition never changes, through deactivation and attempts to create it again. |
| DependencyDag.SmallInventoryIsDag | cmdboss/graph.py:287-295 | With at most `max_depth + 1` items the dependency graph is a DAG apart from permitted self-loops. |
| DependencyDag.DependencyEdgeKeepsDagIff | cmdboss/graph.py:213-214 | An accepted dependency edge keeps a DAG if and only if its source was out of reach of its target at any depth. |
| DependencyDag.CheckExactIff | cmdboss/graph.py:287-295 | From a given target the bounded check decides every source correctly if and only if a search with the bound raised by one would not be cut off. |
| DependencyDag.CarefulRunStaysDag | cmdboss/graph.py:287-295 | If every accepted dependency edge passed a search that was not cut off, the graph is a DAG throughout the run; deletions and detaching keep this. |
| DependencyDag.LongChainClosesCycle | cmdboss/graph.py:289 | For every bound a run from the empty inventory closes a dependency cycle of `max_depth + 2` items. |
| Lineage.RunKeepsLineage | cmdboss/repository.py:171-200 | Every run keeps, for each live item, a trail of one create record and chained update records as long as its revision and as its list of events. |
| Lineage.LiveItemIsAccountedFor | cmdboss/audit.py:52-79 | Hence revision, number of audit records and number of events agree, and replaying the create snapshot and the recorded diffs yields the current fields. |
| ItemRepository.CiRepository.Create | cmdboss/repository.py:141-200 | Without a key: unknown type, invalid payload, or an item at revision 1 with its audit record and its event. |
| ItemRepository.CiRepository.CreateOnce | cmdboss/repository.py:141-207 | With a key and no other request in between: a finished key replays its item and writes nothing, a pending one conflicts, a free one is finished with the item created; an invalid payload leaves the key alone; if the writes fail the claim is released, so a rolled back create leaves the key free and a committed one leaves it finished. |
| ItemRepository.RetryCreatesOnce | cmdboss/repository.py:154-207 | However the writes of the first request went, sending it again leaves exactly the one item and is answered with it. |
| ItemRepository.CiRepository.Update | cmdboss/repository.py:334-423 | PUT and PATCH under an expected revision: refusals leave everything alone, success raises the revision by one, keeps fields the new data lacks and records the diff. |
| ItemRepository.CiRepository.Delete | cmdboss/repository.py:427-500 | Refuses on a mismatched revision or on edges without detach; otherwise the item goes with every edge that touches it, each with its record and event. |
| ItemRepository.CiRepository.ApplyDiscovery | cmdboss/repository.py:510-628 | Creates, updates or only refreshes the provenance of the one item with the tag, with exactly the records the outcome calls for. |
| ItemRepository.CiRepository.IterSource | cmdboss/repository.py:630-639 | The dictionary has exactly the external ids of the source's items of the type, each with the item that bears it. |
| ItemRepository.CiRepository.MarkMissing | cmdboss/repository.py:641-686 | Flags a stored item, raising its revision and recording an update; a missing item is left alone. |
| EdgeReconciliation.RejectionIsMonotone | cmdboss/graph.py:189-295 | A request rejected by any gate, the depth-bounded cycle check included, is still rejected with more edges and the same items and contracts. |
| EdgeReconciliation.WantAllHandles | cmdboss/discovery/reconciler.py:90-117 | After the creating loop asking for any resolved edge again would be rejected, and no edge was lost. |
| EdgeReconciliation.EdgesConverge | cmdboss/discovery/reconciler.py:87-132 | With one snapshot whose relation types are in lower case, one id map and no other writer: pass 2 deletes no edge and keeps all it found, and pass 3 leaves the edges as pass 2 left them. Pass 2 creates nothing, and changes no edge, if and only if pass 1 left every resolved edge rejected if asked for again; pass 1 deletes exactly as many edges as were stale before it, and if none was, that is so. |
| EdgeReconciliation.DeletedIsStaleBefore | cmdboss/discovery/reconciler.py:119-128 | With relation types in lower case a pass deletes exactly the edges that were stale before it. |
| EdgeReconciliation.OnlyDesiredRemain | cmdboss/discovery/reconciler.py:119-128 | After a pass every edge the source owns has a desired key. |
| EdgeReconciliation.EveryWantedEdgeIsAnswered | cmdboss/discovery/reconciler.py:90-117 | With relation types in lower case, each error of a pass is about a wanted edge of its own, in the order of the snapshot, and every other wanted edge is stored after the pass; so no more wanted edges are missing than there are errors. |
| EdgeReconciliation.EdgeReportConserves | cmdboss/discovery/reconciler.py:90-132 | Created, unchanged and errors add up to the snapshot's edges; the stored edges grow by the created and shrink by the deleted ones; with relation types in lower case the deleted ones are as many as were stale before the pass. |
| EdgeReconciliation.OtherEdgesSurvive | cmdboss/discovery/reconciler.py:119-128 | Edges the source does not own survive the edge pass as they are. |
| EdgeReconciliation.LoneEdgeSurvivesIffCanonical | cmdboss/discovery/reconciler.py:99-123 | A lone accepted edge outlives its own pass if and only if its relation type is given in lower case. |
| EdgeReconciliation.MixedCaseExample | cmdboss/discovery/reconciler.py:99-123 | A concrete inventory and snapshot for which the pass creates an edge and deletes it again. |
| EdgeReruns.StoredEdgeVerdict | cmdboss/graph.py:189-265 | Asking again for a stored edge whose type can be resolved is answered with a duplicate if the type is many-to-many, and with a cardinality violation otherwise. |
| EdgeReruns.StoredEdgeIssue | cmdboss/discovery/reconciler.py:101-117 | Hence each settled pass reports a stored edge of a limited type as a cardinality error, and one of a many-to-many type never as an error. |
| EdgeReruns.SettledReport | cmdboss/discovery/reconciler.py:87-132 | A pass that has nothing left to do reports each wanted edge as unchanged or as an error, and which it is depends on the stored state and the edge alone. |
| EdgeReruns.UnobstructedPassHandles | cmdboss/discovery/reconciler.py:87-132 | With relation types in lower case a pass leaves every resolved edge rejected if asked for again, whatever it deletes, if before it no stale edge shares a limited end with a wanted edge and no stale dependency lies on a walk back along one, over the stored dependencies and all that is wanted. |
| CiReconciliation.GroupedKeepsLast | cmdboss/discovery/reconciler.py:48-50 | Grouping keeps, per type and external id, exactly the last item given, one group per type. |
| CiConvergence.CreatedIsUnchangedIff | cmdboss/repository.py:548-586 | A newly created item is found unchanged by the same data if and only if the defaults it was filled with are accepted by their fields; otherwise the next run reports an error. |
| CiConvergence.UpsertSettles | cmdboss/repository.py:548-628 | After an upsert, whatever its outcome, the same item again would be unchanged under the same id or refused again, provided the registered types accept their own defaults. |
| CiConvergence.UpsertOnlyTagged | cmdboss/repository.py:541-628 | An upsert touches no item that does not bear its tag, and no edge or contract. |
| CiPasses.CiPassStaysConfined | cmdboss/discovery/reconciler.py:48-82 | An item pass leaves items of other sources or of none untouched, adds only items of the source, retags none, and loses an edge only with an item it deleted. |
| CiPasses.CiPassSettles | cmdboss/discovery/reconciler.py:52-64 | After an item pass every item of the snapshot is settled, provided the registered types accept their own defaults. |
| CiOutcome.OtherTypesUntouched | cmdboss/discovery/reconciler.py:52-53 | Items of a type the snapshot does not mention are untouched, whoever owns them: only mentioned types are swept. |
| CiOutcome.DeleteModeIsExact | cmdboss/discovery/reconciler.py:65-75 | In delete mode, for each registered type of the snapshot, the external ids the source has left are exactly the wanted ones that were applied or stored before. |
| CiOutcome.CiReportConserves | cmdboss/discovery/reconciler.py:54-82 | The counters add up to the distinct wanted items plus the stale ones, and created, updated and unchanged to the resolved ids. |
| CiRerun.RerunIsQuiet | cmdboss/repository.py:579-586 | A pass over settled items finds the same ids, creates and updates nothing and writes no audit record or event; in mark mode each stale item is flagged, and its revision raised, once more. |
| CiRerun.PassLeavesClean | cmdboss/discovery/reconciler.py:65-75 | After a pass in delete mode nothing of a registered type is stale. |
| Discovery.RunConfinesItself | cmdboss/discovery/reconciler.py:42-85 | A whole run keeps the inventory sound, frames every item and edge outside its source except edges of items it deleted, and everything new belongs to the source. |
| Discovery.SteadyRunIsQuiet | cmdboss/discovery/reconciler.py:42-132 | Once steady, and with relation types in lower case, a run creates, updates and deletes nothing, keeps every edge and records nothing except flags in mark mode; it reports every known item as unchanged and the same wanted edges as unchanged and as errors each time. |
| Discovery.DiscoveryConverges | cmdboss/discovery/reconciler.py:42-132 | From any sound inventory whose types accept their own defaults, two runs over one snapshot with relation types in lower case converge: the second deletes no edge and creates and updates no item, and any number of further runs leave edges and item contents as the second left them. |
| Discovery.OneRunSettlesIff | cmdboss/discovery/reconciler.py:87-132 | Under the same conditions further runs leave everything as the first left it if and only if the first left every resolved edge rejected if asked for again, and if and only if the second creates no edge; the first deletes as many edges as are stale once its items are done, and if none is, one run is enough. |
| Discovery.UnobstructedRunSettles | cmdboss/discovery/reconciler.py:42-132 | Under the conditions above one run is enough if, once its items are done, no stale edge is so in the way of a wanted one. |
| DiscoveryExamples.ReparentingTakesTwoRuns | cmdboss/discovery/reconciler.py:87-132 | From the empty inventory: an edge of a many-to-one type moves to another target; the first run creates nothing and deletes one edge, the second creates one. |
| DiscoveryExamples.BadDefaultLosesEdge | cmdboss/schema.py:237-241 | From the empty inventory: with a default its field rejects, the first run creates an item and its edge, the second reports the item as an error and deletes the edge. |
| DiscoveryLineage.ReconcileKeepsLineage | cmdboss/discovery/reconciler.py:42-85 | A whole run keeps revision, audit trail and events of every live item in step. |
| DiscoveryReconciler.Reconciler.ReconcileGroup | cmdboss/discovery/reconciler.py:52-82 | The loops over one type's items and over its stale ones compute the group pass, deleting or flagging one item at a time. |
| DiscoveryReconciler.Reconciler.ReconcileEdges | cmdboss/discovery/reconciler.py:87-132 | The creating and the deleting loop compute the edge pass, deleting one edge at a time from a dictionary that misses none. |
| DiscoveryReconciler.Reconciler.Reconcile | cmdboss/discovery/reconciler.py:42-85 | The whole run computes the state, id map and reports that the theorems are about. |
| Batches.RemovalsAddUp | cmdboss/discovery/reconciler.py:66-75 | Deleting some items with their edges and then others leaves the collections, the audit trail and the outbox as deleting them all at once. |
| UpdateRace.UpdateRowIsUpdateCi | cmdboss/repository.py:350-397 | Read and swap taken together do what the atomic update of the inventory does. |
| UpdateRace.RaceIsSequential | cmdboss/repository.py:350-397 | In every interleaving of honest updaters the row ends as if the winners' requests had run one after the other, the `n`-th win taking the revision from `n - 1` to `n` above the start. |
| UpdateRace.EachRevisionWonOnce | cmdboss/repository.py:377-386 | Two clients told they won were told different revisions. |
| UpdateRace.RaisedByOneIffPrudent | cmdboss/repository.py:366-386 | Over every interleaving, each success raises the revision by exactly one if and only if each winner expected no more than it had read. |
| UpdateRace.GuessLosesUpdate | cmdboss/repository.py:366-386 | A guessed revision lets two clients win the same revision and undoes the first one's update. |
| IdempotentCreate.RecordKeyInjective | cmdboss/idempotency.py:40-42 | Different types or keys never share a record, type names holding no colon. |
| IdempotentCreate.IdempotencyStore.Precheck | cmdboss/repository.py:209-228 | Replays a finished record, conflicts on a pending one, and otherwise claims the key. |
| IdempotentCreate.AtMostOneItemPerKey | cmdboss/repository.py:154-205 | In every interleaving with aborts, lost acknowledgements, crashes and the expiry of records that are of no more use, at most one item is committed per type and key, and every request answered with an item is answered with that one. |
| IdempotentCreate.AbortFreesKey | cmdboss/idempotency.py:66-71 | A request that fails before committing and releases its claim leaves the key free and no item behind. |
| IdempotentCreate.ExpiryAllowsSecondItem | cmdboss/db.py:98-103 | From any run, once a key's record expires the next request with that key creates a second item. |
| IdempotentCreate.ExpiryDoublesIff | cmdboss/db.py:98-103 | Between any such steps, the expiry of a record lets a second item be committed under its key, with no further expiry of a record in use, if and only if an item exists under the key or a request has claimed it and has neither answered nor crashed. |
| Keyset.StaticCrawl | cmdboss/repository.py:273-308 | Over an unchanging collection, requests whose limits add up to `n` have returned exactly the first `n` rows of the sorted enumeration, in either direction, and the crawl is finished exactly if `n` exceeds the number of rows. |
| Keyset.CursorAgreesWithOffset | cmdboss/repository.py:273-308 | Each page a cursor leads to is the page the matching offset leads to. |
| Keyset.StaticCrawlLength | cmdboss/repository.py:296-308 | At a fixed limit a crawl of `n` rows finishes with request `n / limit + 1` and not before. |
| Keyset.FinishedCrawlMissesNothing | cmdboss/repository.py:276-306 | However rows come and go between pages, no position is returned twice and a finished crawl has returned every row that was there throughout with an unchanged sort value exactly once. |
| Keyset.MovedRowComesTwice | cmdboss/repository.py:276-306 | A row whose sort value changes between two pages can be returned twice. |
| Keyset.ClampLimit | cmdboss/repository.py:257-258 | The page size in force is the requested one where it is in range, the maximum where it is above, one where it is negative, and the configured default, likewise capped, where it is missing or zero. |
| Keyset.CiListing.List | cmdboss/repository.py:243-313 | Unknown filter or sort fields and filter values that cannot be read as the field's type are refused; otherwise the page, its cursor, next offset and total are the ones the enumeration of the rows that match the values read determines. |
| OutboxDispatch.BackoffGrows | cmdboss/outbox.py:126-127 | Later attempts never wait less. |
| OutboxDispatch.TotalDelayBounded | cmdboss/outbox.py:126-127 | The waits after `k` failures add up to at most `base * (2^k - 1)` and at most `k` times the cap. |
| OutboxDispatch.WaitsBounded | cmdboss/outbox.py:126-150 | In every run of one dispatcher a new event is put off fewer times than it has attempts, never for less than the time before, and in all for at most `base * (2^(max_attempts - 1) - 1)` and at most `max_attempts - 1` times the cap. |
| OutboxDispatch.FilteredIsEarliestDue | cmdboss/outbox.py:65-69 | Sorting, limiting and then filtering by due time yields as many due rows as fit the batch, none due later than one left out: rows backing off never crowd out due ones. |
| OutboxDispatch.OutboxDispatcher.DispatchOnce | cmdboss/outbox.py:129-153 | One sweep settles exactly those rows, each by how its publication and its mark went: sent, rescheduled or dead. It publishes the ones whose publication did not raise, counts the ones whose mark was acknowledged, and touches no other row. |
| OutboxDispatch.CallProgresses | cmdboss/outbox.py:129-153 | A sweep lowers the attempts left over all pending rows by at least the number of rows it processes, and removes no row. |
| OutboxDispatch.OutboxDrains | cmdboss/outbox.py:129-153 | With `w` attempts left, every row is sent or dead after `w / batch + max_attempts` sweeps that each find everything pending due, whatever deliveries fail. |
| OutboxDispatch.WholeBatchesSufficeIff | cmdboss/outbox.py:129-153 | Every prompt run of `ceil(w / batch)` sweeps drains every backlog with `w` attempts left if and only if the batch is one row or a row has one attempt. |
| OutboxDispatch.LoneRowNeedsEveryAttempt | cmdboss/outbox.py:141-150 | A lone row that keeps failing is still pending before its last attempt, however large the batch. |
| OutboxDispatch.PublishedOncePlusLostMarks | cmdboss/outbox.py:129-153 | With one dispatcher and no replay the publications of an event are one if it is sent plus one for every mark that was lost, whether it was not stored or was stored unacknowledged on the last attempt; and they are no more than its attempts. A sent event was published exactly once if and only if no mark was lost. |
| OutboxDispatch.EveryMarkLost | cmdboss/outbox.py:137-150 | For all settings, an event every mark of which is lost is published as often as it has attempts and ends up dead. |
| OutboxDispatch.LastMarkKeptRun | cmdboss/outbox.py:137-150 | One whose last mark is kept is published as often and ends up sent. |
| DispatchRace.EveryRunIsSound | cmdboss/outbox.py:71-153 | In every interleaving of many dispatchers, crashes and replays no row is removed, a sent event has been published, and no pending event has run out of attempts. |
| DispatchRace.SentIsFinalIff | cmdboss/outbox.py:71-153 | From any state with a sent event, some interleaving makes it something else if and only if a dispatcher still holds it that fetched it with one attempt left. |
| DispatchRace.OneDispatcherKeepsSent | cmdboss/outbox.py:129-153 | With one dispatcher whose marks are acknowledged when stored, sent is final in every run. |
| DispatchRace.SlowFailureBuriesSentEvent | cmdboss/outbox.py:85-109 | For all settings, a run from the empty outbox in which two dispatchers on an event's last attempt leave it dead after it was sent. |
| RateLimit.FixedWindowRateLimiter.Check | cmdboss/ratelimit.py:22-34 | Counts the hit in a live or a new bucket, evicts when over capacity, and answers from the bucket's count. |
| RateLimit.EvictionIsTransparent | cmdboss/ratelimit.py:30-39 | Every hit is told what a limiter that never evicts would tell it. |
| RateLimit.FewerThanTwiceTheLimit | cmdboss/ratelimit.py:22-34 | Any half-open interval one window long admits at most `2 * limit - 1` hits of a key. |
| RateLimit.BurstReachesBound | cmdboss/ratelimit.py:22-34 | Some run reaches that bound, for every limit and window. |
| RateLimit.BucketAdmitsLimit | cmdboss/ratelimit.py:22-34 | A single bucket admits at most the limit. |
| RateLimit.WaitingIsRewarded | cmdboss/ratelimit.py:32-33 | A rejected caller that waits as told, without other hits of its key, is admitted. |
| TypeRegistry.EveryRunIsCoherent | cmdboss/invalidator.py:59-75 | In every run whose commit times increase and whose polls overtake no read made stale by a change, each document cached or on its way into a cache is the stored active one, or its type has changed past the worker's watermark. |
| TypeRegistry.PolledReadIsCurrent | cmdboss/invalidator.py:59-78 | In such a run, right after a poll every cached read agrees with the read that bypasses the cache. |
| TypeRegistry.PollKeepsCoherentIff | cmdboss/registry.py:82-90 | A poll keeps the caches coherent if and only if every answer on its way into the worker's cache is still the stored one. |
| TypeRegistry.OvertakenReadOutlivesPolls | cmdboss/registry.py:82-90 | A run from nothing in which a poll falls between a query and its caching, after which any number of polls leave the outdated document cached. |
| TypeRegistry.CompileMatchesDocument | cmdboss/registry.py:105-118 | In every run whose updates of one type do not overlap, however stale its caches, a worker compiles the model of the very document it reads. |
| TypeRegistry.UpdateMisleadsIff | cmdboss/registry.py:162-174 | From any state in which every document and model around is the one its name and version stand for, an update's write leads, by reads, polls and lapses alone, to a worker compiling the wrong fields if and only if another worker holds a model or document of the version it writes with other fields, or a read is about to bring one. |
| TypeRegistry.OverlappingUpdatesMislead | cmdboss/registry.py:162-174 | A run from nothing in which two updates overlap, after which a worker compiles the fields of the first for the document of the second. |
| TypeRegistry.UpdateInOneGo | cmdboss/registry.py:149-178 | An update's read and write with nothing in between store the next version of the type. |
| TypeRegistry.RegistryCacheInvalidator.PollOnce | cmdboss/invalidator.py:59-78 | The loop drops exactly the names changed past the watermark, counts them, and moves the watermark to the newest change. |
| TypeRegistry.SchemaRegistry.CompileType | cmdboss/registry.py:105-118 | Answers with the cached model of the version it read, else compiles that document and remembers the model. |
| TypeRegistry.SchemaRegistry.CreateType | cmdboss/registry.py:122-147 | A taken name, active or not, is refused; otherwise version 1 is stored and the local cache entries dropped. |
| TypeRegistry.SchemaRegistry.UpdateType | cmdboss/registry.py:149-178 | An unknown or inactive type is refused; otherwise the next version is stored and the local cache entries dropped. |
| TypeRegistry.SchemaRegistry.DeactivateType | cmdboss/registry.py:180-194 | An unknown or inactive type is refused; otherwise the document stays stored, inactive, and the local cache entries are dropped. |

## Left out

* HTTP routers, middleware, authentication, logging, metrics, configuration loading, webhooks and the in-memory bus: plumbing without a property of this kind.
* Store internals: single-document operations, unique indexes and all-or-nothing commits are assumed. Partial failures of sequential writes without transactions are not modelled beyond the interleavings named above.
* Concurrent edge creation: its checks run before the transaction opens, so one edge creation is one atomic step here.
* Discovery upserts and flagging write without a compare-and-swap; they take part in the runs of atomic steps, not in `UpdateRace`.
* Malformed ids, cursor encoding and unknown cursors: ids are numbers and a cursor is the pair it encodes.
* Schema.CompileModel: leaves out descriptions, patterns, and date and object annotations; it covers strings, integers, numbers, booleans, references, enumerations and arrays with their length and range constraints.
* Schema.ValidatedConforms: the same fields only, and no conversion of strings to numbers, because patterns and numerals would be parameters without laws of their own.
* Actors, timestamps and the serialised metadata of audit records and events; an edge is serialised as its attributes.
* The order of audit records and events between different entities: they are kept per entity, in order.
* Names of CI types are taken in the lower-case form that type creation enforces; relationship types are not (see above).
* Times to live are steps: a cache entry may lapse, and an idempotency record expire, at any time.
* How numerals are read in query parameters is a parameter of the listing; infinities and not-a-number are not modelled.
* The clocks of several workers: commit times of type documents are taken to increase.
* `If-Match: *`, null or list sort values, and fields dropped by a newer schema version.
* `neighbors` and `list_edges`: `neighbors` is the same search with other arguments, `list_edges` a plain filter.
* Change-stream invalidation: only the polling form is modelled.
* DispatchRace.EveryRunIsSound: says nothing about how often an event is published, because with several dispatchers delivery is at least once only.
* OutboxDispatch.OutboxDispatcher.DispatchOnce: assumes that the handler's own writes go through; a sweep cut short by one that raises, or by a crash, is a step of `DispatchRace`.
* OutboxDispatch.OutboxDrains: assumes that each sweep finds everything pending due; between sweeps that depends on the poll interval.
