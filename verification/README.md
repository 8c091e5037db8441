# Enfyra backend: verified models of its engines

The backend builds REST and GraphQL APIs from metadata. Its hard logic sits in engines that can be separated
from the I/O around them. This project models those engines in Dafny and proves what they promise.

- **Routes** (`RoutePaths`, `RouteTrie`, `RouteSearch`, `RouteParams`, `RouteEngine`, `RouteCache`): the mutable
  trie per method with its backtracking search and in-place parameter record. The heap program is proved
  against a trie value, the trie value against a scan of the insert list, and the cache that fills the engine
  against the route list.
- **Macros** (`CodeTransformer`, `CodeTransformerLaws`, `MacroMeaning`, `HookLoading`): the lexer that rewrites `@X`, `#x`
  and `%x`, what each construct of the text becomes, its idempotence on every input, and the
  loading loop that needs it because hook objects are shared.
- **Reloads and locks** (`ReloadProtocol`, `ReloadServices`, `MigrationLock`, `RowLock`): state machines over all
  interleavings. Runs are arbitrary sequences of actions; an action that is not enabled does nothing.
- **Executor** (`ExecutorLease`, `CallTable`, `Buffers`): the lease of a pooled child process under racing
  terminal events, the call and reply table of the child, and the values that cross the channel.
- **Mongo queries** (`MongoPipeline`, `MongoPipelineLaws`, `MongoPaging`, `MongoSortByRelation`, `MongoQueryMeaning`): the
  aggregation pipeline as a transformation that must preserve meaning, against what a query is to return.
  Sorting may break ties in any way, so results are relations, and two pipelines are compared by all the results each
  can have.
- **Relations** (`Naming`, `InverseRelations`, `Histories`, `MongoRelations`, `MongoReferences`, `CascadeHandler`,
  `CascadeLaws`): inverse relations generated into arrays that grow under the loop, both sides of many-to-many and
  many-to-one relations in MongoDB, and the SQL cascade. Its tables carry their constraints: unique groups, whatever a
  single row must satisfy (NOT NULL among it), and the references of the relation at hand, for junction tables as
  `scripts/utils/sql/junction-tables.ts:72-83` creates them.
- **Schema** (`SchemaComparison`, `SchemaConvergence`): the difference between a snapshot and a table, and its
  application.
- **Assistant** (`MessageBuilder`, `TranscriptLaws`, `TranscriptMeaning`, `ToolLoop`, `ToolKey`): the transcript built
  from a stored conversation, and the memoised tool loop.
- **Slugs** (`AutoSlug`).

Where a promise is false of the code it is stated with its exact condition and a concrete failing case:

- a path's parameters can miss a name, carry a stray `splat`, or hold a wrong value under that name
  (`RouteParams.ParamsAreBindings`, `StraySplat`, `WrongSplat`);
- a release can delete the lock of another call once a call of the same instance was late
  (`ReloadProtocol.ReleaseTakesAnotherCallsLock`, `LockTaken`);
- the instance that reloads last can end up with an older snapshot, or with a route list and an engine that
  disagree, although every lease was kept (`ReloadProtocol.Convergence`, `OwnReloadOvertaken`, `RouteEngineTorn`);
- a child is handed back twice when sending the execute message throws (`ExecutorLease.AtMostOnceIffSendWorks`);
- paging before the lookups changes the result when a to-one relation joins several documents
  (`MongoPaging.LimitsCommuteIffOneEach`) or the sort names a relation (`MongoSortByRelation.SortMovesIffNoRelationKey`,
  `SortingByRelationDiffers`);
- writing a many-to-many relation from its inverse side leaves the two sides disagreeing
  (`MongoRelations.OperationIff`, `InverseWriteBreaks`), and so does deleting the many side of a many-to-one
  relation (`MongoReferences.OperationIff`);
- a junction list that names a missing row, repeats an id, or holds an object without one, loses the old links
  (`CascadeLaws.JunctionReplacedIff`, `DanglingIdLosesLinks`);
- a one-to-many list of bare ids drops the children it names and inserts empty rows, and a required child cannot be
  dropped (`CascadeLaws.ChildrenReplacedIff`, `BareIdLosesChild`, `RequiredChildStays`); an empty list clears neither
  kind of relation (both conditions, `EmptyListKeepsChild`);
- a schema sync drops a column that the snapshot keeps when a given-up foreign key stands on it
  (`SchemaConvergence.SyncConverges`, `ScalarLosesItsColumn`);
- a transcript lacks answers when serialising a tool result throws, which results read back from JSON never do
  (`TranscriptLaws.TranscriptWellFormedIff`, `UnserialisableLosesAnswer`, `StoredConversationIsAnswered`);
- the branch that stops after three equal failures is never taken (`ToolLoop.NeverStopped`).

`dafny verify dfyconfig.toml` checks the whole project. Parameters stand for what the code gets from outside:
`decode` for `decodeURIComponent` including its exception, the loaded rows, the outcome of sends, loads, publications
and tools, the value order and the join of the database, and the text of nested pipelines.

## Model

| member | source | states |
|---|---|---|
| RoutePaths.SegmentsIgnoreNormalization | src/shared/utils/enfyra-route-engine.ts:170-182 | adding a leading slash or dropping a trailing one never changes the segments a path is split into |
| RoutePaths.SegmentsOfSubPath | src/infrastructure/cache/services/route-cache.service.ts:270-278 | the segments of `base/sub` are those of the base followed by those of the sub-path, whatever slashes the base carries; this is what the `:id` variant relies on |
| RoutePaths.SegmentsAreProper | src/shared/utils/enfyra-route-engine.ts:179-182 | every segment is non-empty and contains no slash |
| RoutePaths.JoinThenSplit | src/shared/utils/enfyra-route-engine.ts:179-182 | splitting undoes joining proper segments with slashes |
| RouteTrie.BuildHandlers | src/shared/utils/enfyra-route-engine.ts:54-80 | after any inserts a node holds a handler exactly when a pattern without wildcard and with a segment was inserted for it, and then the route inserted last |
| RouteTrie.BuildNodes | src/shared/utils/enfyra-route-engine.ts:54-75 | after any inserts a node exists exactly when some insert passed it, and a parameter node keeps the name of the first one |
| RouteSearch.SearchOutcome | src/shared/utils/enfyra-route-engine.ts:118-149 | which node a search ends in does not depend on what is in the parameter record |
| RouteSearch.SeekSound | src/shared/utils/enfyra-route-engine.ts:118-149 | a hit is a stored handler whose pattern matches the segments; only an undecodable segment throws |
| RouteSearch.SeekComplete | src/shared/utils/enfyra-route-engine.ts:118-149 | backtracking misses no matching pattern, and the one it returns comes before every other, static before parameter |
| RouteSearch.FindAgreesWithScan | src/shared/utils/enfyra-route-engine.ts:39-149 | the trie agrees with a scan of the insert list: no match exactly when no inserted pattern matches, otherwise the route inserted last under the first matching pattern |
| RouteSearch.PrecedesIsAntisymmetric | src/shared/utils/enfyra-route-engine.ts:130-141 | "first matching pattern" is unambiguous |
| RouteSearch.FindableIffComplete | src/shared/utils/enfyra-route-engine.ts:54-80 | a route alone in the trie can be found by some path exactly when it is neither the root nor behind a wildcard |
| RouteParams.FailedSearchLeaves | src/shared/utils/enfyra-route-engine.ts:136-148 | what a failed search leaves of the record, in any trie: the outer bindings minus the names it unbound, then the last `splat` it wrote unless a parameter of that name was unbound later |
| RouteParams.SuccessfulSearchReplays | src/shared/utils/enfyra-route-engine.ts:118-149 | the record a successful search returns, in any trie: the bindings of the matched path, each preceded by what the abandoned static branch beside it left |
| RouteParams.ParamsAreBindings | src/shared/utils/enfyra-route-engine.ts:118-149 | the record of a successful lookup is the bindings of the matched path with the disturbance of the abandoned branches on top, hence exactly the bindings if and only if that removes no bound name and writes no other `splat`; only `splat` can be wrong or stray, any name can be missing |
| RouteParams.DistinctNamesSuffice | src/shared/utils/enfyra-route-engine.ts:118-149 | without wildcards and with distinct parameter names along each path that condition always holds |
| RouteParams.StraySplat | src/shared/utils/enfyra-route-engine.ts:143-146 | concrete routes for which the condition fails: a wildcard route that cannot match still writes `splat` into the parameters of another |
| RouteParams.WrongSplat | src/shared/utils/enfyra-route-engine.ts:143-146 | concrete routes for which a bound parameter gets a wrong value: one called `splat` is overwritten by an abandoned wildcard |
| RouteEngine.ChildFor | src/shared/utils/enfyra-route-engine.ts:58-75 | one step down the node maps, creating the child when it is missing, is one step in the trie |
| RouteEngine.StoreHandler | src/shared/utils/enfyra-route-engine.ts:77-79 | writing a handler changes that node of the trie and no other |
| RouteEngine.InsertBelow | src/shared/utils/enfyra-route-engine.ts:54-80 | the insertion loop over mutable nodes has the effect of the insertion on the trie value |
| RouteEngine.Search | src/shared/utils/enfyra-route-engine.ts:118-149 | the recursive search over mutable nodes, binding and deleting in a shared record, returns the node and leaves the record of the search on the trie value |
| RouteEngine.SearchParam | src/shared/utils/enfyra-route-engine.ts:136-141 | the parameter branch binds before it descends and unbinds when it fails, also when decoding throws |
| RouteEngine.EnfyraRouteEngine.RootFor | src/shared/utils/enfyra-route-engine.ts:47-51 | a root is created for a new method only, and no trie changes |
| RouteEngine.EnfyraRouteEngine.Insert | src/shared/utils/enfyra-route-engine.ts:39-81 | inserts the path into the trie of its method and leaves every other method alone |
| RouteEngine.EnfyraRouteEngine.Find | src/shared/utils/enfyra-route-engine.ts:83-116 | returns the handler and parameters of the lookup in the trie of the method, nothing for an unknown method, or the decoder's exception |
| RouteCache.InsertRouteToEngine | src/infrastructure/cache/services/route-cache.service.ts:264-281 | a route with a path is inserted once per method, and once more as `/:id` for DELETE and PATCH |
| RouteCache.BuildRouteEngine | src/infrastructure/cache/services/route-cache.service.ts:248-256 | a fresh engine holds for every method exactly the inserts of all routes |
| RouteCache.LogIsServed | src/infrastructure/cache/services/route-cache.service.ts:264-281 | the inserts for a method are exactly the patterns the routes serve |
| RouteCache.ResolvesToServingRoute | src/infrastructure/cache/services/route-cache.service.ts:248-281 | end to end: a path resolves to the last listed route among those that serve the first matching pattern, and to nothing exactly when no route serves a matching one |
| RouteCache.IdVariantLogged | src/infrastructure/cache/services/route-cache.service.ts:264-281 | every listed route with a path is inserted under its path for every method, and under the path and `:id` for PATCH and DELETE; for other methods nothing but paths is inserted |
| RouteCache.RecordIsFound | src/infrastructure/cache/services/route-cache.service.ts:275-279 | end to end: PATCH or DELETE of one record of a listed route that is neither the root nor behind a wildcard is never reported as not found |
| RouteCache.RouteIsFound | src/infrastructure/cache/services/route-cache.service.ts:271-273 | and neither is the route itself under any method |
| RouteCache.FoundWithBindings | src/shared/utils/enfyra-route-engine.ts:100-115 | a found path comes with the route stored for the matched keys, and with their bindings under what the abandoned branches did to them |
| CodeTransformer.TransformCode | src/infrastructure/handler-executor/code-transformer.ts:37-169 | the loop over position, state and result computes the output of the lexer |
| CodeTransformer.InMarker | src/infrastructure/handler-executor/code-transformer.ts:69-92 | a marker is taken to its last identifier character and rewritten |
| CodeTransformerLaws.CopiedLexeme | src/infrastructure/handler-executor/code-transformer.ts:43-165 | a lexeme that is copied is lexed the same way again when what follows it has been rewritten |
| CodeTransformerLaws.MappedIsInert | src/infrastructure/handler-executor/code-transformer.ts:1-28 | every replacement in the table passes through a second rewrite unchanged and leaves the lexer in code state |
| CodeTransformerLaws.IdempotentFrom | src/infrastructure/handler-executor/code-transformer.ts:43-165 | from every lexer state, rewriting the output reproduces it and ends in the state the input ended in |
| CodeTransformerLaws.Idempotent | src/infrastructure/handler-executor/code-transformer.ts:37-169 | rewriting twice is rewriting once, on every input |
| CodeTransformerLaws.TokenMarkers | src/infrastructure/handler-executor/code-transformer.ts:69-92 | markers occur in code position only and run to the last identifier character |
| CodeTransformerLaws.Spans | src/infrastructure/handler-executor/code-transformer.ts:43-165 | the lexemes are the input in order, and the output is the lexemes with exactly the markers rewritten: strings, templates and comments are copied verbatim |
| CodeTransformerLaws.UnchangedIff | src/infrastructure/handler-executor/code-transformer.ts:85-92 | code comes through unchanged exactly when its only markers in code position are unknown `@` names |
| MacroMeaning.HashIsRepository | src/infrastructure/handler-executor/code-transformer.ts:88-89 | in code `#` and a name become `$ctx.$repos.` and the name, and code goes on behind it |
| MacroMeaning.PercentIsPackage | src/infrastructure/handler-executor/code-transformer.ts:90-92 | `%` and a name become `$ctx.$pkgs.` and the name |
| MacroMeaning.MacroIsContext | src/infrastructure/handler-executor/code-transformer.ts:1-28 | each of the 26 macros becomes its text, by a literal table |
| MacroMeaning.OtherNameStays | src/infrastructure/handler-executor/code-transformer.ts:85-87 | any other `@` name stays |
| MacroMeaning.QuotedIsCopied | src/infrastructure/handler-executor/code-transformer.ts:99-145 | strings and templates are copied up to their own quote, whatever markers, escapes and other quotes they hold |
| MacroMeaning.LineCommentIsCopied | src/infrastructure/handler-executor/code-transformer.ts:147-153 | a line comment is copied up to its line break, and code goes on behind it |
| MacroMeaning.BlockCommentIsCopied | src/infrastructure/handler-executor/code-transformer.ts:155-164 | a block comment is copied up to its first end |
| MacroMeaning.PlainIsCopied | src/infrastructure/handler-executor/code-transformer.ts:93-96 | every other character of code is copied |
| HookLoading.UniqueHooksKeepsFirst | src/infrastructure/cache/services/route-cache.service.ts:211-217 | each hook id is kept once, by its first bearer |
| HookLoading.UniqueHooksInOrder | src/infrastructure/cache/services/route-cache.service.ts:211-217 | the kept hooks stay in the order of the list |
| HookLoading.MergedLists | src/infrastructure/cache/services/route-cache.service.ts:208-219 | a route is given the global hooks first and its own behind them, of each id the first, and no others |
| HookLoading.TransformHooks | src/infrastructure/cache/services/route-cache.service.ts:231-240 | one pass over a hook list rewrites both texts of every hook in it, once |
| HookLoading.LoadRoutes | src/infrastructure/cache/services/route-cache.service.ts:198-245 | although global hooks are rewritten once and again for every route that shares them, every hook and handler a route ends up with holds its own text rewritten once, and hooks dropped as duplicates keep theirs |
| ReloadServices.CacheService.Acquire | src/infrastructure/cache/services/cache.service.ts:32-43 | succeeds exactly when the key is absent or expired, and then holds it for the given time |
| ReloadServices.CacheService.Release | src/infrastructure/cache/services/cache.service.ts:45-59 | deletes the key exactly when its live value is the caller's |
| ReloadServices.CacheInstance.HandleMessage | src/infrastructure/cache/services/package-cache.service.ts:50-68 | a foreign sync replaces the cache, an own one is ignored |
| ReloadServices.CacheInstance.Reload | src/infrastructure/cache/services/package-cache.service.ts:87-126 | an uninterrupted reload publishes and installs what it loaded and leaves the lock free, also when the load throws; while another instance holds the lock it changes nothing |
| ReloadProtocol.DeliveryKeepsFinally | src/infrastructure/cache/services/package-cache.service.ts:50-68 | delivering a message never changes where any cache is heading |
| ReloadProtocol.StepKeepsInvariant | src/infrastructure/cache/services/route-cache.service.ts:92-129 | every step of every interleaving keeps the protocol invariant while leases are kept |
| ReloadProtocol.MutualExclusion | src/infrastructure/cache/services/cache.service.ts:32-43 | in every run whose reloads keep their lease, at most one reload is under way and it owns a live lock |
| ReloadProtocol.ReleaseFreesOwnLock | src/infrastructure/cache/services/cache.service.ts:45-59 | in every such run a release frees the lock that its own call took |
| ReloadProtocol.PunctualInstanceFreesOwnLock | src/infrastructure/cache/services/cache.service.ts:45-59 | in every run, whoever else is late, a call of an instance none of whose calls ever outlived its lease holds the lock it set, and its release frees that one |
| ReloadProtocol.ReleaseTakesAnotherCallsLock | src/infrastructure/cache/services/cache.service.ts:45-59 | in every run a release takes away the lock of another call only when that call is one of the same instance and some call of that instance has outlived its lease |
| ReloadProtocol.LockTaken | src/infrastructure/cache/services/cache.service.ts:45-59 | a run in which that happens, after which two reloads are under way although both are within their leases |
| ReloadProtocol.LeaseLastsThirtySeconds | src/shared/utils/constant.ts:21-24 | in every run a lock that is not released, whether its holder lives or has died, keeps calls of other instances out for exactly thirty seconds |
| ReloadProtocol.Convergence | src/infrastructure/cache/services/route-cache.service.ts:92-129 | at quiescence every loaded instance but the last publisher holds its snapshot; the publisher holds it, and its route list and engine agree, exactly under stated conditions on the foreign syncs that waited in its own queue |
| ReloadProtocol.ServedSnapshotsAreWhole | src/infrastructure/cache/services/package-cache.service.ts:104-117 | in every run, timely or not, what a loaded instance serves was the whole database content at one moment |
| ReloadProtocol.OwnReloadOvertaken | src/infrastructure/cache/services/package-cache.service.ts:50-68 | a run within all leases after which the last reloader serves the older snapshot |
| ReloadProtocol.RouteEngineTorn | src/infrastructure/cache/services/route-cache.service.ts:113-118 | a run within all leases after which the route list and the route engine of the last reloader differ |
| ReloadProtocol.OverlapAfterExpiry | src/infrastructure/cache/services/cache.service.ts:32-43 | a run in which a reload outlives its lease and two reloads overlap |
| MigrationLock.MongoSchemaMigrationLockService.Acquire | src/infrastructure/mongo/services/mongo-schema-migration-lock.service.ts:33-86 | undisturbed, a call is granted the lock exactly when the document is missing, unlocked or expired; otherwise nothing changes |
| MigrationLock.MongoSchemaMigrationLockService.Release | src/infrastructure/mongo/services/mongo-schema-migration-lock.service.ts:88-107 | unlocks exactly when the stored token is the handle's |
| MigrationLock.AtMostOneValidHandle | src/infrastructure/mongo/services/mongo-schema-migration-lock.service.ts:33-107 | in every interleaving of all callers at most one handle is neither released nor expired, and it is the stored one |
| MigrationLock.GrantedOnlyWhenFree | src/infrastructure/mongo/services/mongo-schema-migration-lock.service.ts:40-82 | a command grants the lock exactly when it is the first insert, or an update that finds the newest handle released or expired; then no valid handle was left |
| MigrationLock.StaleReleaseChangesNothing | src/infrastructure/mongo/services/mongo-schema-migration-lock.service.ts:88-107 | releasing any handle but the newest leaves the document as it is |
| RowLock.AtMostOneHandle | src/infrastructure/knex/services/schema-migration-lock.service.ts:93-112 | where reading for update locks the row, at most one handle is unreleased and its token is in the row |
| RowLock.GrantedIffAllReleased | src/infrastructure/knex/services/schema-migration-lock.service.ts:93-112 | in every run the next reader that commits is given a handle exactly when all handles are released, and then the row was free |
| RowLock.FallbackNeverClears | src/infrastructure/knex/services/schema-migration-lock.service.ts:180-205 | no run reaches the unconditional update of the release fallback |
| RowLock.TwoHandlesWithoutRowLocks | src/infrastructure/knex/services/schema-migration-lock.service.ts:93-112 | where it does not lock the row, two callers can both be given a handle |
| ExecutorLease.ChildRun.constructor | src/infrastructure/handler-executor/services/handler-executor.service.ts:26-56 | timer and listeners are in place after the synchronous part; a throwing send has already released the child |
| ExecutorLease.ChildRun.HandleChildError | src/infrastructure/handler-executor/utils/error-handler.ts:78-103 | the guarded transition: once done nothing happens, otherwise the child is destroyed and the promise rejected |
| ExecutorLease.ChildRun.OnTimeout | src/infrastructure/handler-executor/utils/child-process-manager.ts:44-58 | the timeout kills and destroys the child unless the run is over |
| ExecutorLease.ChildRun.OnDone | src/infrastructure/handler-executor/utils/child-process-manager.ts:241-255 | done releases the child and disarms the timer, unless merging the context throws |
| ExecutorLease.ChildRun.Dispatch | src/infrastructure/handler-executor/utils/child-process-manager.ts:80-364 | an event acts only through a listener or timer that is still in place |
| ExecutorLease.HandedBackOnce | src/infrastructure/handler-executor/utils/child-process-manager.ts:241-364 | in every interleaving the first terminal event alone decides the hand-back: released on done, destroyed otherwise, at most once, and exactly once unless merging the context threw |
| ExecutorLease.NothingAfterTheEnd | src/infrastructure/handler-executor/utils/child-process-manager.ts:80-81 | after the run is over no event touches the pool, arms the timer or reopens a listener |
| ExecutorLease.SendFailureHandsBackTwice | src/infrastructure/handler-executor/services/handler-executor.service.ts:51-55 | after a throwing send the child is handed back a second time by the first terminal event |
| ExecutorLease.AtMostOnceIffSendWorks | src/infrastructure/handler-executor/services/handler-executor.service.ts:29-56 | the child is handed back at most once in every run if and only if sending does not throw |
| ExecutorLease.PromiseFollowsFirstEnding | src/infrastructure/handler-executor/utils/child-process-manager.ts:169-178 | the promise is settled by a script's `$throw` if one came before the end, otherwise by the event that ended the run, and never again |
| ExecutorLease.ReplySentIff | src/infrastructure/handler-executor/utils/child-process-manager.ts:204-238 | in every run a returning helper call is told to the child exactly when the call was taken up before the end and the child was neither killed nor gone, also after the run is over |
| CallTable.ChildRuntime.NewId | src/infrastructure/handler-executor/utils/build-fn-proxy.ts:42-62 | a call id is the counter after its increment |
| CallTable.ChildRuntime.OnCallResult | src/infrastructure/handler-executor/runner.ts:167-179 | a reply settles the call waiting under its id and removes it; an unknown id is ignored |
| CallTable.IdsNeverReused | src/infrastructure/handler-executor/utils/build-fn-proxy.ts:42-106 | no call id is given twice in a child, across all its runs and both kinds of calls |
| CallTable.SettledOnceByOwnReply | src/infrastructure/handler-executor/runner.ts:167-179 | whatever the order, delay or repetition of replies, a call is settled at most once and only with a reply to itself |
| CallTable.ReplySettlesItsCall | src/infrastructure/handler-executor/runner.ts:167-179 | in every run a reply whose id is waited for takes that one entry out and settles its call; any other reply changes nothing |
| CallTable.NoCallLost | src/infrastructure/handler-executor/utils/build-fn-proxy.ts:42-106 | in every run each issued call is an open stream, waits under its own id, or has been settled |
| CallTable.SettledAsGiven | src/infrastructure/handler-executor/utils/child-process-manager.ts:215-238 | a call is settled with a value or an error that the parent gave for it |
| CallTable.StaleReplyIsHarmless | src/infrastructure/handler-executor/runner.ts:167-179 | a reply to a call of an earlier run leaves the calls of the current run as they were |
| Buffers.ArrivesIff | src/infrastructure/handler-executor/utils/child-process-manager.ts:11-34 | a value sent by the child arrives as it was exactly when no plain object in it reads like a serialised buffer |
| MongoPipeline.ExecuteAggregationPipeline | src/infrastructure/query-builder/executors/mongo-query-executor.ts:226-448 | the loops push exactly the filter, sort, page, lookup, projection and count stages, in the order that the presence of relation filters decides |
| MongoPipeline.BuildSortSpec | src/infrastructure/query-builder/executors/mongo-query-executor.ts:252-260 | the loop over the sort entries builds the sort object |
| MongoPipelineLaws.SortSpecMeaning | src/infrastructure/query-builder/executors/mongo-query-executor.ts:252-260 | the sort object has exactly the fields mentioned, by last path segment and with `id` as `_id`, each once, in the order of their first mention and in the direction of their last |
| MongoPipelineLaws.FieldNameIs | src/infrastructure/query-builder/executors/mongo-query-executor.ts:255-258 | a sort names a field by the text behind its last dot, and `id` means `_id` |
| MongoQueryMeaning.LookupsPopulate | src/infrastructure/query-builder/executors/mongo-query-executor.ts:328-401 | the stages pushed for the relations populate them one after another: an array for to-many, an item or nothing for to-one, and no document whose filtered relation is missing |
| MongoQueryMeaning.UnpagedMeaning | src/infrastructure/query-builder/executors/mongo-query-executor.ts:226-448 | the results of a query without a page are exactly the filtered documents, populated, in order, projected; when the sort goes first, under the condition of early paging |
| MongoQueryMeaning.ResultIsOrdered | src/infrastructure/query-builder/executors/mongo-query-executor.ts:302-315 | a result that is not projected is in the order of the sort keys |
| MongoQueryMeaning.PagedIsPageOfUnpaged | src/infrastructure/query-builder/executors/mongo-query-executor.ts:302-431 | wherever sort and page stand in the pipeline, the results of a paged query are exactly that page of the results of the whole query; when they go first, under the condition of early paging |
| MongoPipelineLaws.MovedEquivalently | src/infrastructure/query-builder/executors/mongo-query-executor.ts:302-431 | sort, skip and limit before stages that keep one document per document have exactly the possible results they have after them |
| MongoPaging.LookupsAreSingle | src/infrastructure/query-builder/executors/mongo-query-executor.ts:328-401 | the lookups never lose a document, and keep it single exactly when each to-one relation without nested pipeline joins at most one |
| MongoPaging.EarlyPagingIsLatePaging | src/infrastructure/query-builder/executors/mongo-query-executor.ts:302-431 | without relation filters, paging before the lookups has exactly the possible results of paging after them, if to-one relations join at most one document and no sort key is a relation |
| MongoPaging.LimitsCommuteIffOneEach | src/infrastructure/query-builder/executors/mongo-query-executor.ts:317-324 | that condition cannot be weakened: all limits commute with the lookups if and only if every document meets it |
| MongoPaging.CountIgnoresPage | src/infrastructure/query-builder/executors/mongo-query-executor.ts:132-162 | the count-only form counts what the query finds on all pages together, with or without relation filters |
| MongoPaging.PageIsSlice | src/infrastructure/query-builder/executors/mongo-query-executor.ts:111-118 | page `n` is the slice of the unpaged result between its two bounds |
| MongoPaging.PagesTile | src/infrastructure/query-builder/executors/mongo-query-executor.ts:111-118 | the pages put together are the result from its start, nothing lost or repeated |
| MongoSortByRelation.SortingByRelationDiffers | src/infrastructure/query-builder/executors/mongo-query-executor.ts:304-315 | for any relations and any sort with a key among them there are documents, each joining at most one, for which sorting after the lookups has a result that sorting before them lacks |
| MongoSortByRelation.SortMovesIffNoRelationKey | src/infrastructure/query-builder/executors/mongo-query-executor.ts:304-315 | sorting before the lookups has the possible results of sorting after them on all data that joins at most one document each, if and only if no sort key names a populated relation |
| Naming.CamelRoundTrip | src/infrastructure/knex/utils/naming-helpers.ts:154-167 | camel case survives the way to snake case and back exactly when no underscore stands before a lower-case letter |
| Naming.SnakeRoundTrip | src/infrastructure/knex/utils/naming-helpers.ts:154-167 | snake case survives the way to camel case and back exactly when it has no upper-case letter |
| Naming.ForeignKeysCollide | src/infrastructure/knex/utils/naming-helpers.ts:97-101 | two properties share a foreign-key column exactly when they read the same in camel case |
| Naming.ForeignKeyOfName | src/infrastructure/knex/utils/naming-helpers.ts:97-101 | a camel-case relation is stored under its name and `Id`, a snake-case one like its camel form |
| InverseRelations.GenerateInverseRelations | src/infrastructure/cache/services/metadata-cache.service.ts:346-426 | the nested loops terminate although they append to the arrays they iterate, and add what a pass over the original relations adds |
| InverseRelations.GenerateForTable | src/infrastructure/cache/services/metadata-cache.service.ts:348-424 | one table, its own array growing under the loop when a relation points back at it |
| InverseRelations.AddInverseTo | src/infrastructure/cache/services/metadata-cache.service.ts:349-423 | one relation adds its inverse to its target unless it names none, the target is unknown, or the name is taken |
| InverseRelations.GenerateCloses | src/infrastructure/cache/services/metadata-cache.service.ts:346-426 | afterwards every relation with an inverse name and a known target has its counterpart, and nothing was removed or reordered |
| InverseRelations.GenerateIsIdempotent | src/infrastructure/cache/services/metadata-cache.service.ts:346-426 | a second run adds nothing |
| InverseRelations.GenerateKeepsUnique | src/infrastructure/cache/services/metadata-cache.service.ts:360-366 | property names unique in each table stay unique |
| InverseRelations.InverseSharesStorage | src/infrastructure/cache/services/metadata-cache.service.ts:368-418 | a relation and its inverse use the same column, or the same junction table with the columns exchanged; a one-to-one inverse has no column and is mapped by the relation; each is the other's inverse |
| InverseRelations.InverseOfInverse | src/infrastructure/cache/services/metadata-cache.service.ts:368-418 | the inverse leads from the target back to the table, and its own inverse has the name, kind, target and storage of the relation |
| MongoRelations.Collection.UpdateInverseRelations | src/infrastructure/mongo/services/mongo.service.ts:282-324 | the two loops over removed and added ids leave each document without, with, or as it was |
| MongoRelations.MongoService.UpdateOneOwner | src/infrastructure/mongo/services/mongo.service.ts:449-466 | an owner update writes the field and tells exactly the targets that lost or gained it |
| MongoRelations.MongoService.UpdateOneTarget | src/infrastructure/mongo/services/mongo.service.ts:449-466 | an update of the inverse side changes the owners but not its own array |
| MongoRelations.MongoService.DeleteOneOwner | src/infrastructure/mongo/services/mongo.service.ts:468-481 | a delete first removes the id on the other side |
| MongoRelations.Cleanup | src/infrastructure/mongo/services/mongo.service.ts:510-534 | the cleanup pulls the id from the stored ids, or from all that are found to store it when none are stored |
| MongoRelations.MongoService.InsertOneOwner | src/infrastructure/mongo/services/mongo.service.ts:176-202 | an owner insert stores the ids and tells each named target that exists |
| MongoRelations.InsertOwnerWrites | src/infrastructure/mongo/services/mongo.service.ts:176-202 | a new owner stores what it is given, and exactly the existing targets it names store it; every other membership stays |
| MongoRelations.UpdateOwnerWrites | src/infrastructure/mongo/services/mongo.service.ts:449-466 | an updated owner likewise; an update that does not name the field changes nothing |
| MongoRelations.UpdateNoOwnerWrites | src/infrastructure/mongo/services/mongo.service.ts:449-466 | an update of an owner that does not exist stores nothing and still tells the targets |
| MongoRelations.DeleteOwnerWrites | src/infrastructure/mongo/services/mongo.service.ts:468-481 | a deleted owner is gone, no target stores it any more, everything else stays |
| MongoRelations.InsertTargetWrites | src/infrastructure/mongo/services/mongo.service.ts:155-202 | a new target gets an empty array, and exactly the existing owners it names store it |
| MongoRelations.UpdateTargetWrites | src/infrastructure/mongo/services/mongo.service.ts:449-466 | an updated target keeps its array, and exactly the existing owners it names store it |
| MongoRelations.DeleteTargetWrites | src/infrastructure/mongo/services/mongo.service.ts:468-481 | a deleted target is gone and no owner stores it any more |
| MongoRelations.OperationIff | src/infrastructure/mongo/services/mongo.service.ts:176-537 | from agreement of both sides an insert, update or delete leaves them agreeing exactly under its guard; owner inserts and updates naming existing targets, and all deletes, meet it |
| MongoRelations.HistoryIff | src/infrastructure/mongo/services/mongo.service.ts:176-537 | over a whole history both sides agree after every operation if and only if every operation met its guard |
| MongoRelations.GuardedHistoryPairs | src/infrastructure/mongo/services/mongo.service.ts:176-537 | after a history that met its guards two documents name each other on both sides or on neither, and no array names a document that is gone |
| MongoRelations.InverseWriteBreaks | src/infrastructure/mongo/services/mongo.service.ts:155-174 | a write from the inverse side after which an owner refers to a target that does not refer back |
| MongoReferences.MongoService.TellParents | src/infrastructure/mongo/services/mongo.service.ts:250-280 | the old parent loses the child and the new one gains it, when they differ and exist |
| MongoReferences.MongoService.TellChildren | src/infrastructure/mongo/services/mongo.service.ts:282-324 | dropped children lose their reference and added ones are pointed at the parent |
| MongoReferences.MongoService.Delete | src/infrastructure/mongo/services/mongo.service.ts:468-537 | deleting a parent clears its children; deleting a child leaves every parent as it was |
| MongoReferences.ChildWrites | src/infrastructure/mongo/services/mongo.service.ts:250-280 | a new or updated child stores its parent, and only that parent, if it exists, lists the child |
| MongoReferences.DeleteChildWrites | src/infrastructure/mongo/services/mongo.service.ts:468-481 | a deleted child is gone and every parent is as it was |
| MongoReferences.ParentWrites | src/infrastructure/mongo/services/mongo.service.ts:282-324 | a new parent gets an empty array and an updated one keeps its own; exactly the existing children named refer to it |
| MongoReferences.DeleteParentWrites | src/infrastructure/mongo/services/mongo.service.ts:468-537 | a deleted parent is gone and no child refers to it any more |
| MongoReferences.OperationIff | src/infrastructure/mongo/services/mongo.service.ts:176-537 | for a many-to-one relation: from agreement an operation leaves both sides agreeing exactly under its guard; deleting a child that has a parent never does |
| MongoReferences.HistoryIff | src/infrastructure/mongo/services/mongo.service.ts:176-537 | and so over a whole history |
| CascadeHandler.Handler.HandleManyToMany | src/infrastructure/knex/utils/cascade-handler.ts:72-105 | the delete and the insert on the junction table; a null item throws before both, and the insert is refused for a repeated id, an object without one, an id that names no row, or a record that does not exist |
| CascadeHandler.Handler.HandleOneToMany | src/infrastructure/knex/utils/cascade-handler.ts:107-169 | the null update of dropped children and the loop of updates and inserts, up to the first statement that a constraint refuses; a bare id inserts an empty row |
| CascadeHandler.Handler.HandleOneToOne | src/infrastructure/knex/utils/cascade-handler.ts:172-222 | the owner links to an existing or a new row, item by item, bare ids skipped, up to the first refused statement |
| CascadeHandler.Handler.HandleCascadeRelations | src/infrastructure/knex/utils/cascade-handler.ts:22-229 | relations are applied in order, a refused statement ends the call, and the context is used up only on success |
| CascadeLaws.JunctionReplacedIff | src/infrastructure/knex/utils/cascade-handler.ts:66-105 | a many-to-many list leaves the source linked to exactly the ids it names if and only if it is linkable: not empty over existing links, no null, no object without id, no id twice, every id a target row, the source there; a list that is refused after the delete costs the source all its links |
| CascadeLaws.MeantLinksExactly | src/infrastructure/knex/utils/cascade-handler.ts:92-103 | what that result means: the named ids for this source, everything as before for every other |
| CascadeLaws.DanglingIdLosesLinks | src/infrastructure/knex/utils/cascade-handler.ts:92-103 | a concrete list with an id that names no row, after which the old links are gone |
| CascadeLaws.ChildrenReplacedIff | src/infrastructure/knex/utils/cascade-handler.ts:66-169 | a one-to-many list leaves the table as it asks if and only if it is savable: objects only, not empty over existing children, the resulting table within all constraints, and the parent there when something refers to it |
| CascadeLaws.MeantChildren | src/infrastructure/knex/utils/cascade-handler.ts:121-169 | what that result means: the children are the named rows that exist and one new row per object without id, and no row outside old and new children changes |
| CascadeLaws.ChildrenAfter | src/infrastructure/knex/utils/cascade-handler.ts:121-169 | whatever list goes through, the children are the rows that objects list and the inserted ones, one for every item that lists none |
| CascadeLaws.BareIdLosesChild | src/infrastructure/knex/utils/cascade-handler.ts:126-165 | a concrete list of a bare id that drops the child it names and inserts an empty row |
| CascadeLaws.RequiredChildStays | src/infrastructure/knex/utils/cascade-handler.ts:133-141 | a child whose foreign key may not be null cannot be dropped: no list without it saves anything |
| CascadeLaws.EmptyListKeepsChild | src/infrastructure/knex/utils/cascade-handler.ts:66-70 | a concrete parent that keeps its child although the list is empty |
| CascadeLaws.ResavingChangesNothing | src/infrastructure/knex/utils/cascade-handler.ts:121-169 | saving a savable list of existing children twice changes nothing the second time |
| CascadeLaws.LastObjectDecides | src/infrastructure/knex/utils/cascade-handler.ts:193-222 | when all items of a one-to-one value go through, the record points where the last object says, at a row that exists, and nothing changes when there is none |
| CascadeLaws.PassedOver | src/infrastructure/knex/utils/cascade-handler.ts:56-83 | nothing happens for a many-to-one relation, a one-to-one inverse, missing metadata, or a value that is no list where a list is needed |
| CascadeHandler.RejectedEarly | src/infrastructure/knex/utils/cascade-handler.ts:53-228 | relations behind a refused statement are not touched |
| CascadeLaws.OneToManyInCascade | src/infrastructure/knex/utils/cascade-handler.ts:53-226 | in a whole cascade a one-to-many relation has exactly its own effect on a table no other relation writes |
| CascadeLaws.ManyToManyInCascade | src/infrastructure/knex/utils/cascade-handler.ts:53-226 | and a many-to-many relation on its junction |
| SchemaComparison.CompareSchemas | scripts/utils/sql/schema-comparison.ts:115-236 | the passes over both schemas produce the columns and relations to add and remove |
| SchemaConvergence.DiffMeaning | scripts/utils/sql/schema-comparison.ts:115-236 | which names a comparison lists, in terms of the snapshot: columns but the primary key and timestamps, and the columns of many-to-one and one-to-one relations |
| SchemaConvergence.OthersAddNothing | scripts/utils/sql/migrations.ts:429-530 | many-to-many and one-to-many relations and generated one-to-one inverses put nothing on the table |
| SchemaComparison.SqlTable.ApplyColumnMigrations | scripts/utils/sql/migrations.ts:15-187 | columns are added, then obsolete ones dropped with their constraints |
| SchemaComparison.SqlTable.ApplyRelationMigrations | scripts/utils/sql/migrations.ts:429-530 | foreign keys are dropped with their columns one by one, then new ones added, generated inverses and many-to-many skipped |
| SchemaComparison.SqlTable.SyncTable | scripts/utils/sql/migrations.ts:532-562 | comparison and both migrations in a row |
| SchemaConvergence.SyncResult | scripts/utils/sql/migrations.ts:532-562 | a sync of a well-formed table and snapshot is never refused; which columns and constraints it leaves |
| SchemaConvergence.SyncConverges | scripts/utils/sql/schema-comparison.ts:156-168 | the table gets exactly the snapshot's scalars and foreign keys if and only if no foreign key that is given up stands on a column that stays |
| SchemaConvergence.ConstraintsAfterSync | scripts/utils/sql/schema-comparison.ts:216-222 | every foreign-key column of the snapshot is constrained afterwards exactly when none stood there unconstrained |
| SchemaConvergence.SecondSyncDoesNothing | scripts/utils/sql/schema-comparison.ts:115-236 | a second comparison lists nothing but many-to-many relations and a second sync changes nothing |
| SchemaConvergence.ScalarLosesItsColumn | scripts/utils/sql/schema-comparison.ts:229-233 | a relation turned into a plain column of the same name loses the column |
| MessageBuilder.BuildLLMMessages | src/modules/ai-agent/utils/message-builder.helper.ts:43-248 | the loop with its skips, its last pushed role and its truncations builds the transcript |
| MessageBuilder.PushAnswers | src/modules/ai-agent/utils/message-builder.helper.ts:215-239 | one tool message per call, in order, until serialising a result throws |
| TranscriptMeaning.UserMessage | src/modules/ai-agent/utils/message-builder.helper.ts:60-85 | a user message is pushed with its text, cut to a thousand characters, unless a user message was the last or it is text that holds a lost object |
| TranscriptMeaning.AssistantMessage | src/modules/ai-agent/utils/message-builder.helper.ts:86-239 | what an assistant message contributes: nothing when it reports a failure or has an orphaned result; its calls with its text cut to 800 and each answered by its last result or the note that there is none; without calls its text cut to 400, and only among the last four |
| TranscriptMeaning.OtherMessage | src/modules/ai-agent/utils/message-builder.helper.ts:45-57 | other roles contribute nothing, and the prompt stands first unless it is blank |
| TranscriptLaws.TranscriptIsShaped | src/modules/ai-agent/utils/message-builder.helper.ts:57-246 | whatever is stored, tool messages occur only as answers right behind their assistant message and in call order, two user messages have an assistant message between them, and the system prompt is first |
| TranscriptLaws.TranscriptWellFormedIff | src/modules/ai-agent/utils/message-builder.helper.ts:203-244 | in addition every call is answered at once if and only if no result of a pushed message fails to serialise |
| TranscriptLaws.StoredConversationIsAnswered | src/modules/ai-agent/utils/message-builder.helper.ts:203-239 | so every call of a conversation read back from JSON is answered |
| TranscriptLaws.UnserialisableLosesAnswer | src/modules/ai-agent/utils/message-builder.helper.ts:220-244 | a concrete message with a result that cannot be serialised, whose call stays unanswered |
| TranscriptLaws.TranscriptWithinLimits | src/modules/ai-agent/utils/message-builder.helper.ts:77-79 | user content never exceeds 1000 characters and assistant content 400, or 800 with calls, besides the note that it was shortened |
| ToolLoop.ChatStream.ProcessCall | src/modules/ai-agent/services/llm.service.ts:620-862 | one call of the tool loop: stored answer, repeated id, missing tool, exception, result |
| ToolLoop.ChatStream.Run | src/modules/ai-agent/services/llm.service.ts:110-111 | the rounds end at the bound, or at a response without calls; never at the failure limit |
| ToolLoop.CompletesOnce | src/modules/ai-agent/services/llm.service.ts:620-655 | a key completes at most once, and every other execution of it came before and threw |
| ToolLoop.AnsweredFromStore | src/modules/ai-agent/services/llm.service.ts:623-655 | every later call with a completed key gets the result of that completion and is not run |
| ToolLoop.OtherCallIsRun | src/modules/ai-agent/services/llm.service.ts:656-862 | any other call is passed over when its id was used before; otherwise its result, or the reason why there is none, is recorded for it once, and it has a message |
| ToolLoop.MessagesHoldResults | src/modules/ai-agent/services/llm.service.ts:838-852 | a tool message holds a result recorded for its call |
| ToolLoop.NeverStopped | src/modules/ai-agent/services/llm.service.ts:816-839 | no key counts more than one failure, so the limit of three never stops a run |
| ToolLoop.OneMessagePerCall | src/modules/ai-agent/services/llm.service.ts:640-652 | every processed call id has exactly one tool message |
| ToolKey.SameKeyIffSameArguments | src/modules/ai-agent/services/llm.service.ts:608-620 | two argument objects get the same memo key exactly when they hold the same properties, in whatever order |
| AutoSlug.GenerateUniqueSlug | src/shared/utils/auto-slug.helper.ts:70-89 | terminates on every list; the slug is free, unchanged when it was free, and otherwise carries the least free counter, at most the length of the list |
| AutoSlug.CandidatesDiffer | src/shared/utils/auto-slug.helper.ts:81-86 | different counters give different slugs |

## Left out

- RouteEngine.EnfyraRouteEngine.Insert: does not count inserts and keeps no node type or node text, which the code only logs; the debug output is left out with them.
- ReloadProtocol.Convergence: does not model the method list that travels with the routes; the code loads it once and keeps it, and the model takes it as fixed.
- ReloadProtocol.Convergence: takes each Redis or database command as one atomic step and each subscriber's messages as arriving in order of publication; the unlocked first load of the metadata cache is not a step of the protocol.
- RowLock.AtMostOneHandle: does not model the advisory locks of PostgreSQL and MySQL, which depend on the pooled session that runs the unlock, nor the creation of the lock table.
- ExecutorLease.HandedBackOnce: does not model the stream messages to the HTTP response, nor the pool itself beyond the calls made on it.
- CallTable.IdsNeverReused: takes an id as its number, since the two prefixes share one counter.
- Buffers.ArrivesIff: covers the result of a run; the rebuilding of top-level call arguments from numeric keys is not modelled.
- MongoPaging.EarlyPagingIsLatePaging: takes the filter, projection and nested-pipeline builders as arbitrary functions.
- MongoPipelineLaws.SortSpecMeaning: does not model field names that read as array indices, which a JavaScript object lists first.
- MongoPaging.PagesTile: speaks of the pages of one ordering; two queries may break ties differently.
- MongoRelations.OperationIff: does not model nested objects in relation values, or a relation from a collection to itself.
- MongoReferences.OperationIff: likewise, and one-to-one relations are not modelled.
- CascadeHandler.SyncOneToMany: takes ids as numbers, gives every created row a new id (also for an item whose id is zero or null), takes the columns of an item as known to the table, and does not let a row that is inserted stand in for a missing parent of the same table.
- CascadeHandler.LinkOne: takes the result of an insert as MySQL gives it, the new id.
- SchemaComparison.CompareSchemas: leaves out types, nullability, enum options and delete rules, so the list of columns to modify.
- InverseRelations.GenerateInverseRelations: leaves out how metadata rows are parsed before it runs, and hash-shortened junction names.
- Naming.CamelRoundTrip: covers ASCII letters only.
- MessageBuilder.BuildLLMMessages: takes the calls found in the text of old messages as an arbitrary function, and blank as spaces, tabs and line breaks.
- ToolLoop.ChatStream.Run: takes the rounds of calls as given; streaming, token usage, the checks that discard calls before the loop, calls parsed from text, and aborts are not modelled. A key is taken as given there; `ToolKey` says when two keys are equal.
- AutoSlug.GenerateUniqueSlug: takes the base slug as given; normalisation is not modelled.
- The Redis subscription table, which keeps the first handler of a channel.
- `CacheService.clearAll`, which erases every lock during bootstrap.
- The insertion of `await` in the child by regular expressions.
- HTTP, guards, Swagger, prompts, logging and the providers of language models: plumbing and text.
