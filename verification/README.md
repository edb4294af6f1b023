# A verified model of amb-relay

amb-relay is a Nostr relay for educational resources. Events live in BoltDB, and a Typesense index answers
searches. Three parts of it are modelled here.

**Bans and deletions.** Two write buffers and a purger race each other over Bolt and the search index. `Gate` is
the gate every path asks, `Purge` and `Backfill` are the removals, `BoltRace` and `TsMachine` are the races as
state machines whose steps are single reads and writes, `BoltBuffer` and `TsBuffer` are the code of the workers
and purges, shown to be runs of these machines with others acting between any two accesses. `BoltShutdown` and
`TsShutdown` are about Close. `Embedding` is the batch preparation of the index buffer. The rules are those of
NIP-09 ("a" tags reach all versions up to the created_at of the request; a request cannot be deleted) and of NIP-01
(section "Kinds": the newest version wins, the lowest id on equal times).

**Concept expansion.** `VocabParse` and `SourceLoading` reduce fetched events to sources, `VocabGraph` builds the
relation graph and walks it, `VocabExpansion` says what the walk means, `SearchTokens`, `ExpandFilter`,
`ExpandMeaning` and `ExpandQuery` rewrite a query, `MappingRegistry` and `Paging` are the caches and the paging loop
around it, `CacheRelay` and `CacheCollision` are about where the caches go wrong.

**Reindexing.** `Projection` and `Reindex` rebuild the index: metadata and fulltext of a shared document are written
by two passes with different keys and orders, and settle on the same version.

`Sequences`, `Ordering`, `Wrappers`, `Text`, `Nostr`, `Vocab` and `MappingTrust` hold what these share.

## What the code does where its comments say otherwise

- A Bolt delete that fails is logged and not counted (purge.go:60-63), so `applyCoordDeletions` may report no error and
  the backfill may set its marker while rows remain. `Purge.ExactCoordinatePurge` is the exact effect under any
  failures: a version that was asked for and passed validation stays iff its own Bolt delete fails
  (`Purge.NamedVersionsThatStay`, `Purge.UncountedBoltFailure`). The tombstones the marker stands for are there in any
  case (`Backfill.BackfillCoordTombstones`).
- "Every stored version" of a coordinate with an empty d is not removed: the d filter misses addressable events
  without a d tag (purge.go:195-197). `Purge.NamedVersionsThatStay` says exactly which stay; the gate blocks them. The
  validators refuse such events (validate.go:6-78, shares.go:116-138), so only rows that came in past validation,
  by hydration or from before it, can be such versions.
- The graph cache key is a comma join (expand_registry.go:250) and a concordance's d may hold commas:
  `CacheCollision.CacheIsRightIff` is the exact condition on the keys, `CacheCollision.SecondQueryGetsFirstGraph` three
  concordances that load and a query answered with another one's graph.
- The flush before a community patch (buffer.go:138-141) does not happen for documents whose d value is empty, since
  pendingDocIDs does not know them while the projection gives them an id that can be patched
  (`TsLimits.PatchOvertakesIff`). This is a limit of the buffer taken alone: `validateAMB` (validate.go:6-9) refuses
  such events and `shareToRef` (community_stamp.go:41) such coordinates, and for every event that passed validation
  no run has the overtaking (`TsLimits.AcceptedIsNeverOvertaken`).
- The paging error says "more than 300 events share created_at"; it means at least 300 (`Paging.PageRelay`).
- The no-resurrection arguments do not need "no ban is lifted meanwhile": an event that may not stay has somebody on
  the way to remove it in any case (`BoltRace.NothingDueWhenFinished`, `TsPurge.IndexCleanWhenDone`). The
  statements about dropped events and content patches do need it, but of that event and its key only.
- "The buffer guarantees Event is upserted before Patch runs" (buffer.go:128-136) fails when a ban of the event or of
  its key is lifted meanwhile, and in no other way (`TsLimits.PatchWithoutUpsertIff`).
- An a tag's kind wraps to 16 bits before it is looked at (purge.go:129-134); `Nostr.ParseCoord` does the same.

## Model

| member | source | states |
|---|---|---|
| VocabGraph.Graph.Link | vocabmap/graph.go:19-35 | adds the edge unless it is a self-loop or already there, keeping every adjacency list duplicate-free and in step with the edge set |
| VocabGraph.NewGraph | vocabmap/graph.go:45-108 | the graph holds exactly the edges the concepts and one-to-one mappings call for, without the exact edges that the conflict rule removes, in sorted lists |
| VocabGraph.NonExactPairs | vocabmap/graph.go:70-81 | a pair is taken out of the exact relation, in either direction, iff some one-to-one mapping other than exact or close joins it |
| VocabGraph.TabulateRepresents | vocabmap/graph.go:102-106 | the independent reference graph of an edge set represents exactly these edges, in ascending lists |
| VocabGraph.RepresentationUnique | vocabmap/graph.go:102-106 | two sorted graphs over the same edges are the same graph, list by list |
| VocabGraph.Graph.ExactClosure | vocabmap/graph.go:110-122 | the growing-list loop terminates on every graph, cycles included, and returns the reference closure in order |
| VocabGraph.ClosureNoDup | vocabmap/graph.go:110-122 | the closure lists no identifier twice |
| VocabExpansion.ClosureIsReachability | vocabmap/graph.go:110-122 | an identifier is in the exact closure iff a path of exact links leads to it |
| VocabGraph.Graph.Expand | vocabmap/graph.go:133-195 | the frontier walk returns exactly the first MaxResults identifiers of the uncapped walk, and truncated iff the uncapped walk has more |
| VocabGraph.Graph.AddLevel | vocabmap/graph.go:165-184 | one narrowing step adds each new child with its exact closure and nothing else; when the cap is hit the result is the capped whole |
| VocabGraph.LevelsExtend | vocabmap/graph.go:165-184 | narrowing only appends |
| VocabGraph.TraceStages | vocabmap/graph.go:148-194 | each stage of the walk is a prefix of the next |
| VocabExpansion.OneLevel | vocabmap/graph.go:165-184 | a frontier that holds all that is not yet narrowed finds, in one step, exactly the next set of the set form, and the new frontier again holds all that is not yet narrowed |
| VocabExpansion.FixedPoint | vocabmap/graph.go:165-165 | once the frontier is empty no further depth finds anything |
| VocabExpansion.TraceIsExpansion | vocabmap/graph.go:124-195 | the uncapped walk returns exactly the set form: exact-reachable identifiers, their close neighbours (not closed again), four rounds of narrower children with their closures, and on request the related neighbours |
| VocabExpansion.TraceStartsWithId | vocabmap/graph.go:124-131 | no identifier twice, and the queried one first |
| VocabExpansion.CappedExpansion | vocabmap/graph.go:124-132 | the capped result: the queried identifier first, distinct members of the expansion, all of them unless there are more than MaxResults, else exactly MaxResults |
| VocabExpansion.BuiltSymmetric | vocabmap/graph.go:37-40 | exact, close and related links of a built graph go both ways |
| VocabExpansion.ExactIdentifiersExpandAlike | vocabmap/graph.go:124-132 | identifiers joined by exact mappings, over any number of steps, expand to the same set |
| VocabExpansion.GraphOrderIndependent | vocabmap/graph.go:45-108 | permuting or repeating concepts and mappings leaves the graph unchanged, so every expansion with its order and its cut (concept addresses distinct) |
| VocabParse.LatestByAddress | vocabmap/parse.go:242-261 | computes the reference Latest: one event per address, in address order |
| VocabParse.LatestOrderIndependent | vocabmap/parse.go:240-261 | the result does not depend on the order or repetition of the fetched events (ids determine events) |
| VocabParse.LatestIsNewest | vocabmap/parse.go:240-248 | an event is kept iff no other event of its address is newer, or as new with a lower id |
| VocabParse.ComputeUniqueNFC | vocabmap/parse.go:91-105 | the loop computes the reference list of distinct normal forms in first-occurrence order |
| VocabParse.UniqueNFCMembers | vocabmap/parse.go:91-105 | the list has exactly the normal forms of the non-empty values, each once |
| VocabParse.IdentifierIsSameness | vocabmap/parse.go:107-121 | the mapping identifier depends on the set of normal forms alone: not on order, repetition or encoding of the targets |
| VocabParse.MappingNamesItself | vocabmap/parse.go:156-196 | a mapping that passes validation has targets, each once, and carries the identifier of its own normalised members |
| VocabParse.ParseConcept | vocabmap/parse.go:123-154 | the tag loop computes the reference concept, or none for a wrong kind or an empty d |
| VocabParse.ParseMapping | vocabmap/parse.go:159-196 | the checks and loops compute the reference mapping, or none |
| VocabParse.ParseConcordance | vocabmap/parse.go:198-218 | the tag loop computes the reference concordance, or none |
| VocabParse.Members | vocabmap/parse.go:223-238 | the loop computes the reference member list |
| VocabParse.MembersAreFirst | vocabmap/parse.go:220-238 | a mapping is a member iff it is eligible and no earlier eligible mapping has its d |
| SourceLoading.Load | expand_registry.go:279-398 | every branch of a source load, errors included, is the reference source of its key |
| SourceLoading.SourceOrderIndependent | expand_registry.go:290-398 | a source loads the same concepts and mappings, in the same order, whatever order the fetches answer in |
| SearchTokens.SearchTokens | expand.go:133-163 | the index loop computes the reference token list |
| SearchTokens.TokensSpell | expand.go:131-163 | the tokens are consecutive pieces of the string, verbatim, and only spaces lie between and around them |
| SearchTokens.TokensReadable | expand.go:131-163 | in any string a token left with an open quote is followed by no further quote |
| SearchTokens.KeptTokensReadBack | expand.go:131-132 | any subsequence of the tokens of any string, re-joined with spaces, tokenizes to exactly itself |
| ExpandQuery.ExpandConceptFilters | expand.go:190-315 | the whole rewrite, loops and early returns, is the reference rewrite of the query; the filter it was given keeps its tag map object and contents |
| ExpandQuery.ReadTokens | expand.go:202-218 | kept tokens, options and the fields by base, as the token loop gathers them |
| ExpandQuery.GroupFields | expand.go:250-262 | the slice of groups grown and updated in place is the reference grouping: one group per sole field of its base, in first-occurrence order, with all its values |
| ExpandQuery.WriteSlots | expand.go:275-306 | the slot loop writes exactly the reference tags and reports the dropped fields |
| ExpandQuery.ExpandValues | expand.go:319-343 | values first, then the additions of each expansion in order; changed iff something was added |
| ExpandMeaning.StrippingKeepsMeaning | expand.go:190-230 | taking the expand: tokens out of a search leaves what it matches unchanged, for every document and query |
| ExpandMeaning.RewriteMeaning | expand.go:190-315 | a rewritten query matches exactly: the clauses left alone, and for every rewritten group separately some identifier of its expansion |
| ExpandMeaning.ExpansionNeverNarrows | expand.go:190-194 | a document whose concepts field holds its facet ids and that matches the query matches the rewritten query |
| ExpandMeaning.OwnFreshSlots | expand.go:280-306 | every written group gets a slot of its own, ascending, below the limit, that the query did not use, holding its expansion; slots the query used keep their values |
| ExpandMeaning.WrittenDropsSole | expand.go:250-262 | a field is dropped from the search only when it was the only field of its base |
| MappingRegistry.ComputeSourceKeys | expand_registry.go:46-60 | the source keys of a trust, ascending and without repetition |
| MappingRegistry.MappingRegistry.ToLoad | expand_registry.go:160-175 | the keys not loaded, not defaults and not failed lately, in the order asked |
| MappingRegistry.MappingRegistry.MarkFailed | expand_registry.go:177-199 | records the failure; of the others exactly the recent ones stay, all of them while there is room, else the latest 1023; entries and graphs stay as they are |
| MappingRegistry.MappingRegistry.Store | expand_registry.go:201-229 | puts the source in with its old time of use, drops every graph, evicts the least recently used on-demand sources down to 32 and never a default |
| MappingRegistry.MappingRegistry.Evict | expand_registry.go:212-228 | the eviction loop removes only on-demand sources, none used later than one it keeps, and no more than needed |
| MappingRegistry.MappingRegistry.GraphFor | expand_registry.go:231-277 | the cached graph under the joined key, else the graph built over the loaded sources; at most 64 graphs stay cached; none iff no key is loaded |
| MappingRegistry.MappingRegistry.GraphOf | expand_registry.go:117-158 | of the first four wanted sources those tried before the deadline and loaded are added, each under its own key as its own load gave it; nothing else changes but evictions of on-demand sources when 32 others are there; the graph is the recomputed one when the loaded keys have distinct joins; the caches agree with recomputation in every state |
| MappingRegistry.MappingRegistry.Refresh | expand_registry.go:400-419 | the exact new entries: every default and every loaded key holds what its own load gave, or its last good data when that failed, with its old time of use; when all loads fail the cached graphs stay too |
| MappingRegistry.DistinctIsRight | expand_registry.go:250-253 | over keys of which no two sets have the same joined key every consistent cache answers with the recomputed graph, whatever the sources are |
| CacheCollision.CacheIsRightIff | expand_registry.go:250-253 | for a set of keys of concordances and authors that can load: whatever sources relays gave for them, every consistent cache answers every lookup with the recomputed graph, iff no two sets of the keys have the same joined key |
| MappingRegistry.CommaFreeCacheIsRight | expand_registry.go:250-253 | under loaded keys without commas keys name graphs |
| MappingRegistry.CommaFreeKeysAreDistinct | expand_registry.go:250-250 | key lists without commas never share a joined key |
| CacheRelay.Loads | expand_registry.go:290-336 | a concordance that a relay has with one valid member loads, as exactly that source |
| CacheRelay.AuthorLoads | expand_registry.go:338-365 | so does an author of whom it has one valid mapping |
| CacheCollision.CommaKeysCollide | expand_registry.go:250-253 | three concordances of one owner that all load, one with a comma in its d: the first two together have the cache key of the third, and another graph |
| CacheCollision.SecondQueryGetsFirstGraph | expand_registry.go:231-277 | a registry that has loaded the three answers a query trusting the third with the graph of an earlier query trusting the first two, which is not the third's own |
| Paging.PageRelay | expand_registry.go:474-513 | terminates against any newest-first relay; on success byID holds every matching event and no created_at is shared by 300 events; the shared-created_at error names one that is |
| Paging.CrowdFits | expand_registry.go:505-511 | a page that ends below a time with 300 events would have held them all |
| Paging.Fetch | expand_registry.go:460-472 | on success the result lists every event of every relay once, in any order; mirrored relays do not stop it |
| Nostr.CoordRoundTrip | tombstone.go:42-52 | a coordinate string reads back as its coordinate, colons in d included |
| Nostr.CoordStringInjective | tombstone.go:24-27 | different coordinates never share a tombstone key |
| Gate.ComputeSameAuthorCoords | purge.go:115-148 | the loop computes the reference list of targets |
| Gate.TargetsAreNamed | purge.go:115-148 | a coordinate is a target iff it is the author's own and some a tag parses to it |
| Gate.ManagementStore.MarkCoordDeleted | tombstone.go:54-66 | the bucket update is the monotonic mark of the gate |
| Gate.ManagementStore.BlockReason | tombstone.go:81-119 | the transaction returns the gate's reason, in the order pubkey, event, id, coordinate |
| Gate.DeletionBlocks | tombstone.go:54-119 | after applying a request exactly the events blocked before, and those of its own author that it names at or before its time, are blocked |
| Gate.ForeignRequestsDoNothing | purge.go:115-118 | a request never changes whether another author's event is blocked |
| Gate.GateIsHistory | tombstone.go:81-122 | after any sequence of bans, unbans, id deletions and requests an event is blocked iff its pubkey or id is currently banned, its id was deleted, or a request of its author names its coordinate at or after its time |
| Gate.TagNamesEvent | purge.go:115-148 | a request whose a tag is the coordinate string of an event names that event |
| Gate.GateSeq | purge.go:226-241 | the consumer gets the unblocked results in order, cut where it stops |
| Gate.NothingBlockedIsServed | main.go:1113-1115 | a query that reads the gate after the history serves no event the history blocks |
| Purge.EventPurger.Purge | purge.go:58-76 | the order of removals with their failures: index delete errors are returned, Bolt delete errors are not, the queued delete always follows |
| Purge.EventPurger.DeleteEverywhere | content_registry.go:192-208 | every collection is tried, also after one failed; a document stays iff its own collection fails, and an error is returned iff any one fails |
| Purge.EventPurger.Ban | purge.go:96-105 | the ban is recorded before anything is removed; when it cannot be recorded nothing is removed |
| Purge.EventPurger.AuthorDelete | purge.go:78-94 | the id is marked deleted before the purge; a failed mark does not stop it; for a share the restamp follows the purge, failed or not |
| Purge.EventPurger.ApplyCoordDeletions | purge.go:150-224 | tombstones and purges of a prefix of the coordinates, all of them unless the context ended; the ids tried are exactly those found when the lookups stay within their limits; no errors iff no tombstone and no index delete failed |
| Purge.SelectedMeans | purge.go:190-211 | the lookups select exactly the versions of the coordinate up to the request's time that the d filter can find |
| Purge.ExactCoordinatePurge | purge.go:150-158 | whatever fails, within the lookup limits: a row is gone iff its author asked for it by coordinate at or after its time, the lookup finds it and its own Bolt delete did not fail; every other row is unchanged |
| Purge.ExactIndexPurge | purge.go:213-221 | a document of the index is gone iff the same holds and its own index delete did not fail; with no error counted, iff the same holds |
| Purge.NamedVersionsThatStay | purge.go:195-197 | a version the request names survives in Bolt iff it is addressable without a d tag or its own Bolt delete failed; one that passed validation iff its Bolt delete failed; it is blocked in any case |
| Purge.AnUntaggedVersion | purge.go:195-197 | such a version without a d tag, which validation would refuse, and the request that names it |
| Purge.UncountedBoltFailure | purge.go:60-76 | a request whose one failure is the Bolt delete of a row it names: no error is counted, that row stays, and no other row the request names and finds does |
| Backfill.BackfillCoordTombstones | coord_tombstone_backfill.go:82-158 | the marker is set only after every stored request has all its same-author coordinates tombstoned at or after its time; any other outcome has at most a partial effect; with the marker set the effect is the full one, if no Bolt delete failed, which is the one failure a run does not count |
| Backfill.TombstonedBesideTraffic | coord_tombstone_backfill.go:66-74 | whatever bans, lifts and deletions come between and after the tombstones of a run: once it has written those of all its requests, every coordinate they name stays tombstoned up to their time |
| Backfill.RequestsStay | coord_tombstone_backfill.go:76-80 | no run removes a deletion request |
| Backfill.FullAfterPartial | coord_tombstone_backfill.go:76-80 | a full run after a partial one is a full run from the first state |
| Backfill.FullIsUnique | coord_tombstone_backfill.go:76-80 | full runs from one state agree on tombstones, rows and documents |
| Backfill.RestartsConverge | coord_tombstone_backfill.go:72-81 | any number of aborted runs and then a full one end like one full run |
| BoltRace.StepKeeps | bolt_buffer.go:45-64 | every single read and write of writers, purges and the operator keeps: a stored row that is banned, deleted or tombstoned has somebody on the way to remove it |
| BoltRace.NoResurrection | bolt_buffer.go:45-64 | in every interleaving an event nobody is still about to re-check or delete is not in Bolt if its id is banned or deleted, or its coordinate deleted up to its time |
| BoltRace.NothingDueWhenFinished | purge.go:11-18 | once all writes and purges have finished no banned, deleted or (findable) tombstoned row is in Bolt, whatever was banned and lifted meanwhile |
| BoltBuffer.Process | bolt_buffer.go:203-245 | the retry loop with its checks before each attempt and after the write, others acting in between, is a run of the machine and ends |
| BoltBuffer.SelfHealIfBanned | bolt_buffer.go:247-263 | re-check, then delete when blocked: machine steps, to the end |
| BoltBuffer.PurgeId | purge.go:82-105 | record, then delete: machine steps, to the end |
| BoltBuffer.PurgeCoord | purge.go:184-221 | tombstone, look up, then mark and delete each target: machine steps, to the end |
| BoltShutdown.OnlyRacersLose | bolt_buffer.go:156-184 | after a shutdown within the deadline every event answered OK has been processed, unless its call had read the flag before Close stored it and sent after; a refused call queued nothing |
| TsLog.StepKeepsOrder | buffer.go:184-340 | every step of any goroutine keeps the order of calls, the batch bound and pendingDocIDs |
| TsLog.LogDiscipline | buffer.go:187-280 | in every run: Upsert takes events in queue order, each at most once; none after a delete or a content patch queued later, nor after a community patch of its document queued later; between tasks the batch is shorter than batchSize and pendingDocIDs is its document ids |
| TsShutdown.PatchAfterUpsert | buffer.go:261-273 | in every run, deadline or not: a content patch comes after an Upsert of its event, if no ban of that event or of its key was lifted |
| TsShutdown.WorkHandles | buffer.go:241-280 | every act of the worker keeps: each task taken is done, in hand, under way, or dropped |
| TsShutdown.WorkDropsBlocked | buffer.go:215-226 | what the filter or the second check drops was blocked, and still is unless a ban of that event or of its key was lifted |
| TsShutdown.ShutdownLosesNothing | buffer.go:162-182 | when the worker has left within the deadline everything sent before Close stored the flag is written, patched or deleted, or its event was blocked; whatever was sent later is one send each of clients that had read the flag before |
| TsShutdown.DeadlineLosesOne | buffer.go:300-316 | when the worker gave up after the deadline every task it took but at most the last one is done, dropped, or a projection still in the batch |
| TsLimits.PatchOvertakesIff | buffer.go:188-207 | of the buffer taken alone: a run in which a community patch overtakes an earlier queued event of the same document exists iff the event's d value is empty |
| TsLimits.OnlyEmptyD | buffer.go:202-207 | with any other d value, or none, no run has it |
| TsLimits.AcceptedIsNeverOvertaken | validate.go:6-9 | no run has it for an event that passed validation |
| TsLimits.LiftedPatchHasNoUpsert | buffer.go:266-273 | a run that patches an event without its Upsert, when its ban is lifted between the filter and the second check |
| TsLimits.PatchWithoutUpsertIff | buffer.go:128-136 | for any set of lifts: a run that lifts only bans of the set and patches an event without an earlier Upsert of the same task exists iff a ban of the event or of its key is in the set and nothing else blocks the event from the start |
| TsPurge.StaysGone | purge.go:11-18 | a banned or deleted event that is neither in the index nor past the check stays so in every continuation until its ban is lifted |
| TsPurge.DeleteClears | buffer.go:243-247 | when the queued delete is done nothing of the event is in the index or on its way there |
| TsPurge.IndexNoResurrection | buffer.go:150-160 | from the worker's delete for a purge on, in every run, no flush brings the event back, even one checked before the ban |
| TsPurge.IndexCleanWhenDone | purge.go:60-76 | when all purges have returned and the queue is empty the index holds no banned or deleted event, except where the queued delete failed or was refused at shutdown |
| TsBuffer.TSWriteBuffer.FilterBatch | buffer.go:216-226 | the in-place filter over one array leaves in its prefix exactly the survivors the machine keeps |
| TsBuffer.TSWriteBuffer.FlushBatch | buffer.go:215-236 | filter, Upsert, clear: a run of the machine that ends with an empty batch |
| TsBuffer.TSWriteBuffer.Upsert | buffer.go:416-431 | no bulk call without a document; else one to six, each but the last fruitless (nothing indexed, something failed), and fewer than six only when the last was not |
| TsBuffer.TSWriteBuffer.Process | buffer.go:241-280 | every task kind, as a run of the machine; append never outgrows the array |
| TsBuffer.TSWriteBuffer.Drain | buffer.go:300-316 | ends although the channel is never closed; with everything sent before Close done, unless the deadline was over at some look |
| TsBuffer.LateSenders | buffer.go:165-177 | after Close at most as many sends follow as clients were past the flag |
| TsBuffer.TSWriteBuffer.Run | buffer.go:318-339 | the loop over ready tasks and ticks until done is seen, then the drain |
| Embedding.PrepareBatch | buffer.go:450-513 | exactly ceil(n/32) calls for n non-empty texts, the texts sent once each and in order; each document ends with the vector of its own place in its own call, or none when that call failed or fell short; unconverted events are counted |
| Embedding.OwnVector | buffer.go:483-510 | any vector on a document is one the service returned for that document's own text |
| Projection.DocIdsDiffer | structured.go:50-61 | two addresses share a document id iff they are one address, or differ in kind alone and neither kind is in a shared collection |
| Projection.KeysDiffer | reindex.go:266-286 | the content key and the projection key of an event differ iff its d value is empty |
| Reindex.WalkAmb | reindex.go:148-197 | for every walk order, with the gate changing and upserts failing meanwhile: the batches of one hundred leave the documents of the versions AddressDedup kept and that landed, every admitted event is noted, and total = indexed + superseded iff no error was counted |
| Reindex.ReindexStructuredEvents | reindex.go:306-331 | the structured pass leaves the documents of the versions AddressDedup kept and whose reprojection did not fail, and total = indexed + superseded + errors |
| Reindex.BestIsNewest | reindex.go:140-146 | the version kept for a key is its newest, the lowest id on equal times, whatever the order |
| Reindex.WalkKeepsNewest | reindex.go:140-176 | unless the upsert of its newest admitted version failed a document is there and has the metadata of a version iff that is the newest; then it has an admitted version that landed, or is not there |
| Reindex.OrderContentReplay | reindex.go:392-419 | in place, on an array of distinct rows: the same rows, in ascending time, then descending id |
| Reindex.ReplayContent | reindex.go:421-471 | patches the rows in that order; patched + errs counts them all |
| Reindex.LastIsGreatest | reindex.go:392-408 | of the rows of a document the last one patched is the greatest in that order |
| Reindex.BeforeIsOlder | reindex.go:395-405 | the row order is the order by which AddressDedup picks the winner |
| Text.HexOrderIsByteOrder | reindex.go:403-405 | comparing lowercase hex strings is comparing the bytes, for ids of any length |
| Reindex.Run | reindex.go:104-244 | the end state for every walk order and row order, whatever upserts, patches and row deletes fail: newest admitted metadata unless its upsert failed; the fulltext of the newest admitted version with a row whose patch succeeds; events without a key each on their own; the rows kept are those of walked events, of events in Bolt, and those whose delete failed; the others are counted |
| Reindex.MetadataAndFulltextAgree | reindex.go:396-401 | when the version that gives the metadata has a row, and no newer one failed to land, the document has that row's fulltext |
| Reindex.EndStateUnique | reindex.go:421-434 | the same events, rows and failures in any order end in the same index, if no newest version failed to land |

## Left out

- Bytes and Unicode: a char stands for one byte; NFC, SHA-256 and bech32 decoding are parameters (NFC idempotent and non-empty where it matters).
- HTTP, bbolt, websocket subscriptions and Typesense: abstract stores; pages are "newest events with created_at up to until", in any order among equals.
- AddressDedup, `sort.Strings`, `slices.SortFunc`: library code, by contract; sorting is insertion sort.
- Real time: tickers, backoff, deadlines and the time of use are steps or parameters.
- TsBuffer.TSWriteBuffer.Drain: the deadline is looked at before and after each task; a task or flush during which it passes runs to its end first, where the source leaves it running behind. In `TsMachine` it may pass at any time.
- TsShutdown.ShutdownLosesNothing: says nothing once the drain deadline has passed; `TsShutdown.DeadlineLosesOne` is what holds then.
- TsShutdown.PatchAfterUpsert: needs that no ban of the event or of its key was lifted; `TsLimits.PatchWithoutUpsertIff` says it cannot do without.
- TsBuffer.TSWriteBuffer.Run: the first rounds of the loop, as many as the given list has, since the live loop has no end.
- TsPurge.IndexNoResurrection: about the buffer's collection with no reindex running, which is a second writer; and about ids: after a deletion by coordinate only "never served" holds for a projection already past its check.
- BoltRace.NoResurrection: the tombstone half needs that no lookup met more than 1000 rows and that the d filter can find the event; deletes in Bolt succeed, recording succeeds.
- BoltBuffer.Process: one write at a time; the queue and Close of the Bolt buffer are in `BoltShutdown`.
- Purge.EventPurger.ApplyCoordDeletions: the exact set of removed versions needs at most 1000 matching rows and 250 matching documents per coordinate, the limits of the lookups.
- Purge.EventPurger.AuthorDelete: what the restamp does with the share it is given is not modelled.
- Backfill.BackfillCoordTombstones: the run has the gate and the stores to itself, where the source runs it beside live traffic (coord_tombstone_backfill.go:66-74); `Backfill.TombstonedBesideTraffic` is what live traffic cannot undo, requests stored or removed while a run is under way are not modelled.
- Paging.PageRelay: created_at is positive, as 0 means "no cursor" in the loop; a mirrored relay is any relay with the same events.
- MappingRegistry.MappingRegistry.GraphOf: each method is atomic, as under the mutex; two queries interleave between its calls only.
- MappingRegistry.MappingRegistry.Evict: ties between equal times of use fall either way, as with a Go map; the empty string as "none found yet" is not a key.
- Gate.ManagementStore.MarkCoordDeleted: the stored big-endian uint64 is the number itself; created_at below zero is not considered.
- Embedding.PrepareBatch: NostrToAMB and BuildEmbedText are a parameter that gives a text or an error.
- Reindex.Run: the structured pass is `Reindex.ReindexStructuredEvents`; publication content is not replayed.
- Reindex.WalkAmb: how many errors a failed bulk upsert counts is left open, only that it counts some.
- CacheCollision.CacheIsRightIff: normalisation leaves ASCII text alone, and SHA-256 tells two short texts apart; it is any function otherwise. A concordance with an empty d is not loadable.
- ExpandMeaning.ExpansionNeverNarrows: a document's free text is an uninterpreted predicate on the free tokens.
- ExpandQuery.ExpandConceptFilters: the registry answers with a graph or none; log lines and the rate-limited warning are not modelled.
- Payloads of content and community patches: in `TsMachine` a document is the event it stands for, which patches do not change; only their order is modelled.
- The channel's capacity: a send that blocks on a full channel is a send taken later.
- Buffers built without a skip function, the startup hydration wrapper gatedRawStore, NIP-86 dispatch, schemas and projections of the single collections, query budgets, allow lists, profile and community registries: field copying or single conditions.
