# Verified model of the elisting listing service

`ListingService` answers geo searches over soft-deletable listings from a cache whose entries expire,
and clears that cache on every write through a hand-kept index of keys. This project models the service,
the `CacheManager` below it, the soft-delete base model, the request checks in front of it and the demo
seeder, and proves what holds over whole runs. `dafny verify dfyconfig.toml` checks everything.

| file | models |
|---|---|
| `Text.dfy`, `JsonText.dfy`, `CacheKeys.dfy` | decimal text, `json.dumps`, `make_key`, namespaces and index keys |
| `Cache.dfy` | `CacheManager`: a store with expiries that also holds its own key index |
| `Listings.dfy`, `SoftDelete.dfy` | rows, users, `soft_delete`/`restore`/`delete` and the bulk forms |
| `Query.dfy` | the filter chain, the orderings, correct answers, cache entries and rebuilding |
| `SearchKeys.dfy` | the cache key of a filter record |
| `Requests.dfy` | the cross-field checks of the serializers |
| `Service.dfy`, `ServiceRuns.dfy`, `Windows.dfy` | the service, its serial runs, and how long the cache answers in them |
| `Staleness.dfy`, `Interleaving.dfy` | searches and writes whose single accesses interleave, with failures |
| `Discipline.dfy`, `Reaching.dfy`, `Faults.dfy` | which interleavings keep every hit exact |
| `Serial.dfy` | serial runs as interleavings that nothing disturbs |
| `Seeder.dfy`, `SeederRuns.dfy` | the seeding command and repeated runs of it |

## Main results

* A serial run of creates, updates, deletes, searches and pauses that starts from an empty cache is, call by
  call, a run of the service without a cache (`ServiceRuns.CachedRunRefinesUncached`). Hits, misses and errors
  are covered; ordering by distance leaves no freedom at all (`ServiceRuns.DistanceSearchesAgree`).
* In a serial run the work of a query is done at most once per time to live, unless a write succeeds in between
  (`Windows.WorkIsDoneOncePerWindow`); until then all its searches return one list (`Windows.CachedValueAnswers`).
* An uncached search answers with exactly the live rows that meet the request, around the requested point and in the
  requested order, all read off the request itself (`Query.AnswerMeaning`, `Query.GeoHitsAreNear`, `Query.RequestedOrder`).
* Only owners, superusers, staff and users of the role administrator can change a listing
  (`ServiceRuns.UpdateErrors`, `ServiceRuns.DeleteErrors`, `ServiceRuns.OthersCannotTouch`).
* In every reachable cache state each live entry is listed, once, in a live index that outlives it
  (`Cache.ReachableIsWellIndexed`), so a clear removes a whole namespace and nothing else (`Cache.ClearIsExact`).
* Two filter records share a key exactly when they agree up to dropped values or SHA-256 collides
  (`SearchKeys.KeySoundness`).
* Under every interleaving, and with every failure, a hit uses values stored less than sixty seconds before its lookup,
  from the snapshot that was current when the storing search asked (`Interleaving.HitsAreAtMostAMinuteOld`).
* For every set of faults: all runs that commit no other fault have exact hits throughout if and only if the set is
  empty (`Faults.HitsAreExactIff`). The eight faults are listed below.
  Every serial run is such a run without a fault (`Serial.SerialRunsAreFaultless`).
* Seeding draws seven numbers for each listing from one stream (`SeederRuns.StreamPosition`, `SeederRuns.DrawsInOrder`),
  succeeds under an exact condition (`SeederRuns.HandledIff`), and is idempotent and confluent
  (`SeederRuns.SeedingIsConfluent`).

## What the code does not do

These promises or natural expectations fail; the code is modelled as it is.

* The service promises that "cached results cannot outlive a write"
  (apps/listings/services/listing_service.py:182; also lines 360-362 of the repository's own README.md). They can, even
  with no failure and no time passing, in two ways. A write clears the namespace before its transaction commits, so a
  search that overlaps it can store an old answer afterwards: `Faults.OverlapCanBeWrong` gives a run, and
  `Faults.SearchMayMissAWrite` one for every table, query and row. And the index is read and written back in two
  accesses, so that of two searches registering at once one is lost, and a later write that nothing disturbs does not
  clear its entry: `Faults.IndexUpdateIsLost`. A single failing or missing access has the same effect:
  `Faults.RowsChangeDirectly` (rows changed behind the service), `Faults.IndexIsEvicted`, `Faults.IndexCannotBeRead`,
  `Faults.IndexCannotBeWritten`, `Faults.ClearCannotReadIndex` and `Faults.EntryCannotBeDeleted`.
  `Faults.HitsAreExactIff` proves that in one store shared by all processes these eight are all the causes, processes
  that stop at any point included, and that none of them can be spared. `Faults.SaleIsAccepted` shows that the write
  in these runs is one the service accepts.
* "The filtering and spatial work happens at most once per TTL window" (apps/listings/services/listing_service.py:180-181)
  holds for serial runs (above), but two searches that overlap may both miss and both do it: `Serial.BothMissesAsk`.
* A value may be cached for longer than the index lives (core/cache.py:86, 152); then a clear misses it. Whatever was
  cached before and however long one waits, a clear reaches the entry just written if and only if it does not outlive the
  index written with it (`Cache.ClearReachesEntryIffShortLived`, `Cache.SetKeepsIndex`).
* `make_key` is documented never to hold user input verbatim (core/cache.py:37-38), but a single short part is used as
  it is. The namespace is recovered unless that part holds a colon (`CacheKeys.NamespaceRecovery`), and the key is an
  index key exactly when that part is `keys` or ends in `:keys` (`CacheKeys.IndexKeyClash`); `CacheKeys.ColonPart` and
  `CacheKeys.ReservedPart` give such parts. No search that raises no error is affected (`SearchKeys.StoredKeyShape`).
* `soft_delete` tests the instance and not the row, so a stale instance overwrites the first deletion stamp
  (`SoftDelete.StaleInstanceOverwrites`, `SoftDelete.FirstStampKeptIff`).
* `update` saves every column of the row it read (apps/listings/services/listing_service.py:96, 114). An update that read
  before other transactions deleted, reassigned or edited the row leaves it as if they had not happened
  (`SoftDelete.LateSaveTakesBack`). `SoftDelete.DeletionLastsIff`, `SoftDelete.OwnerLastsIff` and
  `SoftDelete.ViewLastsIff` say exactly when a deletion, an owner and any other value last.
* The seeder finds live users only, while user names and emails are unique over all users. A soft-deleted `agent1`
  makes the whole command fail (`SeederRuns.HiddenAgentStopsSeeding`), and a soft-deleted administrator named `admin`
  does so even with `--flush` (`SeederRuns.HiddenAdminStopsFlushedSeeding`); `SeederRuns.HandledIff` is the condition.

## Assumptions

* SHA-256 digests are 64 hexadecimal digits; the cut digests of the payloads searched for in a run do not collide
  (`ServiceRuns.NoCollision`, asked of the filters of that run only). The text of a float determines it and holds no colon.
  `SearchKeys.EnvExists` shows that the assumptions on single values can be met.
* `Service.ListingService.Search` is given the reply of the database to the uncached query; it may be any correct
  answer (`Query.AnswerExists` shows that there is one, `Query.AnswerUniqueIff` when there is only one).
* All processes share one store. Without a Redis URL the settings fall back to a cache local to each process
  (config/settings/base.py:165-171), where a clear in one process does not reach the others; that is not modelled.
* Identifiers drawn for new rows are unused. Times inside a call are parameters.

## Model

| member | source | states |
|---|---|---|
| Text.DigitsDenote | apps/listings/services/listing_service.py:263-267 | `str` of a whole number denotes it in decimal, without a leading zero |
| Text.HundredthsDenote | apps/listings/services/listing_service.py:263-267 | a decimal with two places is its whole part, a point and two digits |
| JsonText.ShortEscapes | core/cache.py:57-61 | printable ASCII stands for itself but for quote and backslash; the two-character escapes |
| JsonText.UnitEscape | core/cache.py:57-61 | other characters of the basic plane are one UTF-16 unit in lower-case hexadecimal |
| JsonText.PairEscape | core/cache.py:57-61 | characters beyond the basic plane are the two units of their surrogate pair |
| JsonText.DumpsMeaning | core/cache.py:57-61 | a list is its quoted strings between brackets, with a comma and a blank between two of them |
| JsonText.JsonInjective | core/cache.py:57-61 | over Unicode characters, the hashed text is the same exactly for the same list of parts |
| CacheKeys.KeysStayShort | core/cache.py:53-62 | a single part of at most 64 characters without blanks is used as it is, all else gives 32 digits of the hash; keys stay short |
| CacheKeys.NamespaceOfBareKey | core/cache.py:147-148 | a key without a colon is its own namespace |
| CacheKeys.NamespaceRecovery | core/cache.py:147 | `rsplit` gives back the namespace passed to `make_key` if and only if no part used verbatim holds a colon |
| CacheKeys.IndexKeyClash | core/cache.py:131-148 | a key is the index key of some namespace if and only if a part used verbatim is `keys` or ends in `:keys` |
| CacheKeys.ColonPart | core/cache.py:53-56 | the part `x:y` leaves the namespace, the part `x:keys` makes the index key of another one |
| CacheKeys.ReservedPart | core/cache.py:53-56 | the part `keys` makes a data key equal to the index key of its own namespace |
| CacheKeys.KeyEquality | core/cache.py:53-62 | keys of parts holding `=` agree iff the parts agree or two hashed payloads collide; verbatim never meets hashed |
| Cache.CacheManager.Get | core/cache.py:64-74 | the value of a live slot, nothing for an absent or expired one, which is dropped |
| Cache.CacheManager.Set | core/cache.py:76-86 | stores the value for its time to live, five minutes if none is given, and then registers the key |
| Cache.CacheManager.GetOrSet | core/cache.py:88-106 | a hit answers the cached value and stores nothing; a miss, or a cached `None`, stores what the factory made, for five minutes unless told otherwise |
| Cache.CacheManager.Delete | core/cache.py:108-115 | removes one slot and tells whether it was there |
| Cache.CacheManager.ClearNamespace | core/cache.py:117-138 | removes the registered keys and the index; the count is the number of registered keys found in the store |
| Cache.CacheManager.RegisterKey | core/cache.py:140-152 | appends the key to the index read at one instant, unless listed, and writes it back at a later one |
| Cache.SetKeepsIndex | core/cache.py:85-86 | from a complete index, a write leaves it complete iff the entry does not outlive the hour of the index written after it |
| Cache.RegisteredKeepsOthers | core/cache.py:149-152 | a read-append-write of the index keeps every other entry listed that was listed when the index was read and is live when it is written |
| Cache.ClearIsExact | core/cache.py:131-137 | after a clear no live slot of the namespace is left and every other namespace is unchanged; every live entry was counted, and nothing but present keys of the namespace |
| Cache.ReachableIsWellIndexed | core/cache.py:76-152 | after any sequence of operations every live entry is listed, once, in a live index of its namespace that outlives it |
| Cache.ValueLivesItsTime | core/cache.py:76-86 | a value is answered exactly until its time to live is over |
| Cache.ClearReachesEntryIffShortLived | core/cache.py:117-152 | from any state, set, any wait and clear leave nothing of the entry iff it does not outlive the hour of the index written after it |
| SoftDelete.Instance.SoftDelete | core/models.py:60-73 | stamps a live instance and writes only the markers and the update time, from two clock readings, into its row; fails when the row is gone |
| SoftDelete.Instance.Restore | core/models.py:75-90 | clears the markers of a deleted instance and writes them, with `updated_by`, into its row |
| SoftDelete.Instance.Delete | core/models.py:92-113 | removes the row when hard, soft deletes otherwise, and answers the number of rows deleted |
| SoftDelete.OnlyMarkersSaved | core/models.py:60-90 | however stale the instance, only the markers and update stamps of its row are written, and no row is created |
| SoftDelete.QuerySet.Delete | core/managers.py:30-40 | stamps the selected live rows; those and only those leave the live view, and as many are counted |
| SoftDelete.QuerySet.Restore | core/managers.py:18-24 | clears the markers of the selected rows, which all leave the deleted view and are all counted |
| SoftDelete.QuerySet.HardDelete | core/managers.py:10-16 | removes exactly the selected rows that exist and counts them |
| SoftDelete.MarkersAgreeForever | core/models.py:60-90 | over every sequence of instance, bulk and full-save operations, with any number of stale instances, a deleter implies a deletion time |
| SoftDelete.FirstStampKeptIff | core/models.py:69-72 | deleting a deleted row keeps its stamp if and only if the instance knows of the deletion or would write the same stamp |
| SoftDelete.StaleInstanceOverwrites | core/models.py:69-72 | two instances loaded while the row was live: the second deletion overwrites the first actor and time |
| SoftDelete.RestoreUndoesDelete | core/models.py:60-90 | delete then restore changes only `updated_at` and, if an actor is given, `updated_by`; the row leaves and re-enters the live view |
| SoftDelete.DeletionLastsIff | apps/listings/services/listing_service.py:96-114 | a row stays deleted through a run iff no step restores or removes it or saves it from a copy read while it was live |
| SoftDelete.OwnerLastsIff | apps/listings/services/listing_service.py:96-114 | a user owns a row throughout a run iff no step removes it or saves it for another owner, supplied or read before |
| SoftDelete.ViewLastsIff | apps/listings/services/listing_service.py:96-114 | whatever is viewed of details and owner, its value lasts iff no step removes the row or saves a copy that then shows another value |
| SoftDelete.LateSaveTakesBack | apps/listings/services/listing_service.py:96-114 | an update without an owner that read its row before others deleted, reassigned or edited it leaves the row as if they had not |
| SoftDelete.BulkTouchesMarkersOnly | core/managers.py:18-40 | bulk deletes and restores touch the markers of the selected rows and no other field, update stamps included |
| SoftDelete.BulkDeleteIsLoop | core/managers.py:30-40 | the bulk delete leaves the rows of a loop of instance deletes at one clock value, up to `updated_at` |
| SoftDelete.BulkRestoreIsLoop | core/managers.py:18-24 | the bulk restore leaves the rows of a loop of instance restores without an actor, up to `updated_at` |
| Query.ChainMeansConjunction | apps/listings/services/listing_service.py:221-248 | the chain of filters selects exactly the live rows that satisfy every supplied filter |
| Query.FilterOrderIsIrrelevant | apps/listings/services/listing_service.py:221-248 | the same filters in any order, even repeated, select the same rows |
| Query.AnswerMeaning | apps/listings/services/listing_service.py:208-251 | a list is a possible answer iff it holds each live matching row once, with its distance from the point (`lng`, `lat`), in the requested order |
| Query.TermsMeanOrder | apps/listings/services/listing_service.py:34-38 | the terms mean the order read off the request: price up or down then newest, newest, or distance then id |
| Query.RequestedOrder | apps/listings/services/listing_service.py:34-38 | for each requested ordering: prices rise or fall, equal prices and plain searches come newest first, distances rise with ties by id |
| Query.RefusedIff | apps/listings/services/listing_service.py:243-397 | exactly when each of the three errors is raised, for any text given as ordering |
| Query.AnswerExists | apps/listings/services/listing_service.py:250-251 | every query that raises no error has an answer |
| Query.AnswerUniqueIff | apps/listings/services/listing_service.py:34-38 | the answer is unique if and only if no two selected rows tie on all terms |
| Query.DistanceAnswerIsUnique | apps/listings/services/listing_service.py:388-391 | ordering by distance, with its id tie-break, has one answer only |
| Query.GeoHitsAreNear | apps/listings/services/listing_service.py:243-250 | of the rows meeting the other filters exactly those within the radius, or five kilometres, of the point (`lng`, `lat`) are answered, with their distance, nearest first by default |
| Query.PlainHitsAreNewestFirst | apps/listings/services/listing_service.py:243-250 | results without a centre carry no distance and are newest first by default |
| Query.RebuildIsLiveSubsequence | apps/listings/services/listing_service.py:287-311 | against any table, rebuilding gives the entries whose rows are live, in order, with their distances and the current rows |
| Query.EntryRoundTrip | apps/listings/services/listing_service.py:270-311 | rows turned into entries and rebuilt on the same table come back unchanged, order and distances included |
| Query.LastDistanceMeaning | apps/listings/services/listing_service.py:299-311 | of entries with one identifier the last that has a distance decides |
| SearchKeys.PartsMeaning | apps/listings/services/listing_service.py:263-268 | the supplied parameters as `name=value` in alphabetical order, `None` and `False` left out; the key starts with `listings:search:` |
| SearchKeys.PartsDetermineFilters | apps/listings/services/listing_service.py:263-267 | the parts agree if and only if the records agree up to the dropped values |
| SearchKeys.KeySoundness | apps/listings/services/listing_service.py:253-268 | two records share a key iff they agree up to dropped values or the digests of two different payloads collide |
| SearchKeys.NormalisedMeaning | apps/listings/services/listing_service.py:221-268 | dropping `None` and `False` values changes neither the error nor the answers of a query |
| SearchKeys.SharedKeyAnswer | apps/listings/services/listing_service.py:195-198 | without a collision, what was stored for one record rebuilds to a correct answer for every record with the same key |
| SearchKeys.SearchKeyShape | core/cache.py:140-152 | the key of any record, validated or not, gives back the search namespace iff the record is not just a short ordering with a colon; then it is no index key |
| SearchKeys.StoredKeyShape | core/cache.py:140-152 | the key of every search that raises no error gives back the search namespace and is no index key |
| Requests.ListingSearchQuerySerializer.Validate | apps/listings/serializers.py:229-263 | the first of the three problems in order, or `has_geo_filter` added to otherwise unchanged attributes |
| Requests.ValidatedSearchFaults | apps/listings/serializers.py:229-263 | accepted parameters never miss a coordinate; their one possible error is ordering by distance without a centre |
| Requests.SearchAcceptedIff | apps/listings/serializers.py:229-263 | accepted iff coordinates come together, a radius comes with them and the price interval is not reversed; otherwise the field named is the missing or wrong one |
| Requests.ListingWriteSerializer.Validate | apps/listings/serializers.py:136-162 | pops both coordinates in any case and puts a point in their place exactly when both were given |
| Requests.ListingWriteSerializer.PerformUpdate | apps/listings/views.py:178-199 | full and partial updates: refused untouched iff one coordinate is missing, never for a missing location, and moved iff coordinates were given |
| Service.ListingService.Get | apps/listings/services/listing_service.py:141-158 | a copy of a live row; not found for a missing or deleted one |
| Service.ListingService.Create | apps/listings/services/listing_service.py:40-66 | the whole new state of table and cache, or the exception, as the specification `AfterWrite` gives it |
| Service.ListingService.Update | apps/listings/services/listing_service.py:68-116 | as for create: checks in their order, the full row written back, the search namespace cleared |
| Service.ListingService.AssignFields | apps/listings/services/listing_service.py:110-111 | the supplied fields are assigned, the others kept |
| Service.ListingService.Delete | apps/listings/services/listing_service.py:118-139 | as for create: the row soft deleted by the actor, the search namespace cleared |
| Service.ListingService.Search | apps/listings/services/listing_service.py:169-206 | a hit rebuilds from the entry; a miss raises without storing, or answers and stores the entries for sixty seconds |
| Service.ListingService.Materialise | apps/listings/services/listing_service.py:287-311 | rebuilds rows in entry order; rows with one identifier share one object, so the last distance assigned shows everywhere |
| ServiceRuns.CachedRunRefinesUncached | apps/listings/services/listing_service.py:195-206 | every serial run from an empty cache is a run of the uncached service: same writes, correct answers on the current table, same errors |
| ServiceRuns.CoherentAt | apps/listings/services/listing_service.py:313-319 | in every reachable state each live cached value holds the entries of a correct answer, on the current table, to a query asked before |
| ServiceRuns.RefusedQueriesAreNeverCached | apps/listings/services/listing_service.py:195-206 | no reachable state holds a live value under the key of a query that the uncached search refuses |
| ServiceRuns.DistanceSearchesAgree | apps/listings/services/listing_service.py:388-391 | two searches by distance on equal tables return equal lists, hit or miss |
| ServiceRuns.WriteOutcome | apps/listings/services/listing_service.py:56-139 | a write succeeds iff the actor is the owner, a superuser, staff or of the role administrator, or needs to be neither; a failed one leaves table and cached content unchanged |
| ServiceRuns.WriteClearsSearches | apps/listings/services/listing_service.py:313-319 | a successful write leaves no live search entry and every other namespace unchanged |
| ServiceRuns.UpdateErrors | apps/listings/services/listing_service.py:96-108 | exactly when each error is raised, in their order of precedence; never the assignment error |
| ServiceRuns.DeleteErrors | apps/listings/services/listing_service.py:135-139 | not found iff no live row; refused iff the actor is another agent, neither superuser nor staff nor of the role administrator |
| ServiceRuns.CreateErrors | apps/listings/services/listing_service.py:330-350 | refused iff another agent is named by an agent who is neither superuser nor staff nor of the role administrator |
| ServiceRuns.ResolveNeverRaises | apps/listings/services/listing_service.py:102-108 | after the ownership and reassignment checks the requested agent is resolved without an exception |
| ServiceRuns.UpdateFrame | apps/listings/services/listing_service.py:110-114 | a successful update changes the supplied fields, the owner if supplied, and the update stamps only |
| ServiceRuns.UpdateIsFullSave | apps/listings/services/listing_service.py:96-114 | a successful update leaves the table that the full save of a just loaded copy leaves |
| ServiceRuns.CreateFrame | apps/listings/services/listing_service.py:56-66 | the owner, stamps and fields of a created listing, with its two clock readings |
| ServiceRuns.DeleteFrame | apps/listings/services/listing_service.py:135-139 | a deleted listing keeps all but its markers and update time |
| ServiceRuns.OthersCannotTouch | apps/listings/services/listing_service.py:352-366 | in runs of non-administrators other than `u`, rows of `u` keep every field, no row is lost and no owner changes, between any two points |
| ServiceRuns.CreatedBelongsToActor | apps/listings/services/listing_service.py:330-350 | in such runs a created listing is new and belongs to its creator to the end |
| ServiceRuns.ViewsPartition | core/managers.py:46-68 | live and deleted rows are disjoint and together all rows |
| ServiceRuns.DeletionIsFinal | apps/listings/services/listing_service.py:135-158 | deleted rows stay deleted and unchanged, rows grow by the creates, live rows change by creates minus deletes |
| Windows.CachedValueAnswers | apps/listings/services/listing_service.py:195-206 | while a value is cached and no write succeeds, each search with its key returns the same list made from it and leaves the store as it is |
| Windows.WorkIsDoneOncePerWindow | apps/listings/services/listing_service.py:180-181 | of two searches with one key that both ask the database, with no successful write between, the second looks up no sooner than sixty seconds after the first stored |
| Staleness.StaleHitCorrectIff | apps/listings/services/listing_service.py:299-311 | an old answer rebuilt on a later table is correct iff no row has come to match or ceased to, distances agree, and the old order still holds |
| Staleness.DeletionsDoNotMakeStale | apps/listings/services/listing_service.py:299-307 | deletions, and updates of nothing a search reads, never make an entry stale |
| Interleaving.HitsAreAtMostAMinuteOld | apps/listings/services/listing_service.py:196-205 | under every interleaving and fault a hit uses a value stored less than sixty seconds before, on the snapshot current when its search asked, which misses nothing committed before that search began |
| Interleaving.HitIsExactAfterDeletionsOnly | apps/listings/services/listing_service.py:196-205 | with any faults, a hit is a correct current answer when only deletions were committed since the snapshots of the last minute's values |
| Discipline.FaultlessHitsAreExact | apps/listings/services/listing_service.py:178-182 | in every world reached without a fault, each hit rebuilt then is a correct answer on the current table |
| Discipline.StepKeepsSound | core/cache.py:117-152 | without a fault every act keeps each live entry fresh and either listed in a live index or about to be registered, and leaves nothing live after a clear |
| Faults.HitsAreExactIff | apps/listings/services/listing_service.py:178-182 | runs that commit only faults of a given set have exact hits throughout if and only if the set is empty |
| Faults.StaleHitIsWrong | apps/listings/services/listing_service.py:195-206 | after any run that ends with that answer cached, the next search for it is wrong on the current table |
| Faults.SaleIsAccepted | apps/listings/services/listing_service.py:96-114 | the write of the runs below is a partial update that the service accepts from the owner |
| Faults.SearchMayMissAWrite | apps/listings/services/listing_service.py:65-66 | for every table, query and row: a search begun after a committed and cleared write may be answered from before it, when another search overlapped the write |
| Faults.OverlapCanBeWrong | apps/listings/services/listing_service.py:65-66 | such a run after which a wrong answer is cached and nothing is under way |
| Faults.IndexUpdateIsLost | core/cache.py:148-152 | two searches register at once, one update is lost, and a later undisturbed write leaves its entry cached |
| Faults.RowsChangeDirectly | apps/listings/services/listing_service.py:313-319 | rows changed behind the service leave a wrong answer cached |
| Faults.IndexIsEvicted | core/cache.py:131-137 | the index is evicted, and the clear of a later write misses the entry |
| Faults.IndexCannotBeRead | core/cache.py:148-152 | a registration that cannot read the index starts a new one and forgets the other keys |
| Faults.IndexCannotBeWritten | core/cache.py:148-152 | a registration that cannot write the index leaves its entry unlisted |
| Faults.ClearCannotReadIndex | core/cache.py:131-137 | a clear that cannot read the index deletes no entry |
| Faults.EntryCannotBeDeleted | core/cache.py:131-137 | a clear that cannot delete an entry forgets it |
| Serial.SearchIsPlayed | apps/listings/services/listing_service.py:195-206 | the single accesses of an undisturbed search, in order, have its outcome and leave the state of the whole call, hit, miss or refusal |
| Serial.WriteIsPlayed | apps/listings/services/listing_service.py:313-319 | the single accesses of an undisturbed write, in order, leave the state of the whole call, for the row the service writes |
| Serial.SerialRunsAreFaultless | apps/listings/services/listing_service.py:195-206 | every state of a serial run from an empty cache is reached by single accesses without a fault |
| Serial.BothMissesAsk | apps/listings/services/listing_service.py:195-201 | for every table and query: two overlapping searches for it both miss and both ask the database, without a fault |
| Seeder.Command.DrawDetails | apps/listings/management/commands/seed_demo.py:192-203 | the draws of one listing, a function of the generator state and the index |
| Seeder.Command.CreateListing | apps/listings/management/commands/seed_demo.py:181-219 | advances the stream in any case; appends the row exactly when no row has its title |
| Seeder.Command.FindOrCreate | apps/listings/management/commands/seed_demo.py:135-154 | finds a live user by name; otherwise creates one, or fails when any user, deleted or not, holds the name or the email |
| Seeder.Command.CreateAgents | apps/listings/management/commands/seed_demo.py:156-179 | finds or creates the demo agents in order; fails as soon as a missing one's name or email is taken |
| Seeder.Command.Handle | apps/listings/management/commands/seed_demo.py:98-133 | the site that the specification `Handled` gives and the number of rows added, or the error with the site untouched |
| SeederRuns.HandledIff | apps/listings/management/commands/seed_demo.py:98-179 | the command succeeds iff the count is positive and, after any flush, every demo user is live or has name and email free among all users |
| SeederRuns.HandledError | apps/listings/management/commands/seed_demo.py:110-179 | otherwise the error names the count, or the first demo user that cannot be had |
| SeederRuns.UsersFromNothing | apps/listings/management/commands/seed_demo.py:33-179 | on an empty site the users are one administrator and three agents under these names and emails; a flush spares the administrator alone |
| SeederRuns.HiddenAgentStopsSeeding | apps/accounts/models.py:11-31 | a soft-deleted `agent1` makes the command fail; with `--flush` it succeeds |
| SeederRuns.HiddenAdminStopsFlushedSeeding | apps/accounts/models.py:11-31 | a soft-deleted administrator named `admin` makes even the flushed command fail |
| SeederRuns.DrawnIsConsistent | apps/listings/management/commands/seed_demo.py:192-203 | one to five bedrooms, a whole price in the range of the kind, and one neighbourhood of Lagos behind title, location name and coordinates |
| SeederRuns.StreamPosition | apps/listings/management/commands/seed_demo.py:125-130 | each listing draws seven numbers: before listing i + 1 the stream, started at 42, has advanced by 7 i |
| SeederRuns.DrawsInOrder | apps/listings/management/commands/seed_demo.py:192-203 | on a tape of numbers, listing i is made of the seven at 42 + 7 (i - 1): kind, neighbourhood, bedrooms, price, prefix, suffix, street, each modulo the number of choices |
| SeederRuns.TitlesDiffer | apps/listings/management/commands/seed_demo.py:197-200 | listings with different indices have different titles, whatever is drawn |
| SeederRuns.SeededAppends | apps/listings/management/commands/seed_demo.py:205-219 | a run appends, in order, exactly the rows whose titles were missing before it |
| SeederRuns.SeedingIsConfluent | apps/listings/management/commands/seed_demo.py:127-130 | n then m leaves what max(n, m) leaves, or fails as it fails, users and owners included, from any site and for any generator |
| SeederRuns.RoundRobinShares | apps/listings/management/commands/seed_demo.py:127-130 | from an empty table n listings are created and agent j of k owns (n + k - 1 - j) div k of them |
| SeederRuns.SharesAreFair | apps/listings/management/commands/seed_demo.py:127-130 | no two agents differ by more than one listing, earlier agents owning the more |
| SeederRuns.FlushedShares | apps/listings/management/commands/seed_demo.py:113-130 | whenever the command with `--flush` succeeds it leaves n listings, a third to each of its three agents |

## Left out

- JsonText.JsonInjective: lone surrogates, which a Python string may hold, are no characters here; on them the texts of different lists can agree.
- Service.ListingService.Search: takes the database's reply as a parameter; PostgreSQL and PostGIS are not part of this model.
- Cache.CacheManager.Set: under a key that is no index key; what Python does with a value cached under an index key is not modelled.
- Cache.CacheManager.ClearNamespace: the count is that of the local-memory backend, where an expired slot stays until it is read.
- CacheKeys.MakeKey: parts are strings already; a single part that is no scalar, which the code always hashes, is not modelled.
- SearchKeys.SearchKey: decimals are written with two places, as the serializer quantises them, and coordinates are fixed-point numbers.
- Seeder.Command.Handle: a failed run gives drawn identifiers back, where PostgreSQL leaves gaps.
- Field-level validation (lengths, digits, ranges of coordinates) appears only as far as the cross-field results need it.
- `get_distance_km` is one fixed function of the distance, which is equal on hits and misses.
- Users and roles do not change during a run; authentication, passwords and the user service are not part of this model.
- Failing backends, evictions and processes that stop halfway appear in the interleaved model only; so do admin actions, restores and seeding as writers.
- Views, routing, pagination, response envelopes and the exception handler only map results.
- The seeder's printed output, and the deletion of dependent rows by `--flush` beyond listings and users.
