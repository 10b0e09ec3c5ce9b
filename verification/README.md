# Pulpitum: a verified model of the cutover protocol and the reads above it

Pulpitum keeps recent records in a transactional hot store and moves closed time buckets to an object
store through a fenced, leased cutover, while readers keep paging through one logical table. This
project models that cutover, the programs that drive it, the two stores it runs on, the read path that
must not notice it, and the mechanisms underneath: calendar buckets, the connection pool, the
transaction retry loop, archive objects, caches, the migration planner and predicate routing.
`dafny verify dfyconfig.toml` verifies all of it.

## How the parts fit

* `Records`, `Text`, `Sums`, `Common`: records in clustering order, the stable sort and its exact
  characterisation, number and path rendering, sums over sequences.
* `Staircase`, `Calendar`, `Tiling`, `Tables`: proleptic Gregorian dates (the leap-year rule of
  Appendix C of RFC 3339), year, month and day buckets, and the forward and backward walks over any
  family of buckets that tiles time.
* `Cutover`, `Fencing`, `Workers`: the protocol as a state machine with a log of committed appends.
  Leases and retry times only decide when a claim may happen, so the protocol leaves them out and allows
  a claim at any time. Any session ever issued may be used again later, which covers delays, crashes,
  lost replies, stale retries and an operation that still runs after a failed renewal. `Workers` runs the
  recovery and direct cutover programs step by step over it.
* `BucketStore`, `Discovery`, `MemoryArchive`: the in-memory stores as classes, each call tied to a
  function on one entry that is shown to be a protocol step.
* `CockroachRows`, `RouteCache`: each serializable transaction as one step over a metadata row and its
  records, and a fleet of processes with route caches over those rows.
* `Deployment`: runs of the stores themselves beside the archive, shown to be runs of the protocol, so that
  its theorems hold of either store.
* `Merge`, `TableRead`, `Queries`, `Paging`, `Ties`: bounded bucket reads joined in any completion order,
  one page of a whole partition, whole paging sessions over a run of the protocol, and what happens when
  rows share a key.
* `EndToEnd`: paging over a CockroachDB deployment and its object store, with every append routed by its table.
* `Pool`, `PoolInvariant`, `PoolTheorems`, `Transactions`, `Submission`: every atomic operation of the pool as
  one step of an interleaving, the retry loop against any script of replies, timeouts and cancellation, and
  what the loop does to the rows of a deployment.
* `ArchiveKeys`, `ArchiveObjects`, `ArchiveCache`: content-addressed objects in a create-if-absent store
  and the least-recently-used cache in front of it.
* `Recovery`, `Migrations`, `Predicates`, `Scans`: the bounded recovery cycle, the migration planner, the
  extraction of one partition and one time range from SQL filters, and the scan that reads them.

The clock, owner tokens, codecs, the digest, UTF-8, replies of the database and of the object store, and
the order in which concurrent reads complete enter as parameters.

## What turned out to hold only under a condition

* `Predicates.ExactIffUnflipped`: pushed-down filters are declared exact, but a timestamp comparison
  with the column on the right turns a strict bound into an inclusive one or the reverse
  (src/integrations/datafusion.rs:260-261). The scan is exact if and only if there is no such comparison.
* `Ties.ShowsAllIffUnique`: paging shows every selected row for every page size if and only if the selected
  rows have unique keys. The SQL primary key guarantees that (`EndToEnd.DatabaseKeysUnique`); the in-memory
  store accepts equal keys (src/ports/storage.rs:323) and then skips rows (`Ties.SecondOfTieIsNeverShown`).
* `MemoryArchive.FencedIffNamesDistinct`: in-memory archive keys leave out the bounds of a bucket
  (`MemoryArchive.HandMadeIdentitiesCollide`) and join names with slashes (`MemoryArchive.SlashesCollide`,
  src/ports/storage.rs:715-732). Over bucket keys without a slash they meet the key condition of the protocol
  if and only if no two buckets agree in table, partition and key; routed buckets never do.
* `Migrations.GapsTrueIffNoStrangers`: the planner can report an applied migration as missing
  (`Migrations.AppliedVersionReportedMissing`, src/adapters/cockroach_schema.rs:188-197). A reported gap names
  a version below an applied one and itself not applied, in whatever order the history is read, if and only if
  the history holds no unknown version inside the shipped range.
* The two stores differ in `begin_archive`: CockroachDB lets it take over an archiving bucket whose lease
  expired, the in-memory store only starts from a hot bucket and leaves the fence closed when its lease
  deadline cannot be represented. Both are steps of the same protocol.

## Model

| member | source | states |
|---|---|---|
| Cutover.NothingLost | src/ports/storage.rs:313-628 | In every state of every run, a bucket's logical content is exactly its committed appends in clustering order, and its hot rows are all of them or, after cleanup of a published bucket, none |
| Cutover.PublishedIsWhole | src/ports/storage.rs:564-591 | When a session that still holds the fence publishes a key from its own upload, the object is the whole bucket |
| Cutover.EventKeepsInv | src/ports/storage.rs:313-628 | Every append, claim, snapshot, upload, publish, reopen and delete keeps the protocol invariant |
| Deployment.DeedRefines | src/ports/storage.rs:376-628 | Every in-memory call, row transaction and upload by callers that invent nothing is a protocol step, and leaves the store holding what the protocol says |
| Deployment.StoresLoseNothing | src/adapters/cockroach_durable.rs:471-1520 | Over every run of calls or transactions under any clocks and leases, what a reader finds in either store or behind its published key is exactly the accepted appends in clustering order |
| Deployment.CanonicalRowsDistinct | src/adapters/cockroach_schema.rs:30-30 | Routed buckets never share a metadata row |
| Workers.ClaimStepRefines | src/application/durable_archive_recovery.rs:220-253 | A claim by a worker program, whether its reply arrives or not, is a protocol step and leaves the worker knowing only what it was told |
| Workers.OwnerStepRefines | src/application/durable_archive_recovery.rs:255-422 | Every later step of a worker, including failures, lost replies and stops, is a disciplined protocol step |
| Workers.ClusterRunRefines | src/application/durable_archive.rs:65-140 | A run of any number of recovery and direct cutover programs beside writers is a run of the protocol |
| Workers.ProgramsLoseNothing | src/application/durable_archive_recovery.rs:177-422 | Whatever the worker programs do and whenever they fail, readers see exactly the committed appends |
| Fencing.ClaimsAdvance | src/ports/storage.rs:376-442 | A claim raises the generation by one and nothing else changes it |
| Fencing.OneActiveSession | src/ports/storage.rs:642-653 | At most one session per bucket is accepted at a time |
| Fencing.SupersededForever | src/ports/storage.rs:642-653 | A session overtaken by a newer generation is never accepted again in the rest of the run |
| Fencing.RejectedForever | src/ports/storage.rs:631-653 | Once its ownership is gone a session stays rejected |
| Fencing.ClaimSupersedes | src/ports/storage.rs:376-442 | A successful claim puts every earlier session of the bucket behind it and makes the new one active |
| Fencing.FrozenUntilPublish | src/ports/storage.rs:564-591 | Between an accepted snapshot and an accepted publish of one session the bucket does not change, and the snapshot is everything committed |
| Fencing.LogGrows | src/ports/storage.rs:313-328 | Committed appends are never removed or reordered |
| Fencing.ArchivedForever | src/ports/storage.rs:576-615 | Archived is absorbing: key and content behind it stay the same for ever |
| BucketStore.CallRefines | src/ports/storage.rs:313-628 | Every store call is a protocol step or invisible to the protocol, keeps rows sorted, and changes no rows when it fails |
| BucketStore.AnswersAreTrue | src/ports/storage.rs:376-574 | A claim reports the new generation and installs the caller's token, a snapshot reports the rows of a bucket that the session holds |
| BucketStore.CallsKeepRows | src/ports/storage.rs:313-328 | Any sequence of calls keeps rows sorted, generations from falling and a published key unchanged |
| BucketStore.AcceptedIsActive | src/ports/storage.rs:642-663 | A session that passes the lease check is the protocol's active one and no other passes |
| BucketStore.LeaseProtects | src/ports/storage.rs:376-663 | Until a lease runs out no sequence of calls by anyone but its owner changes anything about the bucket |
| BucketStore.RenewalsKeepSession | src/application/durable_archive_recovery.rs:78-141 | However long an operation takes, renewals less than a lease apart keep its session the owner: whatever others call meanwhile, nothing about the bucket changes but the end of the lease |
| BucketStore.ClaimHoldsUntilExpiry | src/ports/storage.rs:376-442 | A claim's session is accepted exactly until the lease expires, and another claim is possible exactly from then on |
| BucketStore.DeferHoldsUntilRetry | src/ports/storage.rs:459-500 | A deferred bucket can be claimed exactly from its retry time on |
| BucketStore.InMemoryDurableBucketStore.Append | src/ports/storage.rs:313-328 | Only a hot bucket takes the record, and its rows become the old ones with the record inserted in clustering order |
| BucketStore.InMemoryDurableBucketStore.ClaimArchive | src/ports/storage.rs:376-405 | Claims a due hot bucket or an abandoned archiving one under a new generation and lease |
| BucketStore.InMemoryDurableBucketStore.ClaimCleanup | src/ports/storage.rs:407-442 | Claims a published bucket whose hot rows remain; never creates an entry |
| BucketStore.InMemoryDurableBucketStore.BeginArchive | src/ports/storage.rs:537-562 | Fences a hot bucket with a five-minute lease; a failed deadline leaves the fence closed |
| BucketStore.InMemoryDurableBucketStore.RenewArchiveLease | src/ports/storage.rs:444-457 | Extends the lease of the active session and changes nothing else; an unrepresentable deadline changes nothing |
| BucketStore.InMemoryDurableBucketStore.DeferArchive | src/ports/storage.rs:459-475 | Reopens the bucket of the active session and sets the retry time; an unrepresentable delay changes nothing |
| BucketStore.InMemoryDurableBucketStore.DeferCleanup | src/ports/storage.rs:477-500 | Moves lease and retry time of a published bucket that still has hot rows; an unrepresentable delay changes nothing |
| BucketStore.InMemoryDurableBucketStore.Snapshot | src/ports/storage.rs:564-574 | Returns the rows of the fenced bucket to the active session only |
| BucketStore.InMemoryDurableBucketStore.PublishArchive | src/ports/storage.rs:576-591 | Routes the bucket to the key for the active session only |
| BucketStore.InMemoryDurableBucketStore.DeleteHotBucket | src/ports/storage.rs:593-615 | Drops the hot rows of a published bucket for the active session only, keeping its key |
| BucketStore.InMemoryDurableBucketStore.AbortArchive | src/ports/storage.rs:617-628 | Reopens the bucket of the active session without a retry time |
| BucketStore.InMemoryDurableBucketStore.State | src/ports/storage.rs:330-338 | Reports the entry's state, hot when there is none |
| BucketStore.InMemoryDurableBucketStore.ReadRange | src/ports/storage.rs:502-535 | Returns the archive key of a published bucket, otherwise the first selected hot rows |
| Discovery.DiscoverArchiveWork | src/ports/storage.rs:340-374 | Lists exactly the due cleanups and then the due eligible cutovers, each in identity order, cut at the limit |
| Discovery.ListedIsClaimable | src/ports/storage.rs:340-442 | At the same instant the claim of a listed item succeeds unless generations are exhausted |
| Discovery.ListedOnce | src/ports/storage.rs:340-374 | No bucket is listed twice and cleanups come before cutovers |
| Discovery.ShortListIsComplete | src/ports/storage.rs:340-374 | A list shorter than the limit names every bucket that could be claimed |
| MemoryArchive.GenerationKeyInjective | src/ports/storage.rs:680-732 | In-memory archive keys of routed buckets are equal exactly for one bucket and one generation |
| MemoryArchive.KeysCoincideIff | src/ports/storage.rs:680-732 | With slash-free bucket keys, two archive keys are equal if and only if table, partition, bucket key and generation agree |
| MemoryArchive.FencedIffNamesDistinct | src/ports/storage.rs:715-732 | Over slash-free bucket keys, uploads of distinct sessions never share an archive key if and only if no two of the buckets agree in table, partition and bucket key |
| MemoryArchive.SlashesCollide | src/ports/storage.rs:715-732 | Distinct identities with a slash in a name share a key |
| MemoryArchive.HandMadeIdentitiesCollide | src/ports/storage.rs:715-732 | Identities that differ only in their bounds share a key |
| MemoryArchive.MemoryConfigFenced | src/ports/storage.rs:715-732 | The in-memory archive meets the key condition of the protocol theorems |
| MemoryArchive.InMemoryArchiveStore.PutBucketGeneration | src/ports/storage.rs:715-732 | Files the records under the key of bucket and generation |
| MemoryArchive.InMemoryArchiveStore.GetBucket | src/ports/storage.rs:734-755 | Returns the stored records exactly when they exist and all belong to the bucket |
| Records.StableSortSpec | src/ports/storage.rs:323-326 | The modelled sort is the only sorted list that keeps equal keys in their old order |
| Records.SortAfterPush | src/ports/storage.rs:322-326 | Sorting after a push inserts the record behind its equals |
| Records.SortCommutesWithFilter | src/application/durable_table.rs:292-331 | Filtering before or after the sort gives the same rows |
| Calendar.DateOfInverts | src/domain/model.rs:241-245 | Dates and day numbers correspond one to one, leap years included |
| Calendar.BucketContainsInstant | src/domain/model.rs:164-180 | Every strategy's bounds are one period and contain the instant |
| Calendar.PeriodIff | src/domain/model.rs:164-180 | An instant is in a period exactly when it lies between that period's bounds |
| Calendar.SameKeyIffSameBounds | src/domain/model.rs:148-180 | Two instants share a bucket key if and only if they share bounds |
| Calendar.KeyNamesStrategy | src/domain/model.rs:148-162 | Key texts of different strategies never coincide |
| Tiling.WalkForward | src/domain/schema.rs:194-212 | The forward walk ends with a gap-free ordered chain over the half-open range, empty for an empty range |
| Tiling.SpansIffMeets | src/domain/schema.rs:194-212 | A bucket is in that chain if and only if it meets the range |
| Tiling.WalkBackward | src/domain/schema.rs:216-239 | Stepping back by one nanosecond gives exactly the requested number of contiguous buckets ending at the one holding the instant |
| Tiling.WalksAgree | src/domain/schema.rs:194-239 | The backward walk equals the forward walk over its own span |
| Tables.CalendarTiles | src/domain/model.rs:219-234 | Buckets of every strategy tile all of UTC time |
| Tables.BucketsForRange | src/domain/schema.rs:194-212 | The listed buckets are exactly those meeting the range, in order |
| Tables.RecentBuckets | src/domain/schema.rs:216-239 | The listed buckets are the last contiguous ones up to the instant |
| Tables.WritableBucketsAt | src/domain/schema.rs:241-252 | The write window has the configured number of contiguous buckets ending now |
| Tables.WindowIffListed | src/application/durable_table.rs:107-124 | Comparing starts admits an append exactly when its bucket is in the window |
| Tables.BucketForCanonical | src/domain/schema.rs:176-192 | Table routing only produces identities whose key and bounds belong together |
| Tables.CanonicalByKey | src/domain/model.rs:209-234 | Table, partition and key text identify a routed bucket |
| Merge.SortRestoresOrder | src/application/durable_table.rs:180-184 | Sorting reads that finished in any order equals joining them in bucket order |
| Merge.TruncationHarmless | src/application/durable_table.rs:171-190 | One row more than the limit per bucket is enough for the page and for knowing whether more exist |
| TableRead.TierTransparent | src/application/durable_table.rs:292-331 | A bucket read gives the same rows from the hot store and from the archive |
| TableRead.ReadBuckets | src/application/durable_table.rs:196-267 | Joined reads are all rows in completion order, or the error of one of the reads |
| TableRead.MergeRefines | src/application/durable_table.rs:159-193 | Merging bounded reads refines filter, sort, take over the table for every completion order |
| Queries.SpanIsEnough | src/domain/schema.rs:194-212 | The buckets listed for a range select the same sorted rows as all buckets of the partition |
| Queries.QueryTable | src/application/durable_table.rs:159-193 | Refuses an empty range, answers a zero limit at once, and otherwise, when the reads return what the partition holds, answers the first rows of the whole partition |
| Queries.QueryRefines | src/application/durable_table.rs:159-331 | For every completion order, a page is the first rows of the whole sorted, filtered partition after the cursor, with a cursor exactly when more rows exist |
| Paging.ShownExactlyOnce | src/application/durable_table.rs:159-193 | Over pages of a changing table, every in-range row that was always there is shown exactly once and keys strictly increase |
| Ties.ShowsAllIffUnique | src/application/durable_table.rs:171-193 | Following the cursors of a table shows every selected row for every page size if and only if the selected rows have unique keys |
| Ties.SecondOfTieIsNeverShown | src/ports/storage.rs:313-328 | The in-memory store takes two records with one key, and paging by one row never shows the second |
| Paging.ReadIsAtomic | src/application/durable_table.rs:292-331 | A read that routes at one moment and fetches the archive object later returns the rows committed when it routed |
| Paging.LivePageIsReference | src/application/durable_table.rs:196-331 | A page whose bucket reads happen at different moments is the reference page of the whole partition, each listed bucket as it was when its read was routed |
| Paging.PagingIsStable | src/application/durable_table.rs:159-331 | While writers append and workers archive between pages and between the reads of one page, every record of the partition committed in range when paging began is shown exactly once, in strictly increasing key order |
| EndToEnd.DatabaseKeysUnique | src/adapters/cockroach_schema.rs:53-63 | In every run of a CockroachDB deployment no bucket ever commits two records with one key |
| EndToEnd.RoutedRunBelongs | src/application/durable_table.rs:107-137 | In every run whose appends go where table routing sends them, every committed record lies in the bucket of its partition and instant |
| EndToEnd.DatabasePagingIsStable | src/application/durable_table.rs:159-331 | Paging over a CockroachDB deployment with routed appends is stable, with nothing assumed about keys or about where records lie |
| EndToEnd.ArchiveReadIsWhole | src/adapters/opendal_store.rs:434-577 | A published bucket read through the object store returns exactly the appends committed when it was routed, whatever is written before the manifest and the payload are fetched |
| EndToEnd.SiteReadIsAtomic | src/application/durable_table.rs:292-331 | A bucket read over either hot store and the object store returns the page of the rows committed when it was routed, in either tier |
| EndToEnd.SitePagingIsStable | src/application/durable_table.rs:159-331 | Paging over a CockroachDB deployment and its object store, each bucket routed and its manifest and payload fetched at moments of their own, shows every record of the partition committed in range when paging began exactly once, in strictly increasing key order |
| CockroachRows.DecodesIffChecked | src/adapters/cockroach_durable.rs:1720-1760 | A row satisfies the CHECK constraints exactly when its generation is not negative and it decodes |
| CockroachRows.TransactKeepsChecks | src/adapters/cockroach_schema.rs:31-64 | Every transaction keeps the CHECK constraint and the unique clustering keys |
| CockroachRows.TransactRefines | src/adapters/cockroach_durable.rs:471-931 | Every row transaction is a protocol step or invisible to the protocol |
| CockroachRows.AnswersAreTrue | src/adapters/cockroach_durable.rs:1151-1320 | Reported generations and snapshot rows are those of the row, which a claim leaves under the caller's token |
| CockroachRows.LeaseProtectsRow | src/adapters/cockroach_durable.rs:660-931 | Until a lease runs out no sequence of transactions by anyone but its owner changes the row or the records |
| CockroachRows.UncachedReadRoutes | src/adapters/cockroach_durable.rs:950-1136 | The one-statement read returns the protocol's route and never fails on a constrained row |
| RouteCache.Cache.CacheArchiveAt | src/adapters/cockroach_durable.rs:65-83 | Inserting into a full cache gives up one oldest entry and no other, so the entry limit holds |
| RouteCache.Cache.Invalidate | src/adapters/cockroach_durable.rs:85-87 | Removes exactly the bucket's entry |
| RouteCache.PublishedRouteIsFinal | src/adapters/cockroach_durable.rs:1321-1520 | No transaction changes or removes a published route |
| RouteCache.RunIsCoherent | src/adapters/cockroach_durable.rs:44-88 | In every run of any number of processes all cached and observed routes are the published ones |
| RouteCache.HitEqualsUncachedRead | src/adapters/cockroach_durable.rs:950-1136 | A cache hit in any process at any time equals what the uncached read would return |
| PoolInvariant.EventKeepsInv | src/adapters/cockroach_pool.rs:187-521 | Every step of every task and driver keeps the pool's structure and its counted books |
| PoolTheorems.PrewarmedInv | src/adapters/cockroach_pool.rs:294-308 | A finished prewarm satisfies the pool invariant |
| PoolTheorems.CapacityHolds | src/adapters/cockroach_pool.rs:337-420 | In every interleaving live connections plus connections being opened never exceed the maximum |
| PoolTheorems.CountersTrueWhenQuiescent | src/adapters/cockroach_pool.rs:187-212 | Whenever nobody is between a state change and its counter update, both counters are the true numbers |
| PoolTheorems.LeavesOnce | src/adapters/cockroach_pool.rs:187-521 | Over every run each connection leaves the open count at most once, whichever of drop, checkout or driver closes it first, and exactly once when its departure is over |
| PoolTheorems.DepartureIsCounted | src/adapters/cockroach_pool.rs:507-521 | A departure takes exactly one from the open count, nothing else lowers it, and no two connections depart in one step |
| PoolTheorems.ClosedLeavesWhenQuiescent | src/adapters/cockroach_pool.rs:507-521 | At a quiescent point every closed connection has left the open count exactly once and no other has |
| PoolTheorems.IdleHasNoTransaction | src/adapters/cockroach_pool.rs:174-212 | No idle connection has an open transaction |
| PoolTheorems.AcquiredIsExclusive | src/adapters/cockroach_pool.rs:393-420 | A held connection belongs to one task only |
| Transactions.TryOnce | src/adapters/cockroach_durable.rs:307-411 | One attempt reports success only when it committed, asks for another attempt exactly after a serialization failure, and drops its connection reusable only when no transaction is open |
| Transactions.Transaction | src/adapters/cockroach_durable.rs:298-415 | Over all retry paths, timeouts and cancellations the work commits at most once, exactly once on success, never on a definite error; the outcome is reported unknown exactly when COMMIT got no definite reply or the work says so |
| Submission.Submit | src/adapters/cockroach_durable.rs:298-415 | Through any replies, timeouts and changes by others between attempts, an answered row transaction was done exactly once, by the last attempt, and the answer is its own; after a definite error the rows are as the attempts found them; after an unknown or abandoned outcome it was done once or not at all |
| ArchiveKeys.PathNamesBucketAndGeneration | src/adapters/opendal_store.rs:342-382 | Manifest keys of routed buckets tell bucket and generation apart whatever the digest does |
| ArchiveKeys.KeyNamesContent | src/adapters/opendal_store.rs:434-460 | Two writes with one manifest key archived the same bucket, generation, format and records, unless the digest collides on them |
| ArchiveKeys.ArchiveConfigFenced | src/adapters/opendal_store.rs:342-382 | The object-store archive meets the key condition of the protocol theorems |
| ArchiveObjects.ValidIffSortedAndOwned | src/adapters/opendal_store.rs:705-722 | Comparing neighbours accepts exactly the sorted snapshots whose records all belong to the bucket |
| ArchiveObjects.DigestOfKey | src/adapters/opendal_store.rs:735-751 | The checksum written into a manifest key is read back from it |
| ArchiveObjects.ObjectStore.CreateObjectVerified | src/adapters/opendal_store.rs:384-411 | A create succeeds exactly when the read-back shows the intended bytes, whatever the write reported and whoever wrote them |
| ArchiveObjects.ObjectStore.WriteRecords | src/adapters/opendal_store.rs:434-482 | Invalid input writes nothing; otherwise the manifest is created only behind a verified payload and success means both are in place |
| ArchiveObjects.WriteIsAdditive | src/adapters/opendal_store.rs:384-482 | No write ever changes an existing object, and a successful one leaves both objects stored |
| ArchiveObjects.RepeatChangesNothing | src/adapters/opendal_store.rs:384-482 | Repeating a stored write leaves the store unchanged |
| ArchiveObjects.CalmWriteSucceeds | src/adapters/opendal_store.rs:384-482 | After any lost or concurrent writes of the same content, an undisturbed write succeeds |
| ArchiveObjects.WriteKeepsAddressed | src/adapters/opendal_store.rs:434-482 | Writes keep every object named after its content |
| ArchiveObjects.AddressedAgrees | src/adapters/opendal_store.rs:384-411 | In such a store only a digest collision can make a write meet different content |
| ArchiveObjects.ReadIsWritten | src/adapters/opendal_store.rs:484-577 | Whatever the store holds at the two reads, a read through a written key succeeds exactly when both objects are intact and the same bucket is asked for, and returns exactly the written records, unless the digest collides with the bytes read |
| ArchiveCache.EstimateIsCapped | src/adapters/immutable_archive_cache.rs:162-169 | Saturating step by step equals capping the true size once |
| ArchiveCache.RoomIsMade | src/adapters/immutable_archive_cache.rs:89-101 | The eviction loop ends with room for the new entry |
| ArchiveCache.EvictedAreOlder | src/adapters/immutable_archive_cache.rs:89-101 | Every evicted entry is older than every survivor, and survivors are unchanged |
| ArchiveCache.EvictionIsMinimal | src/adapters/immutable_archive_cache.rs:89-101 | With the last evicted entry still there the new one would not fit |
| ArchiveCache.HitsAreTrue | src/adapters/immutable_archive_cache.rs:67-73 | In every interleaving a cached entry is what the immutable inner store holds |
| ArchiveCache.RunsAccount | src/adapters/immutable_archive_cache.rs:75-111 | For all limits and every interleaving of one process the byte count is the sum of the entry sizes and both limits hold |
| ArchiveCache.ImmutableArchiveCache.GetCached | src/adapters/immutable_archive_cache.rs:67-73 | A hit returns the entry and marks it most recently used |
| ArchiveCache.ImmutableArchiveCache.LeastRecentlyUsed | src/adapters/immutable_archive_cache.rs:92-99 | Finds the entry with the smallest access number |
| ArchiveCache.ImmutableArchiveCache.CacheRecords | src/adapters/immutable_archive_cache.rs:75-111 | Replaces the entry after evicting least recently used ones until it fits; oversized entries and disabled caches change nothing |
| ArchiveCache.ImmutableArchiveCache.RemoveEntry | src/adapters/immutable_archive_cache.rs:171-175 | Removes the entry and its bytes |
| ArchiveCache.ImmutableArchiveCache.Invalidate | src/adapters/immutable_archive_cache.rs:113-118 | Forgets exactly the given key |
| ArchiveCache.ImmutableArchiveCache.GetBucket | src/adapters/immutable_archive_cache.rs:147-159 | Serves hits from the cache, caches successful reads and never caches a failure |
| Recovery.DurableArchiveRecoveryRunner.WithConfig | src/application/durable_archive_recovery.rs:31-42 | A runner exists exactly for an acceptable configuration |
| Recovery.DurableArchiveRecoveryRunner.Renew | src/application/durable_archive_recovery.rs:89-105 | Renewals in time keep the held bucket as it is but for the end of its lease; the first failure stops the renewer |
| Recovery.DurableArchiveRecoveryRunner.Supervise | src/application/durable_archive_recovery.rs:113-132 | A supervised call of any length finds its session still the owner when the gaps between renewals stay below the lease |
| Recovery.DurableArchiveRecoveryRunner.FinishCleanup | src/application/durable_archive_recovery.rs:362-399 | Success means one completion and a bucket whose hot rows are deleted; a counted deferral is in the store; when calm the key is kept |
| Recovery.DurableArchiveRecoveryRunner.Defer | src/application/durable_archive_recovery.rs:377-422 | A deferral is counted exactly when the store recorded it: the bucket waits with the retry time, reopened or published with its rows |
| Recovery.DurableArchiveRecoveryRunner.ResolvePublish | src/application/durable_archive_recovery.rs:308-323 | After a failed publish, success means the bucket ended published with its hot rows deleted, and a counted deferral is in the store |
| Recovery.DurableArchiveRecoveryRunner.RecoverClaimedCutover | src/application/durable_archive_recovery.rs:255-327 | When calm, however long the calls take, the claimed rows are uploaded under the archive's name for them, published under it and then deleted |
| Recovery.DurableArchiveRecoveryRunner.RecoverCutover | src/application/durable_archive_recovery.rs:220-253 | Success keeps completed equal to claimed and means a finished bucket; when calm a due bucket ends archived with its old rows in the archive |
| Recovery.DurableArchiveRecoveryRunner.RecoverCleanup | src/application/durable_archive_recovery.rs:329-360 | Success keeps completed equal to claimed and means a finished bucket; when calm a due cleanup ends finished under the same key |
| Recovery.DurableArchiveRecoveryRunner.RunOnce | src/application/durable_archive_recovery.rs:177-218 | Under any faults and interference, success means nothing deferred and completed equals claimed within discovered within the scan limit; when calm it completes as many due buckets as the limit allows, leaves each cut over bucket's key leading to its old rows in the archive, and touches no other |
| Recovery.FencedSeparates | src/ports/storage.rs:715-732 | An archive that meets the key condition of the protocol never gives two buckets one key |
| Recovery.CycleShrinks | src/application/durable_archive_recovery.rs:177-218 | A calm cycle removes exactly its completions from the due and the pending buckets |
| Recovery.DueIffRipe | src/ports/storage.rs:340-374 | A pending bucket is due exactly once its retry time and its lease have passed |
| Recovery.DurableArchiveRecoveryRunner.Drain | src/application/durable_archive_recovery.rs:177-218 | Calm cycles until one discovers nothing carry every bucket whose retry time and lease have passed to the end, with the rows it had behind its published key, and touch no other; when all pending work is due none is left, after as many cycles as the scan limit needs |
| Migrations.PlanIsRight | src/adapters/cockroach_schema.rs:154-227 | Planning succeeds if and only if the history is, in some order, a duplicate-free prefix of the shipped migrations with matching identities, and returns the rest in order; a refusal names a true repeat, an out-of-range version, a changed identity, or either a skipped version below a later applied one or the shipped successor of an unknown version |
| Migrations.ReadHistory | src/adapters/cockroach_schema.rs:170-209 | The loop stops at the first refused entry with its refusal, or has read every version of the history in increasing order |
| Migrations.PlanMigrations | src/adapters/cockroach_schema.rs:154-227 | The loops, with their early exits, compute that plan: the same success condition, the same remaining migrations and the same first error |
| Migrations.GapsTrueIffNoStrangers | src/adapters/cockroach_schema.rs:188-197 | Every reported gap is a version below an applied one and itself not applied, for every order of the history, if and only if no version of the history inside the shipped range is unknown |
| Migrations.AppliedVersionReportedMissing | src/adapters/cockroach_schema.rs:188-197 | With versions 4 and 6 shipped and 6 and 5 applied, version 6 is reported missing |
| Migrations.ReplanIsEmpty | src/adapters/cockroach_schema.rs:154-227 | After applying the plan there is nothing left to plan |
| Migrations.SeenWithin | src/adapters/cockroach_schema.rs:211-220 | Distinct known versions never outnumber or run ahead of the shipped ones, so the gap check stays in bounds |
| Predicates.CollectAllMeans | src/integrations/datafusion.rs:215-274 | A row satisfies accepted filters exactly when the collected partition and bounds ask for it, flipped bounds taken with their true strictness |
| Predicates.ExactIffUnflipped | src/integrations/datafusion.rs:248-274 | The scan reads exactly the rows the filters ask for if and only if no timestamp comparison has its column on the right |
| Predicates.FlippedStartReadsTooMuch | src/integrations/datafusion.rs:260-260 | A concrete query that reads a row its filter excludes |
| Predicates.ShapeDecidesSupport | src/integrations/datafusion.rs:179-246 | A filter accepted for push-down is never refused later as unsupported, and only such filters are collected |
| Predicates.Finish | src/integrations/datafusion.rs:161-177 | A query is complete exactly with a partition, both bounds and start before end; otherwise the error names the first part that is wrong, the partition last |
| Predicates.RoutedQuery.CollectPredicate | src/integrations/datafusion.rs:215-246 | The mutated query holds what the specification collects, or the first error in traversal order |
| Predicates.RoutedQuery.CollectTimestampBound | src/integrations/datafusion.rs:248-274 | Fills one bound, refusing a second value for it |
| Predicates.ExtractQuery | src/integrations/datafusion.rs:91-97 | Collects all filters in order and then checks completeness |
| Scans.SatisfiesIffRouted | src/integrations/datafusion.rs:404-450 | For accepted filters without flipped comparisons, a record of the extracted partition satisfies them exactly when it lies in the extracted range, and no other partition has one |
| Scans.QuerySelectsSatisfying | src/integrations/datafusion.rs:404-450 | What the query selects in the extracted partition and range is what the filters select from the whole partition, in clustering order |
| Scans.Scan | src/integrations/datafusion.rs:404-450 | A scan is refused exactly when extraction fails, with its error; otherwise, without flipped comparisons, it returns the first rows of the partition that satisfy the filters, up to the limit |

## Left out

- SQL text, the CockroachDB engine and its isolation machinery: a transaction is one atomic step and a read one statement snapshot.
- JSON, Parquet and Arrow encodings, SHA-256 and UUID internals: codecs are assumed to round-trip, and results that need the digest name the pair of bodies it must tell apart.
- The range of representable instants: time is an unbounded number of nanoseconds, so the panics of date arithmetic at its ends are not modelled.
- TableRead.ReadBuckets: takes any completion order of the reads, and does not model that at most four are in flight at once.
- Queries.QueryRefines: for a limit of usize::MAX it assumes that the table has at most that many rows, as a vector must.
- Paging.PagingIsStable: assumes clustering keys unique within a bucket and records filed in their own bucket; EndToEnd.DatabasePagingIsStable derives both for CockroachDB, the second from appends that go where table routing sends them.
- Deployment.StoresLoseNothing: instants are nanoseconds throughout, while the CockroachDB column holds microseconds; event times finer than that, which the database would round and could make collide, are not modelled.
- PoolTheorems.CapacityHolds: starts from a finished prewarm with all drivers running, and does not model an `acquire` future cancelled while it waits or connects.
- ArchiveCache.HitsAreTrue: access numbers are unbounded; the wrap of the 64-bit counter after 2^64 accesses is not modelled.
- Predicates.ExactIffUnflipped: assumes literals without casts, since a cast can change the value the extraction sees, and a partition column not itself named "timestamp".
- ArchiveCache.RunsAccount: covers insertions whose records fit the address space beside the cached ones, as live allocations of one process do; saturation of the byte counter is never reached in them.
- The migration loop, schema validation queries and discovery in the CockroachDB adapter: they repeat the retry loop and discovery shapes modelled elsewhere.
- Retry delays, load profiles, configuration checks, TLS, the PgWire sidecar, telemetry and the DataFusion execution plan: settled by reading one branch or foreign interfaces.
