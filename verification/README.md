# CPA Usage Keeper: a verified model

This project models the parts of CPA Usage Keeper in which several steps have to work together, and
proves what they promise, for every input, every interleaving and every point at which a step may fail.

- **Inbox to events.** Queue messages are stored raw, decoded, given canonical keys in place, inserted
  in chunks that ignore known keys, and then marked row by row. Histories go statement by statement: each
  may fail, a call may crash between any two, and pulls, other writers and cleanups may come in between.
  `ExactlyOnceIngest.AtMostOnce` shows row by row that no message ever adds two events,
  `ExactlyOnceIngest.RequestIdsAreRetrySafe` and `FaithfulIngest.RetriesAddNothing` that retries add
  nothing, `FaithfulIngest.ProcessedRowsAreFaithful` that a processed row names an event with its content,
  and `ProcessCall.ProcessIsARun` that the whole call is such a run of statements.
  Modules: `UsageEvents`, `Database`, `Alignment`, `Ingest`, `IngestHistory`, `ExactlyOnceIngest`,
  `FaithfulIngest`, `ProcessCall`, `UnidentifiedRows`, `IngestLimits`, `PullDuringProcess`, `Drain`.
- **Identity statistics.** A watermark aggregate that reads identities before its transaction equals the
  aggregate from scratch after every commit (`IdentityHistory.IncrementalEqualsFromScratch`), no event is
  ever counted twice (`IdentityHistory.EachEventIsCountedOnce`), and the migrations hand over exactly the
  invariant it needs (`Migrations.MigratedStaysExact`).
  Modules: `IdentityStats`, `IdentityHistory`, `Migrations`.
- **Auth-file buckets.** Synthetic events fill up what a bucket reports. Ordinals stay an initial segment
  however syncs overlap (`RecentFillHistory.OrdinalsAreInitialSegments`), syncs that run to their end cover
  what was reported even when others overlap them (`RecentFillConvergence.OverlappedSyncCovers`), and
  exactly that when none does (`RecentFillConvergence.SyncConverges`). Modules: `RecentBuckets`,
  `RecentFill`, `RecentFillHistory`, `RecentFillConvergence`.
- **Overview.** When the streamed overview is the list-built one (`Overview.StreamingEqualsList`), that
  every breakdown adds up (`Overview.OverviewIsConserved`), and that the health grid counts each event in
  its own block. Modules: `UsageQuery`, `HealthGrid`, `Sums`, `Folds`, `OverviewUsage`, `OverviewSeries`,
  `Overview`, `OverviewBuilder`.
- **Overview cache.** Single flight, stale while revalidating, with termination
  (`OverviewCache.SingleFlight`, `OverviewCache.RunsAreBounded`).
- **Snapshot rotation.** With rotation on, a download returns the last completed upload
  (`SnapshotRotation.LastUploadIsDownloaded`); with rotation switched on and off, exactly when it does
  (`SnapshotRotation.DownloadsOverAllRuns`). Retention keeps the newest history. Modules: `Snapshot`,
  `SnapshotRotation`.
- **Protocols.** RESP2 round trip (`Resp.RenderReadsBack`) and the latest-wins store of the web client
  (`UsageStatsStore.LatestWins`).

`Text` and `Calendar` hold the string and time functions the rest relies on.

How to read it: code that changes state is a class whose methods are proved against a specification
function of the old state (`ensures State() == Publish(old(State()), ...)`); what the program promises is
then proved about those functions, over runs given as sequences of atomic steps. Statements that may fail
take the set of failing ones as a parameter. A crash between two statements is a step of its own in the
histories of the inbox.

Conventions. An instant is a whole number of nanoseconds since year 0 and the local zone is a fixed
offset. Clock readings, listings, settings and the outcome of commits and builds are parameters. SHA-256
is an injective function. A decoded queue message is a record or malformed. Money and rates are real
numbers. Int64 wrap-around is modelled where the program multiplies or sums before it stores: token
normalisation and synthetic offsets. The database serves one connection, so its statements are serial.

Where the program does not keep a promise, its exact limit is proved as an if-and-only-if:

- a retryable row adds at most one event, over all histories and whatever other rows there are, exactly if
  its message carries a request id or a timestamp (`UnidentifiedRows.AtMostOnceIffIdentified`);
- a row without a request id is lost in a batch exactly if no event of the batch is new for it, as when its
  content comes with a request id already in use (`IngestLimits.LostIffNoneIsNew`, and an input in
  `IngestLimits.SampleIsLost`);
- a bucket text resolves to its span exactly for certain clock readings
  (`RecentBuckets.ResolvesToTrueStart`);
- an upload with rotation off is downloaded exactly if the manifest names no stored file of other content
  (`SnapshotRotation.UnrotatedUploadIsDownloadedIff`), and later runs repair it exactly as
  `SnapshotRotation.DownloadsOverAllRuns` says;
- events stored between the two queries of the overview matter exactly if they move the start of the
  hourly series past some row (`Overview.StreamingEqualsList`).

## Model

| member | source | states |
|---|---|---|
| UsageEvents.NormalizeTokensIdempotent | internal/service/flatten.go:33-41 | normalising token counts twice is normalising them once, also when the int64 sums wrap to zero |
| UsageEvents.MissingTotalIsFilledIn | internal/service/flatten.go:33-41 | a missing total is the tokens that went in, came out or were thought, and the cached ones only if there are none of these; nothing else changes |
| UsageEvents.CanonicalKeyInjective | internal/service/flatten.go:13-31 | events whose canonical keys agree have the same content, as long as their text fields hold no bar |
| UsageEvents.DecoderOutput | internal/service/redis_usage.go:50-83 | every decoded event is trimmed, has normalised tokens, and without a request id carries exactly its canonical key |
| UsageEvents.DecodingIsIdempotent | internal/service/redis_usage.go:50-83 | every field of a decoded event is read back from the place it was written to: decoding it again changes nothing |
| UsageEvents.DecodingIsStable | internal/service/redis_usage.go:50-83 | a message with a timestamp decodes to the same event whenever it is decoded |
| Calendar.RFC3339NanoInjective | internal/service/flatten.go:13-31 | the timestamp text of a key identifies the instant to the nanosecond |
| Calendar.CompactTextInjective | internal/service/sync.go:675-679 | the compact time text of a synthetic key identifies the second |
| Calendar.DayKeyIdentifiesDay | internal/repository/usage.go:538-543 | two instants share a day key exactly if they fall on the same local day |
| Calendar.HourKeyIdentifiesHour | internal/repository/usage.go:538-543 | two instants share an hour key exactly if they fall into the same UTC hour |
| Text.JoinInjective | internal/service/flatten.go:13-31 | a separator-joined text determines its separator-free parts |
| Text.FirstNonEmptyFinds | internal/service/sync.go:853-861 | the first argument that is not blank, trimmed; blank only if all are |
| Database.InsertAllKeys | internal/repository/db.go:84-93 | inserting keeps the old rows as a prefix and leaves exactly the union of old and incoming keys |
| Database.InsertAllAppend | internal/repository/db.go:84-99 | inserting two chunks one after the other is one insert-if-absent fold over both |
| Database.InsertAllTableOk | internal/repository/db.go:84-93 | event ids stay strictly increasing and event keys unique |
| Database.UsageDatabase.InsertUsageEvents | internal/repository/db.go:76-102 | the chunked loop is one insert-if-absent fold over all rows, inserted counts the new ones, inserted plus deduped is the number sent; on failure exactly the chunks before it stay |
| Database.UsageDatabase.InsertRedisUsageInboxMessages | internal/repository/redis_usage_inbox.go:36-60 | one pending row per message is appended, in order, with the next ids; if the transaction fails nothing is |
| Database.UsageDatabase.MarkRedisUsageInbox | internal/repository/redis_usage_inbox.go:62-87 | row by row: only rows with the id change, in the columns their mark names; a fifth failure discards |
| Database.UsageDatabase.CleanupRedisUsageInbox | internal/repository/redis_usage_inbox.go:116-136 | two deletes, either of which may fail: what is left after each, that pending rows and the ids survive, and that a full cleanup keeps exactly the rows of today and of the week |
| Database.ListProcessableMembers | internal/repository/redis_usage_inbox.go:90-100 | the listing holds only pending and retryable rows, in id order: all of them unless it is full, and then those with the smallest ids |
| Database.CleanupKeepsExactly | internal/repository/redis_usage_inbox.go:116-136 | a row survives exactly if it is pending, was processed today or failed within a week |
| Alignment.TakeStoredKey | internal/service/sync.go:381-421 | the branch that looks for an equivalent stored event picks the key and updates the two maps as the step function says, and fails exactly when its read of the inbox is made and fails |
| Alignment.AlignOne | internal/service/sync.go:361-422 | one iteration, with its two maps, and exactly when one of its two reads makes it fail |
| Alignment.AlignUsageEventKeys | internal/service/sync.go:355-423 | the slice is rewritten in place to the aligned batch, and the pass fails exactly when a read of either table that it needs does |
| Alignment.DecodedNeedNoReference | internal/service/sync.go:405-431 | aligning decoder output never asks the inbox about a key |
| Alignment.OldestEquivalent | internal/service/sync.go:381-395 | of equivalent stored events the oldest lends its key |
| Alignment.ConsumedBranchesAreDead | internal/service/sync.go:365-420 | for decoder output the branches that consume a canonical key are never taken, and alignment follows the simple rules |
| Alignment.SettledAddsNothing | internal/service/sync.go:355-423 | an event the table can account for adds no row, at any place of any batch and against any larger table |
| Alignment.AddsIffUnsettled | internal/service/sync.go:355-423 | exact condition: an event adds a row on its own iff the table cannot account for it, and the table can iff no batch at all would add one |
| Alignment.AddingSettles | internal/service/sync.go:337-353 | once an event has added a row, the table accounts for it from then on |
| Alignment.EquivalentIsSameContent | internal/service/sync.go:381-395 | against stored rows the lookup query means equality of content |
| Ingest.MarkPassRow | internal/service/sync.go:298-311 | in a pass of mark statements a row is untouched or carries exactly its own mark |
| Ingest.SyncService.PullRedisUsageInbox | internal/service/sync.go:185-215 | popped messages are stored raw as pending rows, before anything is decoded; a failed pop changes nothing, and a failed insert after it loses them |
| Ingest.SyncService.ProcessRedisUsageInbox | internal/service/sync.go:219-233 | a call, with any statements failing, changes the database as the specification says |
| Ingest.SyncService.ProcessRedisInboxRows | internal/service/sync.go:267-334 | decode, align, insert, mark, and the reported counts, for a given listing |
| Ingest.SyncService.DecodeRows | internal/service/sync.go:269-283 | undecodable rows are marked at once, the others collected in order |
| Ingest.SyncService.PersistRows | internal/service/sync.go:337-353 | the batch that is inserted and marked is the slice alignment rewrote |
| Ingest.SyncService.InsertRows | internal/service/sync.go:298-311 | rows are marked processed with their aligned keys only after all chunks went in; otherwise all are marked failed |
| Ingest.SyncService.MarkRows | internal/service/sync.go:482-507 | marks are written one by one and stop, or do not, at the first failure |
| ProcessCall.ProcessMovesRows | internal/service/sync.go:267-334 | one call moves a row only along the legal transitions, and to processed only with a stored key |
| ProcessCall.ProcessMakesProgress | internal/service/sync.go:267-334 | if mark statements work, every call that finds work shrinks the remaining attempts |
| ProcessCall.ProcessIsARun | internal/service/sync.go:219-353 | the whole call, with any faults, is its beginning and a run of single statements: what is proved of histories holds of it |
| ProcessCall.ReportIsTrue | internal/service/sync.go:219-353 | what a call answers, whatever fails: empty, failed exactly if a statement that is reached fails, or else the number of events by which the table has grown and of the other decodable rows, with a warning exactly if some listed row does not decode |
| ProcessCall.CompletedSettlesListed | internal/service/sync.go:267-334 | a call that completes has marked every listed row processed, or undecodable |
| IngestHistory.RunKeepsOk | internal/repository/redis_usage_inbox.go:62-144 | over every history, also in the middle of a call: unique keys, rising ids, attempts 0 when pending, 1 to 4 when retryable, 5 when discarded, 1 when undecodable, and every processed row names a stored event |
| IngestHistory.TerminalRowsNeverChange | internal/repository/redis_usage_inbox.go:62-100 | a row in a terminal status stays word for word until cleanup removes it, and never returns |
| ExactlyOnceIngest.QuietForever | internal/service/sync.go:267-423 | a row the table accounts for, and the call in flight will not add, never adds an event again, whatever happens |
| ExactlyOnceIngest.AtMostOnce | internal/service/sync.go:267-423 | row by row: a row with a request id or a timestamp adds at most one event over every history of single statements, with faults, crashes, other writers and cleanups between any two, whatever the other rows are |
| ExactlyOnceIngest.ExactlyOnce | internal/service/sync.go:267-423 | over every such history the table grows by exactly what others inserted and one event for each time a row adds one, and a row that is identified whenever it is there does so at most once |
| ExactlyOnceIngest.GrowthCountsRows | internal/service/sync.go:267-423 | if every message is identified, the pipeline adds as many events as there are rows that ever added one |
| ExactlyOnceIngest.RequestIdsAreRetrySafe | internal/service/sync.go:337-378 | once the chunk with a row that has a request id is committed no later attempt adds an event for it, with no assumption on what messages say |
| FaithfulIngest.CommittedRowsAreRepresented | internal/service/sync.go:337-423 | each committed row whose key has one meaning has a stored event with its final key and its own content, whatever the rest of the batch says |
| FaithfulIngest.CommittedIdsAreResembled | internal/service/sync.go:337-378 | each committed row with a request id of one meaning has a stored event with that key that says the same, at least but for the time |
| FaithfulIngest.CommittedRowsAreSettled | internal/service/sync.go:337-423 | every committed row with a request id, or with a canonical key of one meaning, is accounted for, added or merged |
| FaithfulIngest.RetriesAddNothing | internal/service/sync.go:267-423 | once the chunk with a row is committed, no later attempt adds an event for it, over any history; only the keys that concern the row need a meaning |
| FaithfulIngest.ProcessedRowsAreFaithful | internal/service/sync.go:298-311 | in every reachable database each processed row whose key has a meaning names a stored event that says what its message says: exactly with a timestamp, but for the time with a request id |
| FaithfulIngest.SpeakingMessagesSuffice | internal/service/redis_usage.go:50-83 | over whole histories, what is asked of batches follows from what retryable rows and pulled messages say one by one, and from the clock readings |
| UnidentifiedRows.AtMostOnceIffIdentified | internal/service/redis_usage.go:54-63 | any retryable row of any inbox adds at most one event over all histories exactly if its message has a request id or a timestamp |
| UnidentifiedRows.UnidentifiedRowAddsTwice | internal/service/redis_usage.go:54-57 | without both, wherever the row stands, some history of crashes adds two events for it |
| UnidentifiedRows.UnidentifiedMessageAddsTwice | internal/service/redis_usage.go:54-57 | alone in the inbox, such a row is added again by the call after one whose mark failed, at any other instant |
| IngestLimits.AddsIffNew | internal/service/sync.go:355-423 | exactly which events of a batch add a row, in terms of the batch and the table alone: those that keep a key that is neither stored nor kept before them |
| IngestLimits.SettledAfterBatch | internal/service/sync.go:355-423 | an id-less event the table could not account for is accounted for after any batch exactly if a new event of the batch says the same or has its canonical key as request id |
| IngestLimits.LostIffNoneIsNew | internal/service/sync.go:365-378 | any id-less row of any batch is lost, marked with a stored key and added after all when sent again, exactly if no event of the batch is new for it |
| IngestLimits.ReusedRequestIdLosesRow | internal/service/sync.go:365-378 | a family of inputs that are lost: a stored request id comes again with the content of an id-less event beside it |
| IngestLimits.SampleIsLost | internal/service/sync.go:365-378 | one such input |
| IngestLimits.PairLosesSecond | internal/service/sync.go:365-378 | the same for a batch of just the two: exactly if the request id is not stored |
| PullDuringProcess.PullsMayOvertakeProcess | internal/poller/redis_drain.go:53-73 | a Process call overtaken by Pulls, between any of its statements, ends as if it had run alone and the Pulls had come after |
| PullDuringProcess.PullCommutes | internal/poller/redis_drain.go:53-73 | a Pull and the next statement of a call may change places |
| PullDuringProcess.AlignOvertaken | internal/service/sync.go:405-431 | pending rows that arrive meanwhile do not change what alignment decides |
| Drain.RedisDrain.TryStartPull | internal/poller/redis_drain.go:161-168 | the check and the flag are one critical section |
| Drain.RedisDrain.TryStartProcess | internal/poller/redis_drain.go:182-189 | the check and the flag are one critical section |
| Drain.RedisDrain.FinishPull | internal/poller/redis_drain.go:170-174 | the deferred section clears the pull flag and leaves the other, as the end of a pull in a run does |
| Drain.RedisDrain.FinishProcess | internal/poller/redis_drain.go:191-195 | the deferred section clears the process flag and leaves the other |
| Drain.AtMostOneOfEach | internal/poller/redis_drain.go:149-204 | with both loops and any number of manual syncs at most one Pull and one Process are in flight |
| Drain.EachKeepsToItsWork | internal/poller/redis_drain.go:53-143 | the pull loop only pulls and the process loop only processes, over every run |
| Drain.SyncNowPullsFirst | internal/poller/redis_drain.go:149-157 | a manual sync processes only after a pull of its own that succeeded |
| IdentityStats.WindowSplit | internal/repository/usage_identities.go:154-197 | an aggregate over an id window is the combination of the aggregates of its two parts |
| IdentityStats.DeltaCompletes | internal/repository/usage_identities.go:86-138 | statistics exact up to the watermark plus the delta above it are the from-scratch aggregate |
| IdentityStats.CommitIsExact | internal/repository/usage_identities.go:86-152 | a commit leaves every row that was read with the from-scratch aggregate, however stale the read, and other rows untouched |
| IdentityStats.FullSays | internal/repository/usage_identities.go:154-197 | the aggregate column by column: failed and other matching events, each token sum of its own field, first and last use, largest id |
| IdentityStats.DecodedMatches | internal/service/redis_usage.go:50-83 | which identities a decoded message counts for: those of its source with an API key, those of its auth index with OAuth, in whatever case and white space |
| IdentityStats.ReplacedMoves | internal/repository/usage_identities.go:14-72 | metadata replacement keeps ids, keys and statistics of old rows, and the unique index |
| IdentityStats.ReplacedRow | internal/repository/usage_identities.go:14-72 | afterwards exactly the identities that were sent are live among those the replacement sweeps, with the metadata they were sent with |
| IdentityStats.FirstInputIsKept | internal/repository/usage_identities.go:210-239 | of several inputs for one identity the first is kept, each field trimmed |
| IdentityStats.NormalizedKeys | internal/repository/usage_identities.go:210-239 | no non-blank identity that is sent is lost, and none is made up |
| IdentityStats.NormalizedAreDistinct | internal/repository/usage_identities.go:210-239 | one batch never names an identity twice |
| IdentityStats.IdentityTable.NormalizeUsageIdentities | internal/repository/usage_identities.go:210-239 | the loop with its seen set keeps the first of each trimmed identity |
| IdentityStats.IdentityTable.ReplaceUsageIdentities | internal/repository/usage_identities.go:14-72 | upsert and sweep in one transaction, for either kind of replacement |
| IdentityStats.IdentityTable.AggregateUsageIdentityStats | internal/repository/usage_identities.go:86-152 | the transaction writes the sums for the identities as they were read before it |
| IdentityHistory.WatermarksNeverRegress | internal/repository/usage_identities.go:86-152 | over every interleaving statistics stay exact up to the watermark and no row or watermark moves back |
| IdentityHistory.IncrementalEqualsFromScratch | internal/repository/usage_identities.go:86-152 | after any run from any good state, a commit leaves every identity it had read with the aggregate over all events stored now, in every column |
| IdentityHistory.EachEventIsCountedOnce | internal/repository/usage_identities.go:86-208 | at every moment of every run the requests summed over all identities are the events that match one up to its watermark, each counted once |
| IdentityHistory.NoEventIsCountedTwice | internal/repository/usage_identities.go:199-208 | after a commit that had read every row they are all matching events |
| Migrations.NoBlankEventMatches | internal/repository/migrations.go:346-380 | after the backfill no event with a blank auth type is claimed by any identity |
| Migrations.BackfillDecides | internal/repository/migrations.go:346-380 | each identity gets what its looser query selected, a blank event claimed twice going to the provider alone |
| Migrations.BackfillIdempotent | internal/repository/migrations.go:334-383 | running the backfill again changes nothing |
| Migrations.BackfillLeavesNoBlank | internal/repository/migrations.go:470-479 | on the backfilled events the looser and the strict query select the same |
| Migrations.MigrationEstablishesInvariant | internal/repository/migrations.go:385-468 | whatever the statistics were, they are afterwards the strict from-scratch aggregates and the aggregator invariant holds |
| Migrations.MigratedDatabase.BackfillUsageEventIdentityFields | internal/repository/migrations.go:334-383 | only blank auth types and providers are filled, afterwards each identity matches exactly the events it could claim, and the table keeps ids and keys |
| Migrations.MigratedStaysExact | internal/repository/migrations.go:385-468 | from the migrated tables on, after any run, every commit is exact and counts no event twice |
| Migrations.MigratedDatabase.BackfillUsageIdentityStats | internal/repository/migrations.go:385-427 | the loop over identities recomputes every row and stamps those with requests |
| Migrations.MigratedDatabase.Migrate | internal/repository/migrations.go:46-57 | both migrations in their order hand over full statistics, right in every column, and the invariant the aggregator needs |
| RecentBuckets.BucketBounds | internal/service/sync.go:681-707 | a resolved bucket is non-empty, at most a day long, and starts within the last day or the next minute |
| RecentBuckets.ResolvesToTrueStart | internal/service/sync.go:692-706 | exact condition on the clock for a text to resolve to the span that truly starts at S |
| RecentBuckets.ResolvesStably | internal/service/sync.go:692-706 | every clock value from S until a minute short of a day later resolves the text to the same span |
| RecentBuckets.BucketTextReadsBack | internal/service/sync.go:681-723 | a printed bucket text is read back as the clock times it was printed from |
| RecentFill.PrefixSelectsItsSlot | internal/service/sync.go:675-679 | the LIKE pattern of a bucket selects the keys of that identity, start and outcome, and no others |
| RecentFill.KeyInjective | internal/service/sync.go:630-636 | a synthetic key determines identity, start, outcome and ordinal |
| RecentFill.OffsetStaysInBucket | internal/service/sync.go:624-643 | every generated timestamp lies in its bucket as long as count times duration fits an int64 |
| RecentFill.OffsetIsEvenShare | internal/service/sync.go:624-636 | the offset of an event is the share of its ordinal in the bucket, rounded down |
| RecentFill.SlotsStandFor | internal/service/sync.go:675-679 | buckets share keys exactly if they start in the same second, are of one outcome, and of one identity: the auth index, or else email, title or name |
| RecentFill.GeneratedLooksReal | internal/service/sync.go:635-673 | generated events carry what real events of their file are recognised by |
| RecentFill.SyntheticIsClean | internal/service/sync.go:635-646 | synthetic events are clean and may share the table with decoded ones |
| RecentFill.RequestsAreReported | internal/service/sync.go:567-591 | a sync asks for exactly what the files report: the successes of each parsed bucket as successes, its failures as failures |
| RecentFill.RecentSync.AuthFileRecentSyntheticEvents | internal/service/sync.go:607-649 | the loop generates exactly the missing ordinals after the two counts |
| RecentFill.RecentSync.SyncAuthFileRecentUsageEvents | internal/service/sync.go:555-605 | all buckets are generated against one table and inserted together, or a prefix of chunks is |
| RecentFillConvergence.FilledEventsCountForTheirFile | internal/service/sync.go:635-646 | synthetic events count in the statistics of their auth file and of no provider |
| RecentFillHistory.StoredIsSegment | internal/service/sync.go:633-636 | stored ordinals of a bucket are an initial segment whenever each came after its predecessor |
| RecentFillHistory.OrdinalsAreInitialSegments | internal/service/sync.go:555-679 | over every interleaving of overlapping syncs, with stale counts and inserts that stop part-way, ordinals are 0 to k-1 |
| RecentFillHistory.NeverMoreThanReported | internal/service/sync.go:607-622 | a bucket never holds more synthetic events than the largest count ever reported |
| RecentFillConvergence.RunKeepsPlaced | internal/service/sync.go:555-649 | over every interleaving every synthetic event of a bucket, stored or pending, lies in its span |
| RecentFillConvergence.SyncReachesPeak | internal/service/sync.go:555-605 | a completed sync leaves each bucket with the most its requests called for, or with what it had |
| RecentFillConvergence.SyncConverges | internal/service/sync.go:607-622 | after any history from the empty table, a sync that runs to its end leaves at least the reported count, exactly the larger of that and what there was if no other request is for the bucket, and the request generates nothing more |
| RecentFillConvergence.SyncCoversReports | internal/service/sync.go:555-605 | in terms of the files: after any history, a completed sync leaves in the span of each bucket at least as many successful events as it reports, and at least as many failed ones |
| RecentFillConvergence.OverlappedSyncCovers | internal/service/sync.go:555-649 | a call that has stored all it generated covers the reported count, whatever other syncs and writers did between its steps |
| RecentFillConvergence.RepeatedSyncAddsNothing | internal/service/sync.go:555-605 | after any history, repeating a completed sync leaves the table as it is |
| UsageQuery.SelectedEvents | internal/repository/usage.go:413-438 | the query returns exactly the stored events the filter selects |
| UsageQuery.SelectsTrimmedEvents | internal/repository/usage.go:118-157 | on stored events the filter means what its fields say, both ends of the range included |
| UsageQuery.DaysFromAWeekOn | internal/repository/usage.go:715-720 | buckets are days for the two long presets, and from a week on less a minute at most |
| UsageQuery.LatestOfSameEvents | internal/repository/usage.go:452-474 | the latest timestamp depends on which events there are, not on their order |
| UsageQuery.WindowMinutesCover | internal/repository/usage.go:696-713 | the window is the shortest whole number of minutes that covers the range, at least one, and none for a missing or reversed end |
| HealthGrid.BlocksTileTheWindow | internal/repository/usage.go:751-802 | blocks are contiguous and reach the end of the window, with less than a microsecond to spare for short ranges |
| HealthGrid.WindowHoldsItsEnd | internal/repository/usage.go:791-802 | the window is the 24 hours up to the end, or seven days of quarter hours the last of which holds the end |
| HealthGrid.UpdateHitsItsBlock | internal/repository/usage.go:804-832 | an event in the grid is counted by exactly the block whose interval contains it, and the index guard never fires |
| HealthGrid.BlocksCountTheirInterval | internal/repository/usage.go:804-832 | after any events every block holds exactly the counts and the rate of its interval |
| HealthGrid.ShortRangesAreCovered | internal/repository/usage.go:743-802 | for short ranges of at most 24 hours no selected event is missed, not even at the exact end |
| HealthGrid.BuildBlocks | internal/repository/usage.go:751-764 | the loop builds the fresh grid |
| HealthGrid.UpdateHealthBlock | internal/repository/usage.go:804-832 | the block is updated in place behind its guards |
| OverviewUsage.NamesShareAnEntry | internal/repository/usage.go:652-658 | names share an entry exactly if they are the same but for white space, blank ones that of unknown |
| OverviewUsage.EntriesCountTheirEvents | internal/repository/usage.go:495-547 | every API and model entry aggregates exactly the events of that API and model |
| OverviewUsage.DaysCountTheirEvents | internal/repository/usage.go:538-543 | every day entry aggregates exactly the events of that local day |
| OverviewUsage.HoursCountTheirEvents | internal/repository/usage.go:538-543 | every hour entry aggregates exactly the events of that hour |
| OverviewUsage.UsageIsConserved | internal/repository/usage.go:495-547 | totals are conserved over APIs, models within each API, days and hours |
| OverviewSeries.EveryTokenIsBilledOnce | internal/repository/usage.go:672-692 | token by token: cached input at the cache price, the other input at the prompt price, output at the completion price, each once |
| OverviewSeries.CostIsModelBill | internal/repository/usage.go:619-624 | an event costs its bill at its own model price, and nothing if the model has none |
| OverviewSeries.UnpricedCouldCost | internal/repository/usage.go:607-624 | an event needs a price exactly if some price would make it cost something |
| OverviewSeries.CellsSumTheirEvents | internal/repository/usage.go:579-605 | every bucket of every line is the direct sum of its events, with rates per minute of the bucket |
| OverviewSeries.BucketsAddUp | internal/repository/usage.go:579-637 | the buckets of a series add up to the sum over its events, in every column and in cost |
| OverviewSeries.ModelLinesAddUp | internal/repository/usage.go:579-605 | every bucket is the sum of that bucket over the model lines |
| Overview.OverviewIgnoresOrder | internal/repository/usage.go:384-399 | for a fixed hourly start the overview depends only on the multiset of events |
| Overview.HourlyStartMatters | internal/repository/usage.go:628-631 | two overviews of the same events agree exactly if their hourly starts let the same events in |
| Overview.StreamingEqualsList | internal/repository/usage.go:327-474 | with events stored between its two queries, the streamed overview is the one built from the ascending list exactly if both hourly starts let the same rows in; always if the filter has an end or nothing was stored in between |
| Overview.EmptyNeedsNoFinalizing | internal/repository/usage.go:356-358 | the early return for no events leaves out nothing |
| Overview.FoldHasParts | internal/repository/usage.go:611-637 | the overview is, part by part, the parts own folds over the events |
| Overview.OverviewIsConserved | internal/repository/usage.go:611-650 | requests, tokens and costs agree over all breakdowns; cost is unavailable iff some event needed a missing price |
| Overview.CostsAreBills | internal/repository/usage.go:611-637 | the total cost is the sum of the bills of all events, and the cost of each cell of each series that of the events of its day or hour and model |
| Overview.TotalsAndRates | internal/repository/usage.go:639-650 | requests, tokens, successes and failures counted directly, and the rates per minute and the success rate they make |
| Overview.HourlySeriesHoldsItsWindow | internal/repository/usage.go:628-631 | the hourly series holds exactly the events since its start |
| Overview.GridAgreesWithTotals | internal/repository/usage.go:743-832 | for short ranges block successes and failures sum to the health totals |
| OverviewBuilder.UsageOverviewRecord.ApplyToSnapshot | internal/repository/usage.go:495-547 | the snapshot is updated level by level as the fold says |
| OverviewBuilder.ApplyToOverviewSeries | internal/repository/usage.go:579-605 | cell by cell: the bucket of the event, in the total line and in its model line, grows by the charge and gets new rates; every other cell stays |
| OverviewBuilder.UsageOverviewRecord.ApplyToSeries | internal/repository/usage.go:622-634 | the same for the three series, the hourly one only from its start on |
| OverviewBuilder.UsageOverviewRecord.Apply | internal/repository/usage.go:348-353 | one streamed event changes the record by exactly one step of the fold |
| OverviewBuilder.UsageOverviewRecord.Finalize | internal/repository/usage.go:639-650 | request and token counts, rates and success rate are filled in |
| OverviewBuilder.BuildUsageOverviewWithFilter | internal/repository/usage.go:327-362 | streaming the rows builds the overview of the event list, exactly if both hourly starts let the same rows in |
| OverviewCache.UsageOverviewCache.Lookup | internal/service/usage.go:49-80 | one pass through the lock decides whether to answer, refresh, wait or build |
| OverviewCache.UsageOverviewCache.Store | internal/service/usage.go:93-106 | the end of a build stores a success, clears the flag and closes the channel |
| OverviewCache.SingleFlight | internal/service/usage.go:44-106 | over every interleaving: the flag is set iff one build is in flight iff the channel is open; no channel is closed twice; waiters wait on the current or a closed channel |
| OverviewCache.ValueIsNeverLost | internal/service/usage.go:93-106 | a value once set is never unset |
| OverviewCache.ValueIsLastSuccess | internal/service/usage.go:93-106 | over every run the cached value and its time are those of the last build that succeeded |
| OverviewCache.LookupAnswersLastSuccess | internal/service/usage.go:44-80 | a lookup answers with the value of the last build that succeeded, and starts a refresh exactly if it is a minute old and none is in flight; before any it builds, or waits |
| OverviewCache.StaleOnlyWhileRefreshing | internal/service/usage.go:52-64 | a lookup answers with the cached value, and with an expired one only while a refresh is in flight |
| OverviewCache.StepDecreases | internal/service/usage.go:44-106 | every step but an arrival decreases a measure |
| OverviewCache.RunsAreBounded | internal/service/usage.go:44-106 | without further arrivals every run is bounded by that measure |
| OverviewCache.NobodyIsStuck | internal/service/usage.go:66-72 | while a call has not returned, some step is possible, given that builds finish |
| Snapshot.LessTotal | hf_state_snapshot.py:267-273 | the order of names is total, so the sorted listing is unique |
| Snapshot.ExistingPathsOk | hf_state_snapshot.py:267-273 | exactly the history paths of the listing, newest name first |
| Snapshot.PathsAreDistinct | hf_state_snapshot.py:75-99 | the snapshot, its manifest, its state file and its history never share a path |
| Snapshot.OnePathPerInterval | hf_state_snapshot.py:67-99 | snapshots share a history path exactly if they are of one interval |
| Snapshot.RetainedHistoryPaths | hf_state_snapshot.py:276-292 | the loop with its early exit keeps the first distinct history paths up to the limit |
| Snapshot.RetainedOk | hf_state_snapshot.py:276-292 | retained paths are distinct history paths among the candidates, at most as many as allowed |
| Snapshot.FirstIsRetained | hf_state_snapshot.py:285-291 | the current path is always retained |
| Snapshot.EarlierIsRetained | hf_state_snapshot.py:285-291 | whatever comes before a retained path is retained too |
| SnapshotRotation.OneOperationPerPath | hf_state_snapshot.py:372-469 | no path is named twice in a commit |
| SnapshotRotation.CommitIsWellFormed | hf_state_snapshot.py:372-469 | no path is both added and deleted, deletions name stored files, and never the current path |
| SnapshotRotation.CommitEstablishes | hf_state_snapshot.py:353-480 | after a commit the manifest names a stored file with the uploaded content and the state file has its checksum |
| SnapshotRotation.CommitFollowsSettings | hf_state_snapshot.py:353-469 | the manifest records the settings, and the own path holds the new content, nothing, or what it held, as they say |
| SnapshotRotation.LastUploadIsDownloaded | hf_state_snapshot.py:311-491 | over every sequence of runs with rotation enabled a download returns the content of the last completed upload |
| SnapshotRotation.NewestHistoryIsRetained | hf_state_snapshot.py:276-308 | with the listing, history after a commit is among the retained paths, within the limit, and all kept older files are newer by name than all deleted ones |
| SnapshotRotation.RunsShareAPath | hf_state_snapshot.py:395-401 | runs with one interval write to one path exactly if their snapshots are of one interval, and the path names the second it began |
| SnapshotRotation.UnrotatedUploadIsDownloadedIff | hf_state_snapshot.py:311-319 | exact condition for new content uploaded with rotation off to be what a download returns |
| SnapshotRotation.DownloadsOverAllRuns | hf_state_snapshot.py:311-491 | with rotation switched on and off at will, over every sequence of runs: which content was uploaded last, and exactly when a download returns it |
| SnapshotRotation.StaleUntilNewContent | hf_state_snapshot.py:395-469 | rotation switched on again for the same content keeps the manifest and the stale download; other content brings it up to date |
| SnapshotRotation.SnapshotRepository.UploadSnapshot | hf_state_snapshot.py:353-491 | the operations are collected step by step and committed at once |
| SnapshotRotation.SnapshotRepository.Rotate | hf_state_snapshot.py:395-469 | the history part of the operations |
| SnapshotRotation.SnapshotRepository.DownloadLatest | hf_state_snapshot.py:311-319 | the manifest first, then the fallback path |
| Resp.RenderReadsBack | internal/cpa/redis_queue_client.go:247-317 | every RESP2 value, nested or holding any bytes, is read back exactly and nothing after it is consumed |
| Resp.RenderIsPrefixFree | internal/cpa/redis_queue_client.go:247-317 | no encoding is a prefix of another |
| Resp.ValueExtends | internal/cpa/redis_queue_client.go:247-317 | a value once complete stays the same however the stream goes on |
| Resp.TruncatedIsError | internal/cpa/redis_queue_client.go:247-317 | a value cut short anywhere is an error, never another value |
| Resp.NullsReadBack | internal/cpa/redis_queue_client.go:268-293 | null bulk strings and null arrays are both read as nothing |
| Resp.CommandReadsBack | internal/cpa/redis_queue_client.go:208-245 | a written command is the RESP2 array of its parts and reads back as exactly those strings |
| Resp.CommandsReadBack | internal/cpa/redis_queue_client.go:208-218 | commands written one after the other read back one by one |
| Resp.Connection.ReadLine | internal/cpa/redis_queue_client.go:311-317 | up to the line feed, without it and one carriage return |
| Resp.Connection.ReadBulk | internal/cpa/redis_queue_client.go:268-286 | the payload of the announced size, the two bytes after it skipped |
| Resp.Connection.ReadItems | internal/cpa/redis_queue_client.go:300-308 | the loop reads as many values as announced and stops at the first error |
| Resp.Connection.ReadValue | internal/cpa/redis_queue_client.go:247-266 | the recursive reader consumes what the specification parses, and reports its error |
| Resp.Connection.WriteCommand | internal/cpa/redis_queue_client.go:208-218 | the writer emits the command text |
| UsageStatsStore.UsageStats.LoadUsageStats | web/src/stores/useUsageStatsStore.ts:46-64 | a load is served from the store, joined to the active request, or starts one and aborts the active one |
| UsageStatsStore.UsageStats.OnResponse | web/src/stores/useUsageStatsStore.ts:66-78 | a response is written only for the active controller |
| UsageStatsStore.UsageStats.OnError | web/src/stores/useUsageStatsStore.ts:79-94 | an error is written only for an active request that was not aborted |
| UsageStatsStore.SupersededNeverWrites | web/src/stores/useUsageStatsStore.ts:66-101 | a request that is not the newest never touches the store, however it ends |
| UsageStatsStore.LoadStartsRequest | web/src/stores/useUsageStatsStore.ts:46-64 | exactly when a load starts a request: none is live for the query, and it is forced or what is shown is for another query or too old; older requests are then aborted |
| UsageStatsStore.ShowsLastAnswer | web/src/stores/useUsageStatsStore.ts:66-78 | over every run the store shows the last answer that came for a request while it was the newest, and when |
| UsageStatsStore.KeysTellQueriesApart | web/src/stores/useUsageStatsStore.ts:29-30 | equal keys mean equal queries, for start times of one length |
| UsageStatsStore.LatestWins | web/src/stores/useUsageStatsStore.ts:25-105 | the usage shown belongs to lastQueryKey, and the store shows how the newest request ended, or that it has not |

## Left out

- HTTP routing, TCP, the SQL engine, the file system and the hosting services: each statement, commit and fetch is one atomic step that succeeds or fails.
- JSON decoding: a message is either malformed or the record it decodes to; folding of the auth type is limited to ASCII letters.
- Error texts, the stored error column and log output.
- Time zone rules beyond a fixed offset; instants before year 0 have a mirrored text that only makes the functions total.
- IngestHistory.RunKeepsOk: one iteration of alignment is one statement; its second read, which asks the inbox about a key, is never made for decoded events (`Alignment.DecodedNeedNoReference`). Two Process calls never overlap (`Drain.AtMostOneOfEach`).
- ExactlyOnceIngest.AtMostOnce: assumes of the row itself that it has a request id or a timestamp; `UnidentifiedRows.AtMostOnceIffIdentified` shows that this is exactly what it takes.
- FaithfulIngest.RetriesAddNothing: for a row without a request id, assumes that its canonical key means one content, that the events of its batch that share this key say the same under request ids that mean the same, and that no other writer stores these keys with other content; `IngestLimits.LostIffNoneIsNew` says exactly what happens without. Rows with a request id need none of it (`ExactlyOnceIngest.RequestIdsAreRetrySafe`).
- FaithfulIngest.ProcessedRowsAreFaithful: speaks of the rows whose keys have one meaning in this sense, and of a request id without a timestamp only but for the time.
- Ingest.SyncService.PullRedisUsageInbox: an insert that fails after the pop loses the messages, as in the program; histories have only pulls that store.
- Database.UsageDatabase.CleanupRedisUsageInbox: the file sizes it reports are not modelled.
- SQL LIKE: its ASCII case folding is not modelled; the pattern of a bucket is matched as a prefix.
- Overflow of the int64 counters and sums of the statistics and the overview, and memory limits.
- RecentFillConvergence.SyncConverges: assumes that all requests for one bucket and outcome, in this sync and in those before it, agree about its end, and that count times duration fits an int64; `RecentFillHistory` needs none of this.
- RecentFillHistory.OrdinalsAreInitialSegments: assumes, as all of `RecentFillHistory` and `RecentFillConvergence` do, that no other writer stores a key that starts with "auth-files-recent:"; a request id of a queue message could.
- RecentFill.KeyInjective: the program cuts the hash of an identity in the key to eight bytes; here it is injective.
- SnapshotRotation.SnapshotRepository.Rotate: times are whole seconds of Unix time, from 1970 on.
- SnapshotRotation.LastUploadIsDownloaded: no other writer, and a repository path in normal form as `pathlib` prints it.
- Migrations that find their tables or columns missing and do nothing, and the order of migrations other than the two backfills.
- Manifest fields that are written and never read back, and LFS pruning.
- Overview: request details of the usage snapshot, the nine parallel maps of a series (one map of records here, with the same keys), and the price table itself, which is a parameter.
- Overview requests with a range or a filter, which bypass the cache.
- OverviewCache.NobodyIsStuck: a build that never ends is not covered.
- Drain: the status fields and the sleeping of the two loops.
- Resp: allocation of the announced sizes, which the program makes before it reads the payload.
- UsageStatsStore: `clearUsageStats`, which resets fields without cancelling the request.
- Queue fetching over HTTP with shards, pricing lookup, pagination, filters other than the overview query, sessions, login limits, configuration, redaction and presentation code: short branches or thin wrappers.
