# Blob-authenticated messaging, verified

A Dafny model of the parts of the repository that carry its hard promises, with proofs. Where the source updates
state step by step the model does too: classes for the store adapter, the indexer process, the comment nodes and the
mounted widget, loops over arrays for the codecs. Each such method is proved against a function or relation, and the
lemmas prove what the source promises about that function, over every input, every run or every reachable state.

`dafny verify dfyconfig.toml` checks the whole project.

## What is modelled

**Store** (`Store`, `StoreLifecycle`, `StoreContents`, `NonceCodec`, `Text`). Three tables as maps, one atomic
transaction a step, a throw rolling back. Runs interleave all operations, including operator deletes.

**Nonce monotonicity and reorg watcher** (`Monotonicity`, `ReorgWatcher`). The ERC-8180 nonce check with its lazily
seeded tracker, and one watcher tick against a fixed view of the chain.

**Indexer framework** (`Indexer`, `IndexerInvariant`, `IndexerTheorems`, `IndexerLanding`, `IndexerTies`,
`IndexerLeftovers`, `IndexerReconfirm`, `IndexerExamples`, `IndexerContents`, `IndexerGenerations`, `IndexerProcess`,
`IndexerSource`). A state machine over two databases: transactions of a tick, failures at any row, crashes anywhere,
restarts with another version, resets, and a source that grows and reorgs between any two of them. Its environment is
spelled out in `SourceOk`, `Grows` and `Reorgs`: live rows of a (chain, tag) have distinct coordinates; a message id
belongs to one (sender, nonce); new rows land above the cursor and above the last fetched row; each reorg of a tag
carries a larger `invalidated_at` than those before; a reorged batch is not confirmed again. `IndexerSource` shows
that the store's own operations are such steps. `IndexerLanding` drops the condition on where rows land, which a
backfill of the Reader can break (packages/bam-reader/src/loop/backfill.ts:92-98), and says which rows are lost then;
`IndexerTies` and `IndexerLeftovers` drop the one on timestamps, and `IndexerReconfirm` the one on confirming again.
`IndexerExamples` holds a run for each of the first two. `IndexerContents` says what stands in a post,
`IndexerGenerations` how long a generation lasts. What crashes and resets at the wrong moment do is stated exactly as
well (`CrashInsideResetCoversIff`, `ResetDuringTickCoversIff`).

**BPE codec** (`Bpe`, `BpeGreedy`, `BpeTraining`, `BpeOrder`, `BpeLayout`, `BpeTheorems`). Training, code assignment,
the 10240-byte layout, encoding, decoding, and the two ways to load a dictionary.

**Comment tree** (`ThreadForest`, `Thread`). `ThreadForest` says what the forest of a set of messages is; `Thread`
builds it with maps, a queue and mutable nodes. Equal hashes are taken to have equal parent links.

**Comment widget** (`Widget`, `WidgetTheorems`, `WidgetPosts`, `WidgetView`, `WidgetInstance`). Suspended calls are
program counters; clicks are possible only on what the last render put on the page.

**Batch codec, segments, commitments** (`BigEndian`, `BatchCodec`, `Segment`, `Coprocessor`). The format is a relation
between buffers and messages; both decoders are proved to be its inverse.

**Timeline** (`Timeline`, `TimelinePaths`, `TimelineContents`, `TimelineAgreement`, `TimelineRoot`). The timeline as a
function of decoded tweets, the two paths that lead to it, what stands in it, and the bytes under its root.

**Beacon slot search** (`SlotSearch`, `SlotSearchTheorems`). Both programs over any chain of missed and filled slots.

## Where the code and its own words differ

- The header of `tick.ts` takes reorg ties for safe; the bound is exclusive, so a tie cut by the limit or a failure
  is lost and its posts stay (`IndexerTheorems.PartialPassCompleteIff`, `IndexerLeftovers.TieIndexAgreesIff`).
- `bpe.ts` takes every code to sit at the fixed offset of its tier; a trained dictionary obeys that exactly when the
  zero quad is not among the chosen ones (`BpeTheorems.CanonicalLayoutIff`).
- The monotonicity check takes an equal nonce and hash for a retry of what is stored; after a reorg of that message it
  acknowledges what is not (`Monotonicity.NoOpIsTrueIff`, `Monotonicity.RetryAfterReorgIsSwallowed`).
- `estimateBatchSize` is documented as a bound; for codec none it is the exact size
  (`BatchCodec.EstimateIsEncodedSize`).
- `onSubmit` can ask for an account, but no run reaches that branch: a composer needs an account
  (`WidgetTheorems.OneSubmitInFlight`).
- The comment on `opEpoch` is about drafts; the request to the Poster itself is not called off
  (`WidgetTheorems.OvertakenSubmitPostsIff`).

## Model

| member | source | states |
|---|---|---|
| IndexerTheorems.CleanTickAgrees | packages/bam-indexer/src/framework/tick.ts:62-122 | after any past whatsoever, a tick that meets no failure and fills no limit, while rows are confirmed at any moment and batches reorged until the tick asks for them, leaves the current generation equal, id by id, to projecting at once the source up to its cursor, every row live since the tick began at or below that cursor, and every post of any generation backed by a live row; with no row confirmed meanwhile it equals projecting the whole source |
| IndexerTheorems.IndexAgreesUpToCursor | packages/bam-indexer/src/source/bam-store-source.ts:73-127 | in any reachable state whose reorg cursor has caught up, the current generation holds what projecting the rows up to its cursor gives, and nothing beyond |
| IndexerTheorems.IndexAgreesWithRecompute | packages/bam-indexer/src/source/bam-store-source.ts:73-127 | when both cursors have caught up with the source, it equals projecting the whole source; no post of a reorged batch is left in any generation |
| IndexerTheorems.IndexersConverge | packages/bam-indexer/src/framework/tick.ts:62-122 | two indexers that have caught up with one source hold the same posts, whatever limits, failures, crashes and resets each went through |
| IndexerContents.EveryRowHasItsPost | packages/bam-indexer/src/handlers/post-reply/handler.ts:70-126 | in every reachable state, each confirmed row of the chain and tag that decodes and is not past the cursor has a post whose slot, hash, batch, three coordinates, kind, time, text and parent are those of the row and its decoded contents |
| IndexerContents.EveryPostHasItsRow | packages/bam-indexer/src/handlers/post-reply/handler.ts:70-126 | and once the reorg cursor has caught up, every post of every generation is that of such a row, decoded at the generation's own version |
| IndexerTheorems.RunKeepsInv | packages/bam-indexer/src/framework/tick.ts:62-252 | the invariant (one current cursor, every post backed, every row at or below the cursor accounted for, every passed reorg cascaded) holds in every state of every run |
| IndexerInvariant.StepKeepsInv | packages/bam-indexer/src/framework/tick.ts:62-252 | every transaction, failure, crash, restart, reset and change of the source keeps the invariant |
| IndexerInvariant.StepKeepsLite | packages/bam-indexer/src/framework/tick.ts:62-252 | all of it but the part about passed reorgs survives even when reorgs carry any timestamps: a post whose batch is reorged may then be left |
| IndexerTheorems.AtMostOneCurrent | packages/bam-indexer/src/framework/cursor.ts:54-56 | a handler has at most one current generation, and it carries the deployed version |
| IndexerTheorems.CursorsNeverMoveBack | packages/bam-indexer/src/framework/tick.ts:94-119 | neither cursor of a generation moves back while the generation exists |
| IndexerTheorems.CommittedExactlyOnce | packages/bam-indexer/src/framework/tick.ts:136-208 | a live row at or below the current cursor has exactly one commit of that generation: a projection if it decodes, a drop if it does not |
| IndexerTheorems.ReorgPassComplete | packages/bam-indexer/src/framework/tick.ts:210-252 | every reorg whose timestamp the persisted reorg cursor has reached was cascaded, and no post of its batch is left in any generation |
| IndexerTheorems.TickWritesAreAdmitted | packages/bam-indexer/src/framework/cursor.ts:149-187 | the one-current index never rejects a write of a tick: a commit fails only on a row that decodes but lacks its id, batch or coordinates |
| IndexerLanding.LandingUncoversIff | packages/bam-indexer/src/source/bam-store-source.ts:73-108 | confirmed rows may land anywhere, as a backfill can make them: after such growth every row at or below the cursor is still accounted for exactly when every new row lands above the cursor |
| IndexerLanding.RowBelowCursorIsLost | packages/bam-indexer/src/framework/tick.ts:94-106 | in every run over a source that grows anywhere, a row at or below a generation's cursor that the generation has not committed is never committed by it |
| IndexerLanding.LandedBelowIsLost | packages/bam-indexer/src/framework/tick.ts:62-122 | a row that lands at or below the cursor is lost to the generation: as long as it lasts and the row stays live, a caught-up index agrees with recomputing the row's id exactly when the row makes no post |
| IndexerLanding.LooseIndexAgreesIff | packages/bam-indexer/src/framework/tick.ts:62-122 | over a source that grows anywhere, a caught-up index agrees with recomputing an id exactly when there is nothing to hold or the generation committed the row, and it never holds a wrong post |
| IndexerExamples.BackfilledRowIsMissing | packages/bam-indexer/src/source/bam-store-source.ts:73-108 | an index that has projected block 5 when block 3 gets its row has caught up and lacks the post of that row |
| IndexerLanding.LooseStepKeepsInv | packages/bam-indexer/src/framework/tick.ts:62-252 | without the rows its generation has let go by, the system over a source that grows anywhere stays in the invariant |
| IndexerLanding.FreshGenerationOverlooksNothing | packages/bam-indexer/src/framework/migrate.ts:42-107 | a version bump ends the loss: the fresh generation has let no row go by |
| IndexerTheorems.PartialPassCompleteIff | packages/bam-indexer/src/source/bam-store-source.ts:110-127 | a reorg pass cut by its limit or by a failure skips nothing exactly when no unprocessed reorg shares the last timestamp it reached |
| IndexerTheorems.TiedReorgIsLost | packages/bam-indexer/src/source/bam-store-source.ts:110-127 | two reorgs of one millisecond and a limit of one: the second is never listed again |
| IndexerTies.ReorgPassCompleteIff | packages/bam-indexer/src/framework/tick.ts:108-119 | in every run whose reorgs are stamped by a clock that only never goes back, the reorg pass is complete throughout exactly when no reorg tied with the cursor is ever left behind |
| IndexerTies.ReorgBehindCursorIsLost | packages/bam-indexer/src/framework/tick.ts:210-252 | a reorg that a generation's reorg cursor has gone past without cascading it is never cascaded by that generation at the time it carries |
| IndexerTies.UntiedRunIsComplete | packages/bam-indexer/src/framework/tick.ts:108-119 | the pass is complete throughout any run without one of four steps: a listing cut inside a millisecond, a failure or a crash whose next entry carries the cursor's millisecond, a reorg stamped with that millisecond or with the last one listed |
| IndexerTies.TieIsLeft | packages/bam-indexer/src/framework/tick.ts:108-119 | such a failure, crash or stamp does leave a tie behind when the batch it passes by has not been cascaded |
| IndexerLeftovers.TieIndexAgreesIff | packages/bam-indexer/src/framework/tick.ts:62-122 | over such a clock a caught-up index agrees with recomputing an id exactly when it holds for it no post of a reorged batch that the reorg cursor has passed and not cascaded |
| IndexerLeftovers.UntiedIndexAgrees | packages/bam-indexer/src/framework/tick.ts:62-122 | so it agrees on every id when no step left a tie behind |
| IndexerExamples.TiedReorgLeavesPost | packages/bam-indexer/src/source/bam-store-source.ts:110-127 | a run from the empty database in which two batches are reorged in one millisecond under a limit of one: it ends caught up and holds the post of the second |
| IndexerReconfirm.ReconfirmedRowAgreesIff | packages/bam-store/src/postgres.ts:635-669 | a reorged transaction can be mined again: once the cursor has reached a row that came to be live, the index agrees on its id exactly when the row landed above the cursor or its post, just as it would be made now, was still there |
| IndexerTheorems.CrashInsideResetCoversIff | packages/bam-indexer/src/framework/migrate.ts:113-131 | resetHandler uses no transaction: after a crash between its two steps the cursor still accounts for the source exactly when nothing at or below it decodes |
| IndexerGenerations.StartKeepsIff | packages/bam-indexer/src/framework/migrate.ts:51-103 | a process start keeps the current generation, and then touches nothing, exactly when the deployed version is its own; otherwise it marks that one superseded at that time, adds one at genesis, and touches nothing else |
| IndexerGenerations.FirstStartAddsOne | packages/bam-indexer/src/framework/migrate.ts:51-63 | a start without a current generation adds one at genesis and touches nothing else |
| IndexerGenerations.GenerationEndsIff | packages/bam-indexer/src/framework/migrate.ts:42-185 | a step ends the current generation exactly when it is a start of another version, a reset of this generation, or of all |
| IndexerGenerations.GenerationLasts | packages/bam-indexer/src/framework/migrate.ts:42-185 | over a run the current generation stays current, at its version, until one of these three comes |
| IndexerTheorems.ResetDuringTickCoversIff | packages/bam-indexer/src/framework/migrate.ts:113-160 | a generation reset while a tick holds its cursor, in the forward phase or in the reorg phase, comes back with the next commit; it then accounts for the source exactly when none of the deleted rows decodes |
| IndexerSource.MarkReorgedIsSourceReorg | packages/bam-store/src/postgres.ts:547-580 | the store operation markReorged is a reorg of the source whatever its timestamp, and the machine's own reorg step when that is later than all before on the tag |
| IndexerSource.StoreStepIsSourceGrowth | packages/bam-store/src/postgres.ts:292-545 | every other non-deleting store transaction that leaves the set of reorged batches alone is growth of the source, and the machine's growth step when the rows it makes live land above the high-water mark |
| IndexerProcess.Process.ReadCurrentCursor | packages/bam-indexer/src/framework/tick.ts:124-134 | returns the current cursor, or nothing exactly when there is none |
| IndexerProcess.Process.ProjectOne | packages/bam-indexer/src/framework/tick.ts:136-208 | commits post and cursor together or rolls both back; a failure on a row that does not decode leaves the tick |
| IndexerProcess.Process.ReorgOne | packages/bam-indexer/src/framework/tick.ts:210-252 | commits eviction and reorg cursor together, or neither |
| IndexerProcess.Process.ForwardLoop | packages/bam-indexer/src/framework/tick.ts:80-106 | leaves the database, cursor and counters of the forward pass over the list, stopping at the first failure |
| IndexerProcess.Process.CascadeLoop | packages/bam-indexer/src/framework/tick.ts:108-119 | leaves the database of the cascade pass and counts its commits |
| IndexerProcess.Process.TickHandler | packages/bam-indexer/src/framework/tick.ts:62-122 | one whole tick: both listings, both passes, all four counters |
| IndexerProcess.Process.MigrateHandler | packages/bam-indexer/src/framework/migrate.ts:42-107 | process start bootstraps, keeps or supersedes, and ends with one current cursor at the deployed version |
| IndexerProcess.Process.ResetHandlerVersion | packages/bam-indexer/src/framework/migrate.ts:133-160 | deletes the cursor and the posts of one generation |
| IndexerProcess.Process.ResetHandlerCurrent | packages/bam-indexer/src/framework/migrate.ts:162-185 | does that for the current generation, or nothing |
| IndexerProcess.ListConfirmedAfter | packages/bam-indexer/src/source/bam-store-source.ts:73-108 | the live rows strictly after a coordinate in coordinate order, all of them or the first `limit` |
| IndexerProcess.ListReorgedAfter | packages/bam-indexer/src/source/bam-store-source.ts:110-127 | the reorged batches strictly after a timestamp in (timestamp, tx hash) order, all of them or the first `limit` |
| IndexerProcess.ForwardPassIsRun | packages/bam-indexer/src/framework/tick.ts:94-106 | the forward pass, with any pattern of failures, is a run of the machine |
| IndexerProcess.CascadePassIsRun | packages/bam-indexer/src/framework/tick.ts:108-119 | so is the cascade pass |
| IndexerProcess.ForwardPassStops | packages/bam-indexer/src/framework/tick.ts:94-106 | the pass commits, in order, the rows before the first whose transaction fails or that decodes but lacks an id, a batch or a coordinate; a failure on a row that does not decode leaves the tick |
| IndexerProcess.CascadePassStops | packages/bam-indexer/src/framework/tick.ts:108-119 | the cascade commits, in order, the entries before the first that fails |
| IndexerProcess.ProjectedIsCounted | packages/bam-indexer/src/framework/tick.ts:94-106 | the counter of projected rows is the number of commits that projected one |
| IndexerProcess.TickKeepsInv | packages/bam-indexer/src/framework/tick.ts:62-122 | a tick from an invariant state ends in one, whatever fails on the way, even if an exception leaves it, and however the source moves between the two reads |
| Store.BamStore.Insert | packages/bam-store/src/postgres.ts:292-339 | insertPending reclaims a reorged slot, fails on any other row of the slot, and changes nothing when it fails |
| Store.BamStore.Submit | packages/bam-store/src/postgres.ts:472-493 | markSubmitted in chunks of 500 succeeds exactly when every key is distinct within its chunk and still pending when reached, and otherwise rolls back |
| Store.BamStore.Observe | packages/bam-store/src/postgres.ts:495-545 | upsertObserved leaves a confirmed row of the same hash alone, throws on another hash, and otherwise writes the row |
| Store.BamStore.Reorg | packages/bam-store/src/postgres.ts:547-580 | markReorged turns every batch row of the tx and every confirmed message attached to it, and throws when there is no such batch |
| Store.BamStore.WriteBatch | packages/bam-store/src/postgres.ts:635-669 | upsertBatch merges: coalesced fields and a non-empty snapshot survive an incoming null or empty |
| Store.BamStore.WriteNonce | packages/bam-store/src/postgres.ts:426-441 | setNonce writes the tracker under the lower-cased sender |
| StoreContents.ThrowsIff | packages/bam-store/src/postgres.ts:292-545 | each operation throws exactly on its own condition: a nonce out of range, a slot held by a row that is not reorged, keys repeated or not pending, another hash, no such batch |
| StoreContents.MessageRowStep | packages/bam-store/src/postgres.ts:292-580 | what each operation that does not throw leaves in one message row, column by column |
| StoreContents.BatchRowStep | packages/bam-store/src/postgres.ts:547-720 | and in one batch row: an upsert overwrites status, hashes, block, position and reorg time, an incoming value wins over a stored one in the coalesced fields, and a patch sets what it names |
| StoreContents.TrackerStep | packages/bam-store/src/postgres.ts:426-441 | only setNonce moves a tracker, that of its lower-cased sender |
| StoreContents.RowIsItsWrite | packages/bam-store/src/postgres.ts:292-545 | in every run, all of a message row but its status and batch is what an insert or an observation of its own sender and nonce wrote |
| StoreContents.UpsertedBatchHolds | packages/bam-store/src/postgres.ts:635-669 | until the next operation on it, an upserted batch holds the incoming status, block, hashes and reorg time, and in the sticky fields what came in or else what stood there |
| StoreLifecycle.OneRowPerSenderNonce | packages/bam-store/src/postgres.ts:292-339 | over any run there is one row for each sender, however cased, and nonce |
| StoreLifecycle.ConfirmedRowStep | packages/bam-store/src/postgres.ts:495-580 | a confirmed row is changed by exactly the operations that release it (its reorg, an operator delete) and do not throw |
| StoreLifecycle.ConfirmedRowFrozen | packages/bam-store/src/postgres.ts:495-580 | payload, hash and coordinates of a confirmed row are frozen over any run that does not release it |
| StoreLifecycle.HashChangeStep | packages/bam-store/src/postgres.ts:292-339 | one step gives a slot a different message only by insertPending over a reorged row |
| StoreLifecycle.SlotReclaimedOnlyWhenVacant | packages/bam-store/src/postgres.ts:292-339 | over a run, a slot holds another message only after a moment at which it was empty or reorged |
| StoreLifecycle.BatchFieldsSticky | packages/bam-store/src/postgres.ts:635-669 | no run without an operator delete empties a snapshot or nulls a coalesced field |
| StoreLifecycle.ReplacementSticky | packages/bam-store/src/postgres.ts:635-703 | replacedByTxHash goes back to null only by an explicit status update |
| Monotonicity.CheckMonotonicity | packages/bam-poster/src/ingest/monotonicity.ts:40-63 | decides on the tracker, or on the seed it caches when there is none, and touches nothing else |
| Monotonicity.DecisionFromTable | packages/bam-poster/src/ingest/monotonicity.ts:40-63 | where the tracker names a stored row and covers the others, the answer follows from the message table alone: above every taken nonce accept, the highest one under its own hash no_op with the stored hash, all else stale; a different message at a taken nonce is always rejected |
| Monotonicity.SecondCheckAgrees | packages/bam-poster/src/ingest/monotonicity.ts:46-53 | the seed is cached: a second check decides on the same row |
| Monotonicity.GetMaxNonReorgedNonce | packages/bam-store/src/postgres.ts:443-470 | the row with the greatest nonce text among the sender's rows that are not reorged |
| Monotonicity.SeedIsNumericMaximum | packages/bam-store/src/postgres.ts:443-470 | that row has the numeric maximum, although the column is ordered as text |
| Monotonicity.DuplicateIffTaken | packages/bam-store/src/postgres.ts:292-339 | insertPending raises a duplicate exactly on a slot with a row that is not reorged |
| Monotonicity.AcceptMeansInsertable | packages/bam-poster/src/ingest/monotonicity.ts:40-63 | every accept is insertable exactly when the tracker is absent or covers every row that is not reorged |
| Monotonicity.IngestKeepsCoverage | packages/bam-poster/src/ingest/pipeline.ts:123-165 | an accepted ingest that tracks and inserts together succeeds for every nonce in range and keeps all trackers covering |
| Monotonicity.ObservationKeepsCoverageIff | packages/bam-store/src/postgres.ts:495-545 | an observed row keeps the tracker covering exactly when there is no tracker, the nonce is not above it, or the row is reorged |
| Monotonicity.NoOpIsTrueIff | packages/bam-poster/src/ingest/monotonicity.ts:40-63 | every no_op names a message that is stored and not reorged exactly when the tracker does |
| Monotonicity.IngestKeepsTrackerStored | packages/bam-poster/src/ingest/pipeline.ts:123-165 | an accepted ingest makes its tracker name a stored message and leads no other tracker astray |
| Monotonicity.ReorgVacatesIff | packages/bam-store/src/postgres.ts:547-580 | a reorg leaves a tracker naming a stored message unless that very row was confirmed in the reorged transaction |
| Monotonicity.RetryAfterReorgIsSwallowed | packages/bam-poster/src/ingest/monotonicity.ts:40-63 | then a retry of that message is answered no_op and nothing is stored, although insertPending would take it |
| Monotonicity.ReorgedMessage | packages/bam-store/src/postgres.ts:547-580 | one such state: a message ingested, confirmed and reorged |
| NonceCodec.NonceRoundTrip | packages/bam-store/src/nonce-codec.ts:19-38 | decoding undoes encoding, and only canonical texts decode |
| NonceCodec.NonceOrder | packages/bam-store/src/nonce-codec.ts:19-38 | the padded texts are ordered as the numbers |
| ReorgWatcher.ClampReorgWindow | packages/bam-reader/src/reorg-watcher.ts:59-62 | the window lies within its bounds and rounds down inside them |
| ReorgWatcher.Tick | packages/bam-reader/src/reorg-watcher.ts:67-99 | against a fixed chain view one tick does not throw, reorgs exactly the candidates off chain with their messages, and counts reorged + kept = candidates |
| ReorgWatcher.TickCleansWindow | packages/bam-reader/src/reorg-watcher.ts:67-99 | afterwards the window holds no confirmed batch of this chain that is off chain and no confirmed message attached to one; other chains are untouched |
| BpeTraining.CountWindows | packages/bam-sdk/src/bpe.ts:55-74 | fills the three maps window by window |
| BpeTraining.TallyIsCount | packages/bam-sdk/src/bpe.ts:55-74 | a map holds each window of the corpus once, with the number of its occurrences |
| BpeTraining.TopTokens | packages/bam-sdk/src/bpe.ts:76-122 | assigns the chosen tokens their codes tier by tier |
| BpeTraining.TopIsFromCorpus | packages/bam-sdk/src/bpe.ts:76-122 | a tier's choice is distinct windows of the corpus |
| BpeTraining.LeftOutIsRarer | packages/bam-sdk/src/bpe.ts:76-122 | a window left out of its tier is no more frequent than any window chosen |
| BpeOrder.TierIsRanked | packages/bam-sdk/src/bpe.ts:76-122 | the tokens of a tier are in order of rank, more frequent first and first seen first among equals, and outrank every other window of the corpus |
| BpeOrder.RankGivesCode | packages/bam-sdk/src/bpe.ts:76-122 | in a trained dictionary the quads have codes from 1 in order of rank, triples from 1024, pairs from 2048, bytes from 3072, and nothing else has a code but the padding quad, which has 0 |
| BpeOrder.TokenIsItsCell | packages/bam-sdk/src/bpe.ts:124-165 | each token stands at the offset and with the length its code names, in cells packed from 0, 4096, 7168 and 9216 |
| BpeOrder.OtherCodesAreEmpty | packages/bam-sdk/src/bpe.ts:124-165 | a code without a token has offset and length zero |
| BpeTraining.TrainedMapIsTrained | packages/bam-sdk/src/bpe.ts:76-122 | the built map assigns exactly the codes of the tier layout, also when the zero quad was chosen and took over the padding code |
| BpeLayout.MakeDictBlobs | packages/bam-sdk/src/bpe.ts:124-165 | every byte, offset and length of the 10240-byte layout is the one its tier prescribes |
| BpeLayout.BuildDictionary | packages/bam-sdk/src/bpe.ts:167-191 | training on any corpus gives a dictionary laid out for the tokens chosen from it |
| Bpe.BpeEncode | packages/bam-sdk/src/bpe.ts:301-372 | emits the greedy longest-match codes, padded to a pair and packed twelve bits each |
| BpeGreedy.EncodedIsGreedy | packages/bam-sdk/src/bpe.ts:301-372 | the output holds, twelve bits each and padded with a zero code to an even number, the codes of pieces whose concatenation is the text, each the longest of four, three or two bytes in the map there (a quad with code 0 apart) or else one byte |
| BpeGreedy.OneGreedyCode | packages/bam-sdk/src/bpe.ts:301-372 | there is exactly one such cut of a text and one such output |
| Bpe.BpeDecode | packages/bam-sdk/src/bpe.ts:374-418 | rejects a length that is no multiple of three and otherwise writes the token of every code but the padding |
| BpeGreedy.DecodedIsWritten | packages/bam-sdk/src/bpe.ts:374-418 | the output is, for each group of twelve bits but zero, the bytes at the offset of that code in the dictionary, as many as its length |
| Bpe.RoundTrip | packages/bam-sdk/src/bpe.ts:301-418 | text encoded with any map decodes with any dictionary that reads that map |
| BpeTheorems.TrainedRoundTrip | packages/bam-sdk/src/bpe.ts:301-418 | for every corpus and text the round trip holds, padding code 0 is never data, and the size is between 3*ceil(n/8) and 3*ceil(n/2) |
| BpeTheorems.CanonicalLayoutIff | packages/bam-sdk/src/bpe.ts:124-165 | every assigned code sits at its canonical offset exactly when the zero quad was not chosen |
| BpeTheorems.BpeDictionaryFromBytes | packages/bam-sdk/src/bpe.ts:193-236 | rebuilds from 10240 bytes, canonical cells, the first code of each token winning; any other size throws |
| BpeTheorems.RebuiltReadsIff | packages/bam-sdk/src/bpe.ts:193-236 | the rebuilt dictionary reads every trained code exactly when the zero quad was not chosen or was the only quad chosen |
| BpeTheorems.CrossDecodeIff | packages/bam-sdk/src/bpe.ts:193-236 | text encoded with the trained dictionary decodes with the rebuilt one, for every text, exactly then |
| BpeTheorems.RebuiltEncodesIff | packages/bam-sdk/src/bpe.ts:193-236 | text encoded with the rebuilt dictionary decodes with the trained one, for every text, exactly when the quads are readable and no gap of the triple or pair tier exposes a zero token |
| BpeTheorems.ZeroCorpusShifts | packages/bam-sdk/src/bpe.ts:124-159 | trained on four zero bytes the layout is shifted, and every text still decodes |
| BpeTheorems.ZeroOneCorpusMisreads | packages/bam-sdk/src/bpe.ts:124-159 | trained on four zeros and a one, the encoding of four zeros decodes to three zeros and a one |
| BpeTheorems.RebuiltMapIff | packages/bam-sdk/src/bpe.ts:193-236 | the rebuilt map equals the trained one exactly when the zero quad was not chosen and no gap of the triple or pair tier exposes a zero token |
| BpeTheorems.RebuiltRoundTripIff | packages/bam-sdk/src/bpe.ts:193-236 | any 10240 bytes give a lossless dictionary exactly when every byte value occurs in the last tier |
| BpeTheorems.SerializeDictionary | packages/bam-sdk/src/bpe.ts:238-255 | token bytes, big-endian offsets, lengths |
| BpeTheorems.SerializedAt | packages/bam-sdk/src/bpe.ts:238-255 | each part stands at its place: token bytes, offsets in two bytes with the high one first, lengths |
| BpeTheorems.DeserializeDictionary | packages/bam-sdk/src/bpe.ts:257-289 | reads the parts back, the last code of each token winning; too short throws |
| BpeTheorems.SerializeRoundTrip | packages/bam-sdk/src/bpe.ts:238-289 | serialize then deserialize is the identity on every trained dictionary |
| ThreadForest.ForestHoldsSurvivors | packages/bam-comments/src/thread.ts:43-145 | the forest holds each message whose links reach a parentless one in at most 1023 steps, once, and nothing else; roots are the parentless ones; depth grows by one a link, display depth is its minimum with 2, siblings are in (timestamp, hash) order |
| ThreadForest.ForestIgnoresArrivalOrder | packages/bam-comments/src/thread.ts:43-107 | two orders of the same messages with distinct hashes give the identical ordered forest |
| Thread.IsReachableRoot | packages/bam-comments/src/thread.ts:120-145 | the visited-set walk answers exactly whether the links reach a root within the cap |
| Thread.RevisitMeansCycle | packages/bam-comments/src/thread.ts:128-132 | a walk that meets a link it has followed reaches no root at all |
| Thread.FilterSurvivors | packages/bam-comments/src/thread.ts:54-59 | keeps exactly the reachable messages, the last of each hash |
| Thread.MakeNodes | packages/bam-comments/src/thread.ts:61-72 | one fresh node for each survivor |
| Thread.LinkNodes | packages/bam-comments/src/thread.ts:74-85 | files every node under its parent, or among the roots |
| Thread.SortedHaving | packages/bam-comments/src/thread.ts:92-104 | sorting what was filed under a parent gives its replies in (timestamp, hash) order |
| Thread.Attach | packages/bam-comments/src/thread.ts:93-98 | the replies join the node and the queue, one deeper than it |
| Thread.Walk | packages/bam-comments/src/thread.ts:87-99 | the breadth-first walk terminates and gives every node its depth, display depth and sorted replies |
| Thread.BuildThread | packages/bam-comments/src/thread.ts:43-102 | the objects returned are the forest of the messages |
| WidgetTheorems.OneSubmitInFlight | packages/bam-comments/src/render.ts:213-261 | in every run `submitting` says that exactly one submit of the current epoch is in flight, there is never a second, and no composer is open without an account |
| WidgetTheorems.StepKeepsInv | packages/bam-comments/src/render.ts:112-261 | every click, wallet event, poll and completion keeps that invariant and the agreement of page and state |
| WidgetTheorems.OvertakenSubmitsAreInert | packages/bam-comments/src/render.ts:228-260 | whatever answers they get, submits overtaken by a disconnect change nothing the widget shows or remembers |
| WidgetTheorems.OvertakenSubmitPostsIff | packages/bam-comments/src/render.ts:240-305 | an overtaken submit hands its comment to the Poster in some run from there exactly when it was past the chain check and had a request left to make; otherwise in no interleaving at all |
| WidgetTheorems.AtMostNinePosts | packages/bam-comments/src/render.ts:263-305 | no click on Submit makes more than nine requests |
| WidgetTheorems.SubmitOutcome | packages/bam-comments/src/render.ts:213-240 | a click on Submit sends the trimmed draft, its place and the account as they stand, or shows an error, or does nothing |
| WidgetPosts.ClickDecidesItsPosts | packages/bam-comments/src/render.ts:213-305 | in every run, whatever the task of a click on Submit hands to the Poster carries the trimmed draft, the place and the account of that click, and the nonce its task was answered last |
| WidgetPosts.PostHasItsClick | packages/bam-comments/src/render.ts:213-305 | and every message handed over has such a click |
| WidgetPosts.HandedOverIff | packages/bam-comments/src/render.ts:263-305 | an event of a run hands over one message exactly when it completes the signature asked for after a nonce |
| WidgetView.SubmitGetsThrough | packages/bam-comments/src/render.ts:213-305 | a click on Submit whose answers are all good hands over one message, closes the composer and is over |
| WidgetView.SubmitGoesOnIff | packages/bam-comments/src/render.ts:234-305 | which answers a submit survives, and what it asks for next |
| WidgetView.StartedBy | packages/bam-comments/src/render.ts:195-345 | which steps start a connect, a refresh or a submit, and with what |
| WidgetView.AccountIsWallet | packages/bam-comments/src/render.ts:138-345 | in every run the account is what the events say: a disconnect forgets it and vetoes what the wallet offers by itself until the next click on connect; a finished connect always counts |
| WidgetView.MessagesAreTheThread | packages/bam-comments/src/render.ts:113-131 | in every run the messages are those the last refresh brought before the widget was taken down |
| WidgetView.ComposerStep | packages/bam-comments/src/render.ts:133-261 | when the composer opens, takes text, and closes |
| WidgetView.ErrorStep | packages/bam-comments/src/render.ts:113-261 | what each step leaves in the error line |
| WidgetView.LoadingStep | packages/bam-comments/src/render.ts:113-131 | the page is loading until the first refresh is answered, well or badly |
| WidgetView.WiredStep | packages/bam-comments/src/render.ts:179-211 | a finished connect subscribes to the wallet's event, and nothing else changes the subscription |
| WidgetTheorems.DisconnectLastsIff | packages/bam-comments/src/render.ts:138-211 | after a click on Disconnect no run without a click on Connect brings an account back, exactly when no connect was in flight |
| WidgetTheorems.SuccessDiscardsOnlyItsOwnDraft | packages/bam-comments/src/render.ts:244-254 | a submit that succeeds clears its own draft or nothing, never text typed after it was sent |
| WidgetTheorems.DraftKeptIff | packages/bam-comments/src/render.ts:179-193 | while a submit is in flight the composer keeps its text exactly until the wallet reports a disconnect |
| WidgetTheorems.SubmitNeedsARender | packages/bam-comments/src/render.ts:426-470 | typing does not render: in a composer opened empty Submit stays disabled until the next render, and then is enabled exactly for a draft that is not blank |
| WidgetInstance.Instance.constructor | packages/bam-comments/src/render.ts:94-345 | a mounted instance starts in the initial state and the invariant |
| WidgetInstance.Instance.HandleDisconnect | packages/bam-comments/src/render.ts:138-156 | the new state of every variable |
| WidgetInstance.Instance.HandleStartCompose | packages/bam-comments/src/render.ts:157-161 | keeps the draft, moves the composer |
| WidgetInstance.Instance.HandleAccountsChanged | packages/bam-comments/src/render.ts:179-193 | ignored after a manual disconnect unless it reports null |
| WidgetInstance.Instance.HandleConnect | packages/bam-comments/src/render.ts:195-211 | clears the veto, then waits for the wallet or shows why not |
| WidgetInstance.Instance.HandleSubmit | packages/bam-comments/src/render.ts:213-240 | all guards, then one task of the current epoch |
| WidgetInstance.Instance.ContinueConnect | packages/bam-comments/src/render.ts:195-211 | each step of a connect after its await |
| WidgetInstance.Instance.ContinueSubmit | packages/bam-comments/src/render.ts:228-305 | each step of a submit after its await, epoch checks included |
| WidgetInstance.Instance.Deliver | packages/bam-comments/src/render.ts:94-345 | any event moves the object as the machine steps and keeps the invariant |
| BatchCodec.EncodeBatch | packages/bam-sdk/src/batch.ts:62-150 | succeeds exactly on parallel, well-formed messages and then gives header and records; otherwise names the first thing wrong |
| BatchCodec.EncodedHeader | packages/bam-sdk/src/batch.ts:62-150 | the first ten bytes: version 2, the codec, the count and the payload size in four bytes each; the payload follows |
| BatchCodec.RecordOpens | packages/bam-sdk/src/batch.ts:62-150 | a record holds sender, nonce, contents length, contents and signature at fixed places |
| BatchCodec.DecodeBatch | packages/bam-sdk/src/batch.ts:158-211 | returns what the buffer says under the format and fails exactly when it says nothing, naming the first thing wrong |
| BatchCodec.OneComplaint | packages/bam-sdk/src/batch.ts:158-209 | every rejected buffer has one first thing wrong with it, record index included |
| BatchCodec.SaysOne | packages/bam-sdk/src/batch.ts:6-30 | a buffer says one thing at most |
| BatchCodec.PrefixCode | packages/bam-sdk/src/batch.ts:19-30 | records form a prefix code: as many records with the same bytes, whatever follows, are the same records |
| BatchCodec.RoundTripIff | packages/bam-sdk/src/batch.ts:62-211 | whatever padding follows, an encoded batch decodes, and then only to itself, exactly when its payload is under 4 GiB |
| BatchCodec.ReencodingIsIdentity | packages/bam-sdk/src/batch.ts:62-211 | encoding again what a batch with codec none says gives its header and payload bytes |
| BatchCodec.EstimateBatchSize | packages/bam-sdk/src/batch.ts:220-226 | header plus the sum of the record sizes |
| BatchCodec.EstimateIsEncodedSize | packages/bam-sdk/src/batch.ts:220-226 | the estimate is the encoded size, not only a bound |
| BatchCodec.ZstdLeavesPayloadRaw | packages/bam-sdk/src/batch.ts:119-135 | asking for zstd succeeds exactly for a first sender that opens with the frame magic, and the payload is then left raw |
| BigEndian.WriteU32BE | packages/bam-sdk/src/batch.ts:228-233 | writes a value modulo 2^32 |
| BigEndian.Bytes32 | packages/bam-sdk/src/batch.ts:228-233 | the four bytes of a value, most significant first |
| BigEndian.ReadU32BE | packages/bam-sdk/src/batch.ts:235-242 | reads the big-endian value |
| BigEndian.WriteU64BE | packages/bam-sdk/src/batch.ts:244-249 | writes a value modulo 2^64 |
| BigEndian.ReadU64BE | packages/bam-sdk/src/batch.ts:251-257 | reads the big-endian value |
| BigEndian.ValueOfBE | packages/bam-sdk/src/batch.ts:228-249 | writing keeps a value modulo 256 to the width |
| Coprocessor.DecodeBamPayload | apps/bam-coprocessor/lib/src/lib.rs:281-361 | the Rust decoder returns what the buffer says and fails exactly when it says nothing, zstd aside, naming the first thing wrong as it looks |
| Coprocessor.CountLimitRejectsNothing | apps/bam-coprocessor/lib/src/lib.rs:303-313 | the early limit on the declared count turns away no buffer that says something |
| Coprocessor.DecodeBoth | apps/bam-coprocessor/lib/src/lib.rs:281-361 | on all but zstd batches both decoders accept the same buffers with the same result and reject the others for the same fault |
| Coprocessor.SegmentSaysAlone | apps/bam-coprocessor/lib/src/lib.rs:229-259 | what a segment says depends on its own field elements only |
| Segment.ExtractSegmentBytes | packages/bam-sdk/src/blob/extract.ts:33-80 | the usable bytes of the range, and exactly which ranges throw what |
| Segment.ExtractSegmentBytesRust | apps/bam-coprocessor/lib/src/lib.rs:237-259 | the same bytes without the limit of 4096 field elements |
| Segment.UsableAt | packages/bam-sdk/src/blob/extract.ts:64-77 | byte k of a segment is byte k % 31 + 1 of its field element k / 31 |
| Segment.SegmentSplits | apps/bam-coprocessor/lib/src/lib.rs:237-259 | extraction over [a, c) is extraction over [a, b) followed by [b, c) |
| Segment.SegmentIsLocal | apps/bam-coprocessor/lib/src/lib.rs:237-259 | two blobs give the same segment exactly when bytes 1 to 31 of its field elements agree |
| Coprocessor.FeedCommitment | apps/bam-coprocessor/lib/src/lib.rs:429-444 | the bytes fed to the hasher field by field are the framed messages |
| Coprocessor.CommitmentFrameOpens | apps/bam-coprocessor/lib/src/lib.rs:429-444 | the frame of a message holds length, sender, nonce, contents length, contents, block, transaction and message index at fixed places |
| Coprocessor.CommitmentInjectiveIff | apps/bam-coprocessor/lib/src/lib.rs:410-444 | for contents up to a limit, equal preimages mean equal message sequences exactly when the limit is under 2^32 |
| Coprocessor.CommitmentCollides | apps/bam-coprocessor/lib/src/lib.rs:429-444 | at 2^32 a wrapped length lets one message stand for two |
| Timeline.TimelineKeepsEarliest | apps/bam-indexer/src/pipeline.ts:101-122 | the timeline is in chain order and keeps, once for each (author, nonce), a tweet that none of that key precedes |
| TimelineContents.RowTimelineShows | apps/bam-indexer/src/pipeline.ts:74-125 | from the Reader's rows: one tweet an (author, nonce) in chain order, each field by field what some row says, and for whatever a row says that tweet or an earlier one of its slot |
| TimelineContents.BlobTimelineShows | apps/bam-indexer/src/pipeline.ts:178-240 | the same from blobs, with the messages of their batches and their place in them |
| Timeline.TimelineIgnoresArrivalIff | apps/bam-indexer/src/pipeline.ts:101-122 | a list of tweets has one timeline for all orders of arrival exactly when of any two different tweets at one coordinate one is beaten: its (author, nonce) stands strictly earlier too |
| Timeline.OpenTieShows | apps/bam-indexer/src/pipeline.ts:101-106 | two tweets at one coordinate, neither beaten, come out in the order they came in |
| TimelinePaths.BuildTimeline | apps/bam-indexer/src/pipeline.ts:74-125 | the timeline of the decoded rows, with rows = kept + skippedDecode + skippedDedup |
| TimelinePaths.DropRepeats | apps/bam-indexer/src/pipeline.ts:108-122 | keeps the first of every (author, nonce) and counts the others |
| TimelinePaths.BuildTimelineFromBlobs | apps/bam-indexer/src/pipeline.ts:178-240 | the timeline of the tweets of the batches that extract and decode; messages carried and batches unreadable = kept + skippedDecode + skippedDedup |
| TimelineAgreement.PathsAgree | apps/bam-indexer/src/pipeline.ts:74-240 | with at most one batch in a transaction both paths keep the same tweets in the same order, whatever order the rows come in |
| TimelineAgreement.PathsAgreeIff | apps/bam-indexer/src/pipeline.ts:74-240 | whatever batches share a transaction, the Reader path gives the timeline of the blob path for every order of the rows exactly when of any two different tweets at one coordinate one is beaten |
| TimelineRoot.FeedRoot | apps/bam-indexer/src/pipeline.ts:137-170 | the bytes fed to the hasher are the length-prefixed records |
| TimelineRoot.LeafFrameOpens | apps/bam-indexer/src/pipeline.ts:137-170 | the frame of a tweet holds length, sender, nonce, timestamp and text at fixed places |
| TimelineRoot.RootInjectiveIff | apps/bam-indexer/src/pipeline.ts:137-170 | for texts up to a limit, equal preimages mean equal (sender, nonce, timestamp, text) lists exactly when the limit is under 2^32 |
| SlotSearch.BlockAtOrAfter | apps/bam-coprocessor/script/fetch-blobs.py:65-79 | the first slot not missed among max_steps, with its block |
| SlotSearch.BlockAtOrBefore | apps/bam-coprocessor/script/fetch-blobs.py:82-98 | the last slot not missed among max_steps going down, none below 0 |
| SlotSearch.ProbeForward | apps/bam-coprocessor/script/src/blob_fetch.rs:167-179 | the first slot not missed among 64 and up to the bound |
| SlotSearch.ProbeBackward | apps/bam-coprocessor/script/src/blob_fetch.rs:184-202 | the last slot not missed among 64 and down to the bound |
| SlotSearch.SearchPython | apps/bam-coprocessor/script/fetch-blobs.py:127-143 | the binary search with unlimited probes takes at most floor(log2(width)) + 1 rounds |
| SlotSearch.SearchRust | apps/bam-coprocessor/script/src/blob_fetch.rs:240-259 | so does the one with probes of 64 |
| SlotSearch.FindSlotPython | apps/bam-coprocessor/script/fetch-blobs.py:101-143 | brackets by the first window that straddles, then searches |
| SlotSearch.FindSlotRust | apps/bam-coprocessor/script/src/blob_fetch.rs:208-259 | the same with the Rust windows and probes |
| SlotSearchTheorems.DenseBetween | apps/bam-coprocessor/script/fetch-blobs.py:127-131 | between two slots of a dense chain every block number has its slot |
| SlotSearchTheorems.SearchFinds | apps/bam-coprocessor/script/fetch-blobs.py:127-143 | the search finds the target's slot whenever it is in the window and the probes reach the next slot |
| SlotSearchTheorems.PythonIsComplete | apps/bam-coprocessor/script/fetch-blobs.py:101-143 | on a dense chain the Python search returns the slot of the block exactly when some window brackets it |
| SlotSearchTheorems.PythonBracketIff | apps/bam-coprocessor/script/fetch-blobs.py:104-121 | a window brackets a block exactly when its slot is inside and both ends are within 64 of a slot not missed |
| SlotSearchTheorems.PythonFindsIff | apps/bam-coprocessor/script/fetch-blobs.py:101-143 | on a dense chain the program returns the slot of the block exactly when some window around the estimate holds it and has both ends within 64 of a slot not missed; otherwise it says it could not bracket the block |
| SlotSearchTheorems.RustIsComplete | apps/bam-coprocessor/script/src/blob_fetch.rs:208-259 | so does the Rust search when no 64 slots in a row of its bracket were missed |
| SlotSearchTheorems.RustBracketIff | apps/bam-coprocessor/script/src/blob_fetch.rs:212-235 | a Rust window brackets a block exactly when its slot is inside and both ends are within 64 of a slot not missed |
| SlotSearchTheorems.RustFindsIff | apps/bam-coprocessor/script/src/blob_fetch.rs:208-259 | with no 64 slots in a row missed in the first window that covers the block, the Rust program returns its slot exactly when some window covers it |
| SlotSearchTheorems.AbsentBlockIsNotBracketed | apps/bam-coprocessor/script/src/blob_fetch.rs:208-259 | both programs say of a block without a slot that they could not bracket it |
| SlotSearchTheorems.RustLosesBlock | apps/bam-coprocessor/script/src/blob_fetch.rs:240-259 | after 64 missed slots in a row the Rust search misses a block that the Python search finds from the same estimate |
| SlotSearchTheorems.RustDepthIsSharp | apps/bam-coprocessor/script/src/blob_fetch.rs:20-21 | brackets without runs of n missed slots are safe on all chains exactly for n up to 64 |

## Left out

- Coprocessor.DecodeBamPayload: `usize` is unbounded, so a 32-bit target's overflow of `10 + payload_len` is not captured.
- BatchCodec.RoundTripIff: senders are raw bytes, so a sender in mixed-case hex, which the encoder takes and the decoder returns in lower case, is outside the round trip.
- Coprocessor.FeedCommitment: the record length wraps at 2^32, as in a build without overflow checks.
- TimelinePaths.BuildTimeline: a nonce or contents text that does not parse is an absent value; hex and decimal parsing are not modelled, and the `seen` set holds pairs instead of joined text.
- IndexerContents.EveryRowHasItsPost: the handler writes ids and hashes in lower case again; in the model rows carry them in lower case already.
- IndexerTheorems.RunKeepsInv: resets take effect between ticks; a crash inside a reset and a reset during a tick are covered by their own lemmas only.
- SlotSearch.FindSlotPython: the slot estimate is an input, network errors are not modelled, and slots before 0 count as missed.
- SlotSearch.FindSlotRust: a failed request and a missed slot are one thing, as in the program.
- WidgetPosts.ClickDecidesItsPosts: the envelope's timestamp, a clock reading, is not part of what is handed over.
- WidgetInstance.Instance.Deliver: focus and caret, the texts of errors and times, and which reply buttons the thread shows are not modelled.
- Zstd: `decompress` is any function that may fail; nothing compresses, as in the repository.
- Keccak, SHA-256, EIP-712, ECDSA, BLS, KZG and the zero-knowledge programs: only the bytes they are fed.
- Postgres, Drizzle, serialization retries and unique-violation races: one transaction is one step.
- `nextIngestSeq`, the Reader's own cursors and the store's other list queries: no other operation of the model reads what they write or return.
- Hashes and addresses are ASCII text, where lower-casing is modelled character by character; comment hashes are numbers, since lower-case hex of one width is ordered as numbers.
- Timestamps beyond 2^53 and other floating-point effects of JavaScript numbers.
- HTTP clients and servers, command lines, React components, build scripts, the post-reply handler's own tables.
- The 152-byte public values, message ids, badges, ENS, cost and hex helpers: fixed-width layouts and lookups without state that the modelled code takes as given values.
