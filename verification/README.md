# Verified model of the ingest and search core

A Dafny model of the parts of this retrieval service whose behaviour is more than plumbing: how a
document is recognised as a near-duplicate and what that does to the stores, how document pipelines
stay exclusive, how search hits are merged into their ancestors, how the search cache stays in step
with itself, and how the web crawler walks a site. Postgres tables, Redis keys and Qdrant points are
maps, sets and sequences; every store that the service updates in place is a class whose methods are
proved against functions on the abstract state. `dafny verify dfyconfig.toml` checks everything.

- **Near-duplicates** (`Bits`, `SimHash`, `SimHashDetection`, `MinHash`, `ChunkCompare`, `DedupPass`,
  `BandUpkeep`). The band indexes replace a scan of the KB. The pigeonhole lemmas say exactly when they
  lose nothing, with explicit fingerprints and signatures that evade them otherwise. Over whole runs
  of ingests it is characterised exactly which documents the SimHash index no longer shows. The early
  exit of the chunk comparison preserves every verdict exactly under a condition the settings do not
  enforce. A pass over all stages names only other documents that are indexed.
- **Verdicts** (`Verdict`, `VerdictLaws`). Each handler is its ordered list of writes, so a run that
  breaks off is a prefix of that list. Links of outdated documents stay a forest over every run; of a
  document and the duplicate it names, never both are indexed; chunks move exactly as promised. A run
  ends stable exactly when no error escapes its failure handling.
- **Lifecycle** (`QueueWorker`, `QueueLaws`, `QueueOrder`, `Lifecycle`, `Stranding`, `Endings`). It is shown exactly when a poll on
  arbitrary queue contents loses a well-formed event. Over whole runs of guarded requests, polls,
  pipeline steps and careful operators, a document has at most one outstanding item, so two
  pipelines never meet on it; and the documents left active with nothing to work on them are
  characterised exactly. Every ingest run over the stores is a path of lifecycle steps. Events are
  worked off in the order in which they were queued.
- **Hierarchical chunks** (`AutoMerge`, `AutoMergeLaws`, `AutoMergeLoop`, `AutoMergeSettling`,
  `AutoMergeShapes`, `AutoMergeRetry`, `AutoMergeRigging`, `AutoMergeOutputs`, `ParentChunks`,
  `ParentChunksLaws`, `StoredForest`). Hits carry their provenance as trees, seen by the caller as flat results. The merge
  conserves leaves and reaches a fixpoint; the ancestor rows are a root-first, parent-closed table,
  which is the forest the merge climbs.
- **Search cache** (`SearchCache`, `SearchCacheLaws`, `SearchCacheLife`, `CacheLookup`). Entries and index sets expire on
  their own; with one TTL the indexes stay complete over every run, so an invalidation is complete and
  lasts until the next covering store; an entry reads exactly until its TTL, unless it is evicted,
  invalidated or overwritten.
- **Crawler, readers, fusion** (`Crawler`, `Ppt`, `RrfMerge`). Shortest distances of the breadth-first
  crawl, a scanner that undoes its printer, and rank fusion that respects dominance.

Where the code and its own documentation disagree, the model follows the code:

- `_auto_merge_parents` is documented to settle a group that misses the threshold, but keeps it active
  and regroups it every round. `AutoMergeRigging.LoopsAgreeIff` says on which forests the two loops
  agree.
- `delete_doc` documents a soft delete of indexed documents. A queued delete never takes it, because
  queueing has set the status to pending (`Lifecycle.QueuedDeleteIsHard`).
- `_build_parent_chunks` documents `child_count` as counting survivors, but it counts ancestor children
  that are themselves dropped (`ParentChunksLaws.DroppedAncestorStillCounts`).
- `find_simhash_candidates` presumes that an indexed document owns its bands. Bands are written only
  when nothing close was found, so the newer of two similar documents is indexed without any
  (`BandUpkeep.StageKeepsStepIff`), and after a title-changed takeover neither document is found again
  (`BandUpkeep.TakeoverIsInvisible`).
- `_drain_delay_queue` is documented to move ready items back to their queue. A payload that is JSON
  but no object makes it raise after all of them have left the delay set
  (`QueueLaws.PollLosesEvent`).
- `run_ingest_pipeline` marks a document failed when a step raises, but not when `validate` raises
  anything but a validation error, nor when `set_processing` raises
  (`VerdictLaws.EscapedRunStaysRunning`); nothing but an operator reaches such a document again
  (`Stranding.StaysStranded`).

## Model

| member | source | states |
|---|---|---|
| `SimHash.HammingZero` | src/rag_api/pipeline/steps/dedup/simhash.py:61-62 | the distance of two fingerprints is 0 exactly when they are equal |
| `SimHash.HammingSymmetric` | src/rag_api/pipeline/steps/dedup/simhash.py:61-62 | the distance does not depend on the order of its arguments |
| `SimHash.HammingTriangle` | src/rag_api/pipeline/steps/dedup/simhash.py:61-62 | the distance obeys the triangle inequality |
| `SimHash.HammingCountsDigits` | src/rag_api/pipeline/steps/dedup/simhash.py:61-62 | the distance is the number of binary digits in which the two differ |
| `SimHash.DistinctBandsCost` | src/rag_api/pipeline/steps/dedup/simhash.py:65-73 | pigeonhole: fingerprints that share no band differ in at least one bit per band |
| `SimHash.CombEvadesBands` | src/rag_api/pipeline/steps/dedup/simhash.py:65-73 | a fingerprint at distance exactly the number of bands from 0 that shares no band with it |
| `SimHash.BandingCompleteIff` | src/rag_api/pipeline/steps/dedup/simhash.py:65-73 | every pair within a threshold shares a band if and only if the threshold is below the number of bands |
| `SimHash.HexRoundTrip` | src/rag_api/pipeline/steps/dedup/simhash.py:72 | a band value read back from its padded hexadecimal text is unchanged, for every value and width |
| `SimHash.SignedRoundTripIff` | src/rag_api/pipeline/steps/dedup/simhash.py:51-58 | the BIGINT column holds and returns a fingerprint unchanged if and only if it fits in 64 bits |
| `SimHash.FingerprintIsMajority` | src/rag_api/pipeline/steps/dedup/simhash.py:26-48 | a bit is set exactly when more than half of the distinct shingles vote for it, and the result fits its width |
| `SimHash.FingerprintDigits` | src/rag_api/pipeline/steps/dedup/simhash.py:35-48 | in arithmetic: a digit of the fingerprint is the one more than half of the digests have there |
| `SimHash.ShinglesAreSubstrings` | src/rag_api/pipeline/steps/dedup/simhash.py:35 | the shingles are the substrings of one window's length |
| `SimHash.ShortBodiesCollide` | src/rag_api/pipeline/steps/dedup/simhash.py:35-48 | bodies shorter than one window are all at distance 0 from each other |
| `SimHash.ComputeSimhash` | src/rag_api/pipeline/steps/dedup/simhash.py:26-48 | the counting loops compute the majority fingerprint |
| `SimHash.BandListParses` | src/rag_api/pipeline/steps/dedup/simhash.py:65-73 | the band pairs, read back as numbers, are the band values in order |
| `SimHash.GetBands` | src/rag_api/pipeline/steps/dedup/simhash.py:65-73 | the slicing loop produces those pairs |
| `SimHash.BandIsSlice` | src/rag_api/pipeline/steps/dedup/simhash.py:65-73 | a band value is the quotient of the fingerprint by a power of two, modulo another |
| `SimHashDetection.NearIsCandidate` | src/rag_api/infra/postgres.py:857-873 | a scanned document that owns its bands and is closer than their number is among the indexed candidates |
| `SimHashDetection.CandidateIsScanned` | src/rag_api/infra/postgres.py:857-873 | every candidate with a fingerprint is a document a scan of the KB would visit |
| `SimHashDetection.DetectionFindsShown` | src/rag_api/pipeline/steps/dedup/simhash.py:105-165 | below the number of bands, identical is answered only for a document a scan finds in reach, and always when such a document owns its bands; the one named is no farther than any of those |
| `SimHashDetection.DetectionIsScan` | src/rag_api/pipeline/steps/dedup/simhash.py:105-165 | hence, when all scanned documents own their bands, detection says identical exactly when a brute-force scan finds one in reach, and it names one at least distance over the whole scan |
| `SimHashDetection.DetectionMissesBeyondBands` | src/rag_api/pipeline/steps/dedup/simhash.py:105-165 | from the number of bands on, a KB in which the scan finds an identical document and the band index finds nothing |
| `SimHashDetection.AnswerIsVerdict` | src/rag_api/pipeline/steps/dedup/simhash.py:124-165 | the sorted close candidates yield the nearest one, with the identical threshold and its title deciding |
| `SimHashDetection.WriteBandsRows` | src/rag_api/infra/postgres.py:835-853 | saving bands leaves exactly the new values under the document and every other row alone |
| `SimHashDetection.FingerprintStore.RunSimhashDetection` | src/rag_api/pipeline/steps/dedup/simhash.py:80-175 | the whole stage, under any settings: the verdict from the state before, bands written only on no match, fingerprint and title hash recorded, nothing else changed; no bands, a missing document and a value its column cannot hold raise |
| `SimHashDetection.NarrowFingerprintsFit` | src/rag_api/pipeline/steps/dedup/simhash.py:51-58 | fingerprints of at most 64 bits always fit their column and come back unchanged, and bands of at most 31 bits fit theirs |
| `SimHashDetection.SavedBandsAreOwned` | src/rag_api/pipeline/steps/dedup/simhash.py:167-168 | the write made on no match supplies the bands of the fingerprint |
| `BandUpkeep.StageKeepsStepIff` | src/rag_api/pipeline/steps/dedup/simhash.py:167-173 | after the stage a document owns the bands of its fingerprint if and only if nothing close was found or it owned them already |
| `BandUpkeep.BandsMatchIff` | src/rag_api/infra/postgres.py:857-873 | the index is in step for a lookup exactly when no document the lookup should see is hidden, that is indexed without owning the bands of its fingerprint |
| `BandUpkeep.UnbandedIsInvisible` | src/rag_api/infra/postgres.py:857-873 | a document without band rows is never found close, not even by a body with its own fingerprint |
| `BandUpkeep.IngestHides` | src/rag_api/pipeline/runner.py:42-97 | exactly which documents an ingest run hides and which it settles, complete or broken off anywhere |
| `BandUpkeep.TakeoverIsInvisible` | src/rag_api/pipeline/steps/dedup/verdict.py:89-111 | after a title-changed takeover of a close document no lookup finds the new document, not even at distance 0, nor the old one |
| `BandUpkeep.HiddenIff` | src/rag_api/pipeline/steps/dedup/simhash.py:167-173 | in every run under one setting a document is hidden exactly when some step hid it and no later one settled it |
| `BandUpkeep.BandsMatchInRunsIff` | src/rag_api/infra/postgres.py:857-873 | hence when the index is in step after any run |
| `BandUpkeep.DetectionInRuns` | src/rag_api/pipeline/steps/dedup/simhash.py:105-165 | after any run the stage answers identical only for a document in reach, and overlooks a document in reach only if it was hidden and not settled since |
| `StableSort.SortOrders` | src/rag_api/pipeline/steps/dedup/simhash.py:124 | sorting rearranges the elements into ascending order of key |
| `StableSort.SortIsStable` | src/rag_api/pipeline/steps/dedup/simhash.py:124 | elements of equal key keep their order |
| `MinHash.ComputeMinhash` | src/rag_api/pipeline/steps/dedup/minhash.py:80-98 | each position is the least hash over the token set; an empty list gives the prime throughout |
| `MinHash.SignatureOfSetUnique` | src/rag_api/pipeline/steps/dedup/minhash.py:89-98 | the signature depends only on the set of tokens |
| `MinHash.SignatureOfUnion` | src/rag_api/pipeline/steps/dedup/minhash.py:80-98 | the signature of the union of two non-empty sets is the pointwise minimum of theirs |
| `MinHash.DisagreeingBandsCost` | src/rag_api/infra/postgres.py:946-967 | each band that does not fully agree costs at least one mismatch |
| `MinHash.FewMismatchesGiveCandidate` | src/rag_api/infra/postgres.py:939-973 | fewer mismatches than bands guarantees a candidate, for any signature length and number of bands |
| `MinHash.CandidateHasJaccard` | src/rag_api/pipeline/steps/dedup/minhash.py:119-124 | every candidate has estimated Jaccard at least rows per band over positions |
| `MinHash.BandingCompleteIff` | src/rag_api/infra/postgres.py:939-973 | with 128 positions in 16 bands, every pair reaching a Jaccard threshold is a candidate if and only if the threshold exceeds 1 - 16/128 |
| `MinHash.SignatureStore.BestCandidate` | src/rag_api/pipeline/steps/dedup/minhash.py:164-190 | the loop lists exactly the passing candidates and names one of greatest positive Jaccard, or none |
| `MinHash.SignatureStore.RunMinhashDetection` | src/rag_api/pipeline/steps/dedup/minhash.py:131-205 | candidates are judged on the signatures stored before, the new signature is saved, a missing document fails |
| `MinHash.DetectionIsScan` | src/rag_api/pipeline/steps/dedup/minhash.py:131-205 | above that threshold and with any title candidates, the stage answers similar exactly when a scan of the KB by the same rules finds a document, and names one of greatest Jaccard over the scan |
| `MinHash.MissesNothingIff` | src/rag_api/pipeline/steps/dedup/minhash.py:131-205 | whatever the tables hold, the stage misses nothing a scan would list if and only if both thresholds by which a document can pass without being looked up exceed 1 - 16/128 |
| `MinHash.DetectionFindsResembling` | src/rag_api/pipeline/steps/dedup/minhash.py:131-205 | hence, in terms of the rows and of what pg_trgm reports: the stage answers similar exactly when another indexed document of the KB agrees often enough, or less often under a title alike enough, and names one that agrees most |
| `MinHash.JaccardIsShare` | src/rag_api/pipeline/steps/dedup/minhash.py:119-124 | the estimate is the number of agreeing positions over their number, 1 exactly for equal signatures |
| `ChunkCompare.TopHitIsBest` | src/rag_api/pipeline/steps/dedup/chunk_compare.py:104-115 | a chunk contributes its best hit at or above the threshold, or nothing |
| `ChunkCompare.TopHitIsFirst` | src/rag_api/pipeline/steps/dedup/chunk_compare.py:110-113 | among equal hits the first is taken |
| `ChunkCompare.CompareChunks` | src/rag_api/pipeline/steps/dedup/chunk_compare.py:53-122 | one best match per matched chunk, and the sum of their scores over the number of chunks, scaled by the chunk ratio; or 0 and no match on the early exit |
| `ChunkCompare.RatioMeaning` | src/rag_api/pipeline/steps/dedup/chunk_compare.py:85-89 | the chunk ratio is the smaller count over the greater, 1 exactly for equal counts, 0 for a candidate without chunks |
| `ChunkCompare.PerfectIsIdentical` | src/rag_api/pipeline/steps/dedup/chunk_compare.py:85-131 | a candidate of as many chunks, each matched perfectly, is identical |
| `ChunkCompare.BandsBeginAtThresholds` | src/rag_api/pipeline/steps/dedup/chunk_compare.py:125-131 | each band begins at its threshold |
| `ChunkCompare.FullScoreBelowRatio` | src/rag_api/pipeline/steps/dedup/chunk_compare.py:85-118 | no scaled score exceeds the chunk-count ratio |
| `ChunkCompare.EarlyExitKeepsBandIff` | src/rag_api/pipeline/steps/dedup/chunk_compare.py:91-97 | skipping the search preserves every band if and only if the similar threshold does not exceed the identical one, or no score can land between them |
| `ChunkCompare.BandsAreMonotone` | src/rag_api/pipeline/steps/dedup/chunk_compare.py:125-131 | a higher score never falls into a lower band, whatever the thresholds |
| `ChunkCompare.RunChunkCompare` | src/rag_api/pipeline/steps/dedup/chunk_compare.py:152-204 | the answer has the highest band any candidate reaches and names the first candidate of greatest score; only candidates in some band are listed |
| `ChunkCompare.ConfirmedMeans` | src/rag_api/pipeline/steps/dedup/chunk_compare.py:168-204 | with the setting on a best one of all listed documents is named, otherwise the one named before is confirmed |
| `ChunkCompare.DismissedMeans` | src/rag_api/pipeline/steps/dedup/chunk_compare.py:168-195 | a result is dismissed only if no document compared reaches a band |
| `DedupPass.RunDedupPipeline` | src/rag_api/pipeline/steps/dedup/__init__.py:53-94 | the pass over the tables of both stages: it raises exactly when it runs and its first stage does not come through; otherwise the answer is one of the first stage, or of the second when the first finds nothing close, confirmed by chunks when similar; and what each table holds afterwards, also when it raises |
| `DedupPass.FirstNamesAnother` | src/rag_api/pipeline/steps/dedup/simhash.py:105-165 | the first stage names and lists only other documents that are indexed, and names one exactly when something is close |
| `DedupPass.SecondNamesAnother` | src/rag_api/pipeline/steps/dedup/minhash.py:131-205 | so does the second |
| `DedupPass.ConfirmedNamesAnother` | src/rag_api/pipeline/steps/dedup/chunk_compare.py:152-204 | and the confirmation by chunks |
| `DedupPass.PassNamesAnother` | src/rag_api/pipeline/steps/dedup/__init__.py:53-94 | hence so does the pass, over any tables; it asks for indexing exactly when it found nothing |
| `DedupPass.MatchHasEvidence` | src/rag_api/pipeline/steps/dedup/__init__.py:53-94 | a match stands on a fingerprint within the identical threshold or on chunks that reach the band answered |
| `DedupPass.NarrowPassComesThrough` | src/rag_api/pipeline/steps/dedup/simhash.py:51-73 | under settings of at most 64 bits in bands of at most 31, a pass over an existing document never raises |
| `DedupPass.IdlePassDoesNothing` | src/rag_api/pipeline/steps/dedup/__init__.py:50-71 | a pass that is switched off, or over anything but a document, finds nothing and writes nothing |
| `DedupPass.WritesComeInOrder` | src/rag_api/pipeline/steps/dedup/__init__.py:76-86 | the pass writes bands, then the row, then the signature, one by one |
| `Verdict.Store.HandleTitleChanged` | src/rag_api/pipeline/steps/dedup/verdict.py:66-112 | the handler makes its planned writes, in order |
| `Verdict.Store.HandleSimilar` | src/rag_api/pipeline/steps/dedup/verdict.py:115-149 | the handler makes its planned writes and asks for indexing exactly when the incoming document wins |
| `Verdict.Store.RunVerdict` | src/rag_api/pipeline/steps/dedup/verdict.py:152-172 | the dispatch on body and title match makes the planned writes |
| `VerdictLaws.StoppedIsStable` | src/rag_api/pipeline/steps/dedup/verdict.py:152-172 | a verdict that stops indexing leaves its document outdated or indexed |
| `VerdictLaws.IngestEndsStableIff` | src/rag_api/pipeline/runner.py:42-97 | an ingest run on an existing row ends in a stable status if and only if nothing escapes its failure handling, save where the document is left as stable as it was or already outdated |
| `VerdictLaws.EscapedRunStaysRunning` | src/rag_api/pipeline/runner.py:42-49 | a dispatched run whose start fails leaves its row running |
| `VerdictLaws.PairAfter` | src/rag_api/pipeline/steps/dedup/verdict.py:66-149 | the statuses of the pair after any number of the verdict's writes |
| `VerdictLaws.PairOutcomeIff` | src/rag_api/pipeline/runner.py:42-97 | after a verdict on what the pass found, never both documents are indexed, and one is unless the run broke off past outdating the other |
| `VerdictLaws.NewerEndsIndexed` | src/rag_api/pipeline/steps/dedup/verdict.py:15-45 | of a completed run's pair the one created later ends indexed and the other outdated with a link to it, an unknown instant of the document found losing; with the same title the one found stays |
| `VerdictLaws.LoserIsForgotten` | src/rag_api/pipeline/steps/dedup/verdict.py:89-149 | the outdated one of a similar pair, and the one a new title replaces, leaves no bands, signature or ancestor rows |
| `VerdictLaws.FailedIsForgotten` | src/rag_api/pipeline/runner.py:94-97 | a failed run leaves no points, bands, signature or ancestor rows of its document |
| `VerdictLaws.IndexedRunStoresPoints` | src/rag_api/pipeline/steps/upsert.py:35-106 | a run that indexes its document replaces exactly its points by the new ones, counts them, and keeps every other point but those of a document it replaces |
| `VerdictLaws.TitleWinMovesChunks` | src/rag_api/pipeline/steps/dedup/verdict.py:89-111 | a title-changed win moves exactly the duplicate's chunks to the incoming document, relabelled, and touches no others |
| `VerdictLaws.TitleWinCountIff` | src/rag_api/pipeline/steps/dedup/verdict.py:105-111 | the copied chunk count is right if and only if the incoming document owned no chunks before |
| `VerdictLaws.SimilarWinRemovesChunks` | src/rag_api/pipeline/steps/dedup/verdict.py:134-143 | a similar win removes exactly the duplicate's chunks |
| `VerdictLaws.BrokenTakeoverKeepsChunksIff` | src/rag_api/pipeline/runner.py:94-97 | a takeover of either kind that breaks off, with the failure handling reaching its cleanup, keeps the duplicate's chunks if and only if its verdict had written nothing; the duplicate is still indexed before the second write |
| `VerdictLaws.PathsEnd` | src/rag_api/pipeline/steps/dedup/verdict.py:48-58 | following duplicate_of links stops at a document that is not outdated, a missing row or an empty link |
| `VerdictLaws.NoCycle` | src/rag_api/pipeline/steps/dedup/verdict.py:48-58 | no document with a link is reached from itself |
| `VerdictLaws.VerdictKeepsForest` | src/rag_api/pipeline/steps/dedup/verdict.py:15-172 | every prefix of every verdict's writes keeps the links a forest |
| `VerdictLaws.IngestKeepsForest` | src/rag_api/pipeline/runner.py:42-97 | so does every ingest run, complete or broken off, on what its pass finds |
| `VerdictLaws.RunsKeepForest` | src/rag_api/pipeline/steps/dedup/verdict.py:15-172 | across all creations, deletions, status changes and ingest runs, each with its pass over the tables of the moment, the links of outdated documents form a forest |
| `AutoMergeLaws.RegroupPermutes` | src/rag_api/query/retriever.py:184-190 | grouping by ancestor loses and invents nothing |
| `AutoMergeLaws.MergePartitionsInput` | src/rag_api/query/retriever.py:160-209 | the leaves the outputs stand for partition the input results |
| `AutoMergeLaws.MergeEarned` | src/rag_api/query/retriever.py:192-202 | every merged output replaced exactly results naming it and met the threshold against its child count, at each level it climbed |
| `AutoMergeLaws.ScoreWithinLeaves` | src/rag_api/query/retriever.py:149-157 | the score of an output lies between the least and greatest score of its leaves |
| `AutoMergeOutputs.SumIsTotal` | src/rag_api/query/retriever.py:153 | the summed score of a group does not depend on its order |
| `AutoMergeOutputs.EachIsOutput` | src/rag_api/query/retriever.py:139-202 | every output is an input unchanged, or stands for a stored ancestor in place of a group that named it and met the threshold: with its text, page and parent, no rerank score or chunk index, and as score the mean of the group |
| `AutoMergeOutputs.GroupsInOrder` | src/rag_api/query/retriever.py:182-188 | groups come in the order of their first members |
| `AutoMergeOutputs.UngroupedLead` | src/rag_api/query/retriever.py:204-209 | results without a stored ancestor lead the outputs, in their order |
| `AutoMergeOutputs.GroupsStayInOrder` | src/rag_api/query/retriever.py:192-202 | the plain results under one ancestor keep their order, or are all merged away |
| `AutoMergeLaws.RoundRaisesStability` | src/rag_api/query/retriever.py:178-207 | each round settles one more level of the forest for good |
| `AutoMergeLaws.ClimbEndsStable` | src/rag_api/query/retriever.py:178-209 | run for at least the height of the forest, the loop leaves no group that would merge |
| `AutoMergeLaws.MergeIsIdempotent` | src/rag_api/query/retriever.py:160-209 | when max_depth covers the height, a second pass changes nothing as a multiset |
| `AutoMergeLaws.ShallowMergeIsNotIdempotent` | src/rag_api/query/retriever.py:160-209 | on a chain of any height a second pass changes nothing if and only if max_depth covers it |
| `AutoMergeLoop.GroupResults` | src/rag_api/query/retriever.py:184-190 | the grouping loop builds the groups in first-appearance order and the passthrough list |
| `AutoMergeLoop.MergeResults` | src/rag_api/query/retriever.py:192-202 | the merging loop replaces groups that meet the threshold and keeps the others |
| `AutoMergeLoop.AutoMergeParents` | src/rag_api/query/retriever.py:160-209 | the loop over mutable lists returns exactly the specified results |
| `AutoMergeShapes.CodedMatchesDocumented` | src/rag_api/query/retriever.py:160-209 | when the hits below every common ancestor sit at one level, the loop as coded, which retries failed groups, gives the multiset of the documented loop, which settles them |
| `AutoMergeRigging.LoopsDifferOnMixedTrees` | src/rag_api/query/retriever.py:160-209 | otherwise some child counts and a depth make the two loops differ |
| `AutoMergeRigging.LoopsAgreeIff` | src/rag_api/query/retriever.py:160-209 | hence they agree for all child counts, thresholds and depths if and only if the hits below every common ancestor sit at one level |
| `AutoMergeSettling.LoopsDifferOnUnevenTrees` | src/rag_api/query/retriever.py:160-209 | a tree with leaves at two levels on which they differ |
| `ParentChunks.LevelOf` | src/rag_api/pipeline/steps/chunk.py:159-164 | the memoised recursion returns the depth below the topmost ancestor and keeps the memo right |
| `ParentChunks.NumberRows` | src/rag_api/pipeline/steps/chunk.py:170-194 | the loop with one counter per level yields the numbered rows |
| `ParentChunks.BuildParentChunks` | src/rag_api/pipeline/steps/chunk.py:139-194 | the rows of the ancestors with a kept child, in level order |
| `ParentChunks.ParentTable.SaveParentChunks` | src/rag_api/infra/postgres.py:1004-1035 | inserts all rows in order, or none when a row's parent is missing |
| `ParentChunksLaws.SortedAncestors` | src/rag_api/pipeline/steps/chunk.py:166-168 | the sorted ancestors are the ancestors, root first |
| `ParentChunksLaws.ParentComesFirst` | src/rag_api/pipeline/steps/chunk.py:166-168 | a row's parent is an earlier row exactly one level up |
| `ParentChunksLaws.EveryInsertFindsParent` | src/rag_api/infra/postgres.py:1007-1009 | hence every insert finds its parent, whatever the table held |
| `ParentChunksLaws.LeafParentIsStored` | src/rag_api/pipeline/steps/chunk.py:152-177 | the parent of every surviving leaf has a row |
| `ParentChunksLaws.ChildCountMeaning` | src/rag_api/pipeline/steps/chunk.py:174-177 | a row's child count is positive and equals its surviving leaf children plus all its ancestor children |
| `ParentChunksLaws.ChildCountIsStoredIff` | src/rag_api/pipeline/steps/chunk.py:174-177 | it never falls below the leaves and rows stored under it, and equals them if and only if no ancestor below was itself dropped |
| `ParentChunksLaws.DroppedAncestorStillCounts` | src/rag_api/pipeline/steps/chunk.py:152-177 | a root over two middle nodes whose row counts the one that was dropped with its only leaf |
| `ParentChunksLaws.IndexedByLevel` | src/rag_api/pipeline/steps/chunk.py:179-180 | a row's index is the number of earlier rows on its level |
| `ParentChunksLaws.IndexRunsThroughLevel` | src/rag_api/pipeline/steps/chunk.py:179-180 | on each level chunk_index takes every value below the number of rows there |
| `ParentChunksLaws.RowCarriesAncestor` | src/rag_api/pipeline/steps/chunk.py:182-194 | a row carries the text, page, parent and level of its ancestor |
| `ParentChunksLaws.InsertsIffParentsKnown` | src/rag_api/infra/postgres.py:1004-1035 | rows are all inserted exactly when each names a parent that is stored, comes before it or is itself; then the table holds the old rows and the new |
| `StoredForest.StoredIsForest` | src/rag_api/infra/postgres.py:1004-1035 | on a table whose rows have their parents stored one level up, the hypotheses of the auto-merge laws hold, with the number of levels as height |
| `StoredForest.SavingKeepsForest` | src/rag_api/pipeline/steps/upsert.py:44-45 | saving the rows of a build, the document's old rows having been deleted, keeps the table so |
| `SearchCache.Cache.SetEntry` | src/rag_api/infra/search_cache.py:55-82 | stores, indexes and evicts: the state is the insertion followed by an eviction of oldest keys |
| `SearchCache.Cache.EvictIfNeeded` | src/rag_api/infra/search_cache.py:85-115 | removes an oldest key while too many remain |
| `SearchCache.Cache.InvalidateKb` | src/rag_api/infra/search_cache.py:126-149 | purges what the KB's index names and returns the number of live entries among it |
| `SearchCache.Cache.InvalidateAll` | src/rag_api/infra/search_cache.py:152-164 | nothing is left, and the number of keys deleted is returned |
| `SearchCacheLaws.InsertKeepsIndexedIff` | src/rag_api/infra/search_cache.py:69-80 | a store keeps every live entry in all its indexes if and only if its TTL does not cut short an entry sharing one |
| `SearchCacheLaws.NextKeepsInv` | src/rag_api/infra/search_cache.py:55-164 | every step with the one TTL keeps the indexes complete, the buckets honest and lifetimes bounded |
| `SearchCacheLaws.RunKeepsInv` | src/rag_api/infra/search_cache.py:55-164 | so does every run of stores, ticks, evictions and invalidations |
| `SearchCacheLaws.InvalidationIsExact` | src/rag_api/infra/search_cache.py:126-149 | an invalidation clears exactly the live entries covering the KB |
| `SearchCacheLaws.InvalidationIsComplete` | src/rag_api/infra/search_cache.py:126-149 | right after it, in any run, no entry of any bucket covering the KB can be read |
| `SearchCacheLaws.StaysInvalidated` | src/rag_api/infra/search_cache.py:126-149 | and so it stays in every later state of the run until the next store covering the KB |
| `SearchCacheLaws.EvictionIsFifo` | src/rag_api/infra/search_cache.py:85-115 | no survivor of an eviction was stored before a victim |
| `SearchCacheLaws.LatestSurvives` | src/rag_api/infra/search_cache.py:80-82 | with at least one slot, a key stamped after all others is not evicted |
| `SearchCacheLaws.StoreRefinesMap` | src/rag_api/infra/search_cache.py:45-115 | a store acts on what can be read as on a plain map: the new entry in, the victims out, the rest unchanged |
| `SearchCacheLaws.StoreBoundsSize` | src/rag_api/infra/search_cache.py:85-115 | after every store in a run at most max_entries entries are live |
| `SearchCacheLife.StoredForItsTtl` | src/rag_api/infra/search_cache.py:55-78 | an entry and its places in the indexes last exactly for the TTL |
| `SearchCacheLife.ReadsUntilTtl` | src/rag_api/infra/search_cache.py:45-164 | in every run, after a store and until the next under its key, the key reads the stored payload exactly while it has not been evicted or invalidated and the TTL has not passed |
| `SearchCacheLife.LeavesTheOrderIff` | src/rag_api/infra/search_cache.py:85-164 | a live key is lost exactly to the invalidation of a KB it covers or of everything, or to an eviction, which takes a full cache |
| `SearchCacheLife.KeysAreWhatCanBeRead` | src/rag_api/infra/search_cache.py:152-164 | Redis holds a key exactly when something can be read through it |
| `SearchCacheLaws.ShrinkingTtlLeavesStaleAnswer` | src/rag_api/infra/search_cache.py:69-78 | two stores with different TTLs after which an invalidated entry is still served |
| `CacheLookup.FullKeyRoundTripIff` | src/rag_api/infra/search_cache.py:41-42 | splitting a composite key recovers its hashes if and only if the bucket hash has no colon |
| `CacheLookup.CauchySchwarz` | src/rag_api/query/search_cache.py:67-69 | the squared dot product is at most the product of the squared norms, in any dimension |
| `CacheLookup.CosineInRange` | src/rag_api/query/search_cache.py:62-72 | the similarity of vectors of equal length lies in [-1, 1] |
| `CacheLookup.CosineOfSelf` | src/rag_api/query/search_cache.py:62-72 | a vector has similarity 1 to itself, or 0 if all its entries are |
| `CacheLookup.CosineOfScaled` | src/rag_api/query/search_cache.py:62-72 | the similarity is symmetric, unchanged by scaling a vector, and turns its sign when one is turned round |
| `CacheLookup.DotConcat` | src/rag_api/query/search_cache.py:65-66 | the dot product adds up over the entries |
| `CacheLookup.DotOfOne` | src/rag_api/query/search_cache.py:65-66 | and of single entries is their product |
| `CacheLookup.RepeatedSearchHits` | src/rag_api/query/search_cache.py:93-107 | a usable cache answers a repeated search with the stored response as long as its entry reads |
| `CacheLookup.SimilarSearchHits` | src/rag_api/query/search_cache.py:109-129 | a semantic lookup serves an entry stored under a vector of the same direction, or one as near |
| `CacheLookup.ScanBucket` | src/rag_api/query/search_cache.py:109-119 | the scan finds a live entry of greatest positive similarity reaching the threshold, or shows that there is none, or fails on a length mismatch |
| `CacheLookup.LookUp` | src/rag_api/query/search_cache.py:82-129 | an exact hit first, else a nearest entry, else a miss; a failing scan is a miss |
| `CacheLookup.NoHitAfterInvalidation` | src/rag_api/query/search_cache.py:82-129 | from the invalidation of a KB until the next store covering it, in any run, no exact or semantic lookup covering it hits |
| `QueueWorker.Worker.DrainUploads` | src/rag_api/pipeline/queue/queue_worker.py:33-57 | the drain loop empties what is ready, in some order, as specified |
| `QueueWorker.Worker.DispatchUploads` | src/rag_api/pipeline/queue/queue_worker.py:101-148 | the upload loop dispatches, delays, skips or requeues as specified |
| `QueueWorker.Worker.DispatchDeletes` | src/rag_api/pipeline/queue/queue_worker.py:150-191 | the delete loop likewise |
| `QueueWorker.Worker.RunPoll` | src/rag_api/pipeline/queue/queue_worker.py:86-193 | one poll is two drains and two loops, and reports whether a quota was filled |
| `QueueWorker.Worker.HandleUpload` | src/rag_api/api/routers/docs.py:108-153 | the guarded upload: refused on an active document, else pending and queued |
| `QueueWorker.Worker.HandleDelete` | src/rag_api/api/routers/docs.py:348-358 | the guarded delete request: not found, conflict on an active document, else pending and queued |
| `QueueWorker.Worker.HandleForceFail` | src/rag_api/api/routers/docs.py:467-503 | refused on a stable document, else its upload events are removed and it is failed |
| `QueueWorker.Worker.HandleRecover` | src/rag_api/api/routers/docs.py:514-524 | refused unless running, else failed and queued again |
| `QueueWorker.Worker.HandleReindexKb` | src/rag_api/api/routers/docs.py:378-411 | the bulk reindex queues by the listed statuses, counts what it queues and what it skips |
| `QueueLaws.DrainRaisesIff` | src/rag_api/pipeline/queue/queue_worker.py:40-56 | a drain raises if and only if a ready payload is JSON but not an object |
| `QueueLaws.DrainMovesReached` | src/rag_api/pipeline/queue/queue_worker.py:36-56 | a drain moves exactly the payloads it gets to, and raises unless those are all |
| `QueueLaws.DrainKeepsEventsIff` | src/rag_api/pipeline/queue/queue_worker.py:36-56 | it keeps every well-formed event if and only if none stands behind a payload that is no JSON object |
| `QueueLaws.LoopAccounts` | src/rag_api/pipeline/queue/queue_worker.py:101-191 | every payload taken off a list is accounted for: dispatched as a task, delayed, or skipped |
| `QueueLaws.LoopWithinQuota` | src/rag_api/pipeline/queue/queue_worker.py:101-191 | a loop dispatches at most max_per_poll |
| `QueueLaws.IngestOnce` | src/rag_api/pipeline/queue/queue_worker.py:125-148 | the upload loop dispatches an existing document at most once and never a busy one |
| `QueueLaws.PollLosesNothingIff` | src/rag_api/pipeline/queue/queue_worker.py:86-193 | for arbitrary queues, a poll loses no well-formed upload or delete event if and only if none stands behind such a payload in a drain it gets to; its tasks are those it logs, within both quotas |
| `QueueLaws.PollLosesEvent` | src/rag_api/pipeline/queue/queue_worker.py:36-56 | two ready payloads, of which the second, a well-formed event, vanishes |
| `QueueLaws.PollIsExclusive` | src/rag_api/pipeline/queue/queue_worker.py:86-193 | one poll gives an existing document at most one ingest, and not both an ingest and a delete |
| `QueueOrder.RequestGoesLast` | src/rag_api/pipeline/queue/enqueue.py:16-39 | a request queues its event behind all others, as pending unless a pipeline works on the document |
| `QueueOrder.UploadQueues` | src/rag_api/api/routers/docs.py:108-153 | an upload of a new, deleted or idle document queues its event last; any other changes nothing |
| `QueueOrder.DeleteQueues` | src/rag_api/api/routers/docs.py:348-358 | a delete request of an idle document queues its event last; any other changes nothing |
| `QueueOrder.ReindexQueues` | src/rag_api/api/routers/docs.py:420-448 | so does a reindex request whose object changed |
| `QueueOrder.ReindexKbQueues` | src/rag_api/api/routers/docs.py:378-411 | a bulk reindex queues exactly the rows listed as indexed or failed whose object changed, in the order of the listing |
| `QueueOrder.ForceFailUnqueues` | src/rag_api/api/routers/docs.py:467-503 | failing a document by hand removes its upload events from list and delay set, keeps all others in order, and marks it failed |
| `QueueOrder.RecoverQueues` | src/rag_api/api/routers/docs.py:514-524 | recovering a running document queues a forced event of it last |
| `QueueOrder.DrainGoesLast` | src/rag_api/pipeline/queue/queue_worker.py:36-56 | a drain appends the payloads it gets to, in its order |
| `QueueOrder.DrainStatuses` | src/rag_api/pipeline/queue/queue_worker.py:40-56 | a drain marks the documents of its events pending, unless a pipeline works on them or their rows cannot be read |
| `QueueOrder.LoopPopsInOrder` | src/rag_api/pipeline/queue/queue_worker.py:101-191 | a dispatch loop pops what has waited longest, in order; one popped while the database is down goes to the end |
| `QueueOrder.LoopEnds` | src/rag_api/pipeline/queue/queue_worker.py:101-191 | a loop ends at an empty list, a filled quota, an event whose row cannot be read, or by raising at a payload that is no JSON object; a delayed event is due after the retry delay |
| `QueueOrder.PollPopsInOrder` | src/rag_api/pipeline/queue/queue_worker.py:86-193 | hence a poll works off what was queued and then what was drained, in that order |
| `QueueOrder.PollRaisesIff` | src/rag_api/pipeline/queue/queue_worker.py:86-193 | a poll raises exactly when it drains or pops a payload that is no JSON object |
| `Lifecycle.ReindexKbKeepsInv` | src/rag_api/api/routers/docs.py:378-409 | judging rows by the statuses of the listing is sound |
| `Lifecycle.LoopKeepsInv` | src/rag_api/pipeline/queue/queue_worker.py:101-191 | in a guarded run the loops keep the invariant and never raise |
| `Lifecycle.NextKeepsInv` | src/rag_api/api/routers/docs.py:108-153 | every guarded request, poll, pipeline start and end keeps the invariant |
| `Lifecycle.RunKeepsInv` | src/rag_api/pipeline/runner.py:42-97 | so does every run |
| `Lifecycle.ForceFailKeepsInvIff` | src/rag_api/api/routers/docs.py:453-503 | failing a document by hand keeps it if and only if no delete of the document is queued and no task works on it |
| `Lifecycle.RecoverKeepsInvIff` | src/rag_api/api/routers/docs.py:506-524 | recovering a running document keeps it if and only if no task works on the document |
| `Lifecycle.AtMostOneOutstanding` | src/rag_api/pipeline/utils/doc_state.py:148-157 | in every run a document has at most one queued, delayed or in-flight item, and none when stable or missing |
| `Lifecycle.PipelinesAreExclusive` | src/rag_api/pipeline/queue/queue_worker.py:195-227 | two pipelines never work on the same document together |
| `Lifecycle.NothingIsEverDelayed` | src/rag_api/pipeline/queue/queue_worker.py:127-136 | in every guarded run the delay sets stay empty |
| `Lifecycle.QueuedDeleteIsHard` | src/rag_api/pipeline/steps/delete.py:59-70 | a delete that comes through the queue always removes the row |
| `Lifecycle.DeleteEnds` | src/rag_api/pipeline/steps/delete.py:59-79 | how any delete ends: a deleted document is left alone, an indexed one only marked deleted unless forced, any other removed, and a failing delete marks it failed |
| `Endings.EveryRunIsAPath` | src/rag_api/pipeline/runner.py:20-97 | every ingest run over the stores is a path of lifecycle steps that its dispatched task can take, and leaves the statuses that path leaves |
| `Stranding.StepStrands` | src/rag_api/pipeline/runner.py:34-49 | exactly which documents a step leaves active with nothing outstanding, and which one an operator gets out |
| `Stranding.StrandedIff` | src/rag_api/pipeline/runner.py:34-49 | in every run those documents are exactly the ones whose object upload failed after the row was taken, whose event was not pushed, or whose task ended with an unmarked error, and that no operator failed or recovered since |
| `Stranding.StaysStranded` | src/rag_api/api/routers/docs.py:348-355 | until then such a document keeps its status, and no request, poll or pipeline step reaches it |
| `Stranding.ActiveIffOutstanding` | src/rag_api/pipeline/utils/doc_state.py:148-157 | in runs without such failures a document is active exactly while it has its one item |
| `Crawler.NearIsQueued` | src/rag_api/connectors/web.py:214-246 | once only entries of depth n are left, everything within n hops has been queued |
| `Crawler.ExtendKeepsExact` | src/rag_api/connectors/web.py:240-246 | a link is queued at its shortest distance from the seeds |
| `Crawler.QueueLinks` | src/rag_api/connectors/web.py:240-246 | the inner loop appends the new links in page order, as many as fit below the cap, and tells which link a full queue drops |
| `Crawler.NewLinksInOrder` | src/rag_api/connectors/web.py:240-246 | a link is new once, at its first place on the page, and new links keep the order of those places |
| `Crawler.Sync` | src/rag_api/connectors/web.py:194-246 | terminates; stops exactly at the first round on which the abort flag is raised, or with an empty queue or max_pages; works the queue off first in, first out, fetching the first entry of each URL in scope; no URL fetched twice, at most max_pages, depth within the limit, the queue never longer than its cap or the seeds; unless a link was dropped: the queue holds exactly the seeds and what the fetched pages add, shortest distances, nearest first, and every in-scope URL in reach fetched when the queue empties; and when no link can be dropped |
| `Ppt.FindMarker` | src/rag_api/pipeline/steps/parser/ppt.py:64-68 | the two searches find the first marker of either kind |
| `Ppt.ExtractTextRecords` | src/rag_api/pipeline/steps/parser/ppt.py:58-83 | the scan returns the non-empty texts of its slices, and ends |
| `Ppt.SlicesAreRecords` | src/rag_api/pipeline/steps/parser/ppt.py:63-83 | slices are in bounds, each behind a marker and the length it spans, disjoint and in order |
| `Ppt.EarlyMarkerStopsScan` | src/rag_api/pipeline/steps/parser/ppt.py:69-70 | a marker in the first two bytes ends the scan with nothing |
| `Ppt.U32RoundTrip` | src/rag_api/pipeline/steps/parser/ppt.py:72 | a 32-bit length read back from four little-endian bytes is unchanged |
| `Ppt.ScanUndoesEncode` | src/rag_api/pipeline/steps/parser/ppt.py:58-83 | any concatenation of records scans back to exactly its payloads in order, even where a payload holds marker bytes |
| `Ppt.EncodedTextsReadBack` | src/rag_api/pipeline/steps/parser/ppt.py:58-83 | hence to their texts |
| `Ppt.TextsConcat` | src/rag_api/pipeline/steps/parser/ppt.py:78-81 | the texts are those of the payloads in order |
| `Ppt.TextOfOne` | src/rag_api/pipeline/steps/parser/ppt.py:78-81 | without the empty ones |
| `Ppt.SmallRecordReads` | src/rag_api/pipeline/steps/parser/ppt.py:58-83 | byte by byte, a record of either marker with a length of two reads back |
| `RrfMerge.RrfMerge` | src/rag_api/query/merger.py:8-34 | one output per chunk id, with the sum of its reciprocal ranks over all occurrences, best first |
| `RrfMerge.ScoreInOneList` | src/rag_api/query/merger.py:20-24 | in a list that holds it once, a chunk scores the reciprocal of k and its rank |
| `RrfMerge.ScoreAddsUp` | src/rag_api/query/merger.py:20-24 | scores add up over lists, in any order |
| `RrfMerge.LastIsLatest` | src/rag_api/query/merger.py:24 | the result kept for a chunk is its last one over all lists |
| `RrfMerge.ScoreDominance` | src/rag_api/query/merger.py:20-24 | in lists that hold no chunk twice, a chunk ranked before another wherever that occurs scores at least as much, and more if it occurs |
| `RrfMerge.DominanceIsOrder` | src/rag_api/query/merger.py:26-34 | hence in such lists it comes before it in the merge |
| `RrfMerge.RepeatsBreakDominance` | src/rag_api/query/merger.py:20-24 | a list that repeats a chunk gives it a greater score than the one ranked before it |
| `SimHash.TallyVotes` | src/rag_api/pipeline/steps/dedup/simhash.py:35-42 | after all shingles each counter is the votes for its bit minus the votes against |
| `SimHashDetection.FingerprintStore.SaveBands` | src/rag_api/infra/postgres.py:835-853 | upserts one row per band with the KB of the document, or fails on a missing document |
| `SimHashDetection.FingerprintStore.CollectClose` | src/rag_api/pipeline/steps/dedup/simhash.py:111-124 | exactly the candidates with a fingerprint within the similar threshold, nearest first |
| `MinHash.MinOf` | src/rag_api/pipeline/steps/dedup/minhash.py:95 | a least hash value over the tokens |
| `ChunkCompare.BestCandidate` | src/rag_api/pipeline/steps/dedup/chunk_compare.py:176-180 | the first candidate of greatest score, and that score |
| `Verdict.Store.MarkOutdated` | src/rag_api/pipeline/steps/dedup/verdict.py:48-58 | sets the status and the link of an existing row |
| `Verdict.Store.PurgeDocArtifacts` | src/rag_api/pipeline/utils/purge.py:44-58 | removes the document's points in the named KB, its bands, its signature and its ancestor rows |
| `AutoMergeLoop.Round` | src/rag_api/query/retriever.py:178-207 | one level: groups, looks up and merges as specified, and reports whether anything merged |
| `ParentChunks.AssignLevels` | src/rag_api/pipeline/steps/chunk.py:157-168 | runs the memoised recursion over all ancestors |
| `QueueWorker.Worker.DrainDeletes` | src/rag_api/pipeline/queue/queue_worker.py:33-57 | the same for deletes |
| `QueueWorker.Worker.PushUpload` | src/rag_api/pipeline/queue/enqueue.py:16-39 | an unknown or deleted document is not queued; an idle one becomes pending |
| `QueueWorker.Worker.PushDelete` | src/rag_api/pipeline/queue/enqueue.py:53-77 | the same for deletes |
| `Crawler.QueueSeeds` | src/rag_api/connectors/web.py:202-205 | all seeds are queued at depth 0, repeats included |

## Left out

- S3, HTTP, tracing, logging, the CLI, the MCP tools and deployment files: plumbing.
- md5, sha256, the hash family, the embedder, the tokenizer, UTF-16 decoding, JSON parsing and URL normalisation are function parameters; what a proof needs of them (injectivity, round trips) is a hypothesis stated in the lemma.
- Splitters, parsers, rerankers and pg_trgm: their node trees, token lists, hit scores and title scores are inputs.
- Floating-point rounding: scores and vectors are reals, square roots a function that squares back, and the rounding in `rrf_merge` a function.
- SimHashDetection.DetectionIsScan: assumes that the scanned documents own their bands, which the pipeline does not always keep; `BandUpkeep.BandsMatchInRunsIff` says when it does. Where the similar threshold is the smaller one, reach means that one.
- BandUpkeep.HiddenIff: all passes of a run use one fingerprint setting of at most 64 bits; a change of settings is not modelled. A `SetStatus` or `Create` step may give any status but outdated, also ones the service never gives at that point.
- AutoMergeRigging.LoopsAgreeIff: compares the loops over all child counts at once; for given counts they may agree on other forests too.
- Lifecycle.RunKeepsInv: operators fail or recover a document only when no task or queued delete of it is left, as `ForceFailKeepsInvIff` and `RecoverKeepsInvIff` show they must; runs do not contain sync abort or the connectors' `set_fetching`, which overwrite `running` while a task may be alive; a retry of a row created at the same moment by another upload is one request.
- Lifecycle: in polls a database error re-queues the event; in pipelines it is the failure outcome of a step, or an `Escape` where nothing marks the document; in requests it shows as an object not stored or an event not pushed.
- VerdictLaws.RunsKeepForest: an ingest run is one step, so the document its pass names still has the status it was found with when the verdict is applied.
- Verdict: cleanup errors swallowed by `set_failed` are taken not to occur, the removals of one purge are one write, S3 objects are not modelled, and creation dates are integers.
- VerdictLaws.BrokenTakeoverKeepsChunksIff: the failure handling gets past reading the row; when it does not, nothing is cleaned up.
- SearchCacheLaws.RunKeepsInv: all stores use one TTL; `InsertKeepsIndexedIff` and `ShrinkingTtlLeavesStaleAnswer` show what a change of TTL does. A store that lands after an invalidation is a later step.
- Ties are broken arbitrarily where Redis or Postgres decide: equal stamps in the eviction order, the members of a ready delay set, rows of one query. Ties in `rrf_merge` are not specified.
- Crawler.Sync: the web does not change during a crawl, and the scope filter is a predicate; staging of pages inside `_process_page` is not modelled.
- Ppt.ScanUndoesEncode: what precedes a marker must hold no marker itself; it may be any bytes beyond the 2-byte header.
- ParentChunks.BuildParentChunks: assumes parent pointers without cycles, on which `_level_of` would not return.
- Filtering and numbering at the end of `chunk`, merging and truncation in `query`, orphan filtering, sparse vectors, settings overrides, masking, hooks, pagination and file names: easy members.
- `event_queue_sensor.py` (the shape of `_poll`, with liveness from Dagster) and `dequeue_upload_events`: not part of this model.
- `normalize_source_uri`: percent-decoding dominates it.
