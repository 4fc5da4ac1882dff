# Verified model of the Alvis ingestion and retrieval pipeline

Alvis turns the documents of a source into embedded chunks in a vector index, run after run, and answers
queries from that index. This project models the parts of it whose correctness is not visible from one
function body, and proves what they promise.

- **Incremental ingestion** (`Models`, `MemoryIndexes`, `DocStores`, `RunPlans`, `Stages`, `Engine`). A run is the
  fixed stage sequence fetch, extract, embed, upsert, reconcile, commit over a mutable `RunContext`, and may stop
  at any stage, at any artifact, or after any number of upserts. The stage methods and loops are imperative and
  are proved against the functions of `RunPlans`; `Engine.Run` is proved to be the state change `RunPlans.Step`.
- **What ingestion promises** (`PlanFacts`, `Ingestion`, `Histories`, `Recovery`, `Contents`, `Leftovers`, `Limits`,
  `Isolation`, `SharedIndexes`). `Ingestion.Scratch` is what a run from nothing builds for a snapshot, and
  `Contents` says which points that is in terms of the chunker's pieces and the embedder alone. Every history of successful
  incremental runs ends with exactly that index; so does the next success after any failures, as long as no document
  returns to its stored fingerprint after a failed run saw it changed or missing. `Recovery` makes this exact: it tracks,
  from the stored entries and listings alone, which chunks each run loses or repairs, and the index is right again if and
  only if nothing is left lost. `Leftovers` extends this to every state the index can be in, points left by other settings
  included. `Limits` gives the inputs for which promises fail and the exact conditions under which they hold. `Isolation`
  says when sources sharing an index leave each other alone, however their writes interleave: exactly when none of them
  writes over a point another one holds. `SharedIndexes` proves it of pipelines: any number of them with disjoint listings
  can interleave whole histories, crashes included, and each ends with what its own history leaves alone; two that list
  the same document lose points to each other under whatever source ids.
- **Chunking** (`Text`, `AutoChunk`, `SplitFacts`, `ChunkShape`, `SizeChunk`, `Markdown`, `Chunkers`, `Headings`). No word is lost,
  reordered or fused; greedy filling uses the fewest pieces; which paragraphs each chunk adds and which characters it
  carries, exactly; size bounds; headings.
- **Ranking** (`Sorting`, `Cosine`, `Bm25`, `Search`, `Fusion`, `Query`, `Answers`, `Consensus`). Cauchy-Schwarz and its
  equality case, BM25 bounds and monotonicity, conservation and consensus of Reciprocal Rank Fusion, two search
  implementations that agree, the whole query with who may see what and how many hits come back, and the exact `top_k`
  up to which consensus wins.
- **Embedding** (`EmbeddingCache`, `FanOut`, `ApiEmbedder`). A transparent cache; a bounded fan-out under every
  interleaving; batches reassembled in input order.
- **Remote clients** (`PageTree`, `PagedReconcile`, `BatchUpsert`). The Confluence page-tree walk over any finite graph, and the paged
  scans that delete exactly what the in-memory index deletes, and batched upserts.

Conventions. SHA-256 and the version 5 UUIDs of section 4.3 of RFC 4122 are idealised as injective by keeping their
preimages (`Digest`, `PointId`). Floats are exact reals; `sqrt` and `log` are parameters with their defining
properties. A failing run is a `Fault` that says where it stops. Listings hold each URI once, URIs hold no newline
(`ValidSnapshot`), and a listing fingerprint stands for one content of its URI (`Honest`).

## Where the code and its documentation disagree

The model follows the code in each case.

- The pipeline signature's description (src/alvis/pipeline/engine.py:50-52) and the project's README (README.md:672)
  promise that changed chunk settings never leave chunks behind. Reconcile compares only the URI and the content hash, so old
  chunks of unchanged content survive. `Limits.RechunkedIffOldTextsRemain` is the exact condition, for settings that change
  alone or together with documents; `Limits.RechunkedAfterRunsIff` is the condition after any number of further runs;
  `Limits.RechunkedWitness` is an input on which the promise fails.
- The project's README (README.md:543-546) recommends distinct source identities for pipelines that share a collection.
  They are not enough: point ids do not contain the source. `SharedIndexes.SharedDocumentDisturbs` shows one
  pipeline losing points to another that lists the same document; `Isolation.InterleavingIsInvisibleIff` is the exact
  condition, and `SharedIndexes.PipelinesLikeAlone` shows that disjoint listings meet it.
- `AutoChunker` is described as carrying `overlap` trailing tokens. For an overlap of zero `text[-0:]` is the whole
  text, so whole chunks are carried when they do not contain a space to cut at, and everything after the first
  space when they do. `SplitFacts.SizeBoundIffOverlap` shows that the size bound holds exactly when the overlap is
  positive; `SplitFacts.ZeroOverlapBreaksBound` is the input.
- `gather_bounded` says an exception propagates after the other calls in flight finish; `asyncio.gather` raises it at
  once. `FanOut.FailsAloneIff`: a first failure always finds no other call in flight exactly when no two calls can run together or
  none fails; `FanOut.FailureAmidstOthers` is the run in which one fails while another is in flight.
- The index protocol (src/alvis/index/base.py:51) speaks of similarities in [0, 1]; the code clamps to [-1, 1].
  `Cosine.ScoreInUnitIntervalIff`: a score lies in [0, 1] exactly when the dot product is not negative;
  `Cosine.OppositeScoresBelowZero` is a pair of vectors for which it does not.
- Sections chunks are described as heading-anchored, the heading being repeated on continuations
  (src/alvis/chunk/sections.py:1-5); whether the first chunk starts with it is never checked.
  `Headings.ChunksStartWithHeadingIff`, for any heading: exactly when the paragraphs the section opens with spell that line
  within the token budget. `Headings.StrippedHeadingStartsIff`, for headings that do not end in whitespace: exactly when the line fits the
  budget and no blank line inside the heading is dropped. `Headings.BrokenHeadingWitness` covers the headings, as HTML can
  produce them, that hold an empty paragraph: none of them is kept, though one of eight characters is among them
  (`Headings.ShortBrokenHeading`).

## Model

| member | source | states |
|---|---|---|
| Models.OneLineUrisNeverShareIds | src/alvis/core/ids.py:8-11 | for newline-free URIs the point id determines both the URI and the text |
| Models.SharedIdIffCollide | src/alvis/core/ids.py:8-11 | two URIs can share a point id for some texts exactly when they are equal or one extends the other past a newline |
| MemoryIndexes.MemoryIndex.Upsert | src/alvis/index/memory.py:39-54 | the point stored under the chunk's id is replaced, every other point is kept |
| MemoryIndexes.MemoryIndex.Reconcile | src/alvis/index/memory.py:56-72 | exactly the source's points whose URI is unlisted or listed under another hash are removed |
| DocStores.DocStore.Entry | src/alvis/docstore.py:109-121 | an entry is visible only under its own source and the signature it was committed with |
| DocStores.DocStore.Commit | src/alvis/docstore.py:123-148 | the source's entries become exactly the run's, are invisible under any other signature, no other source's change, and the count is of known documents that disappeared |
| DocStores.DocStore.RecordRun | src/alvis/docstore.py:170-180 | the record becomes the last run and the history stays bounded |
| DocStores.Newest | src/alvis/docstore.py:178-179 | the ten newest records are kept |
| Stages.RunContext.Compare | src/alvis/pipeline/stages.py:120-133 | a listed document is skipped exactly when its stored listing fingerprint is unchanged, and then its stored entry is carried over |
| Stages.RunContext.Fetch | src/alvis/pipeline/stages.py:107-147 | with listing only changed documents are downloaded and the skipped ones keep hash and entry; otherwise everything is fetched; the counters add up |
| Stages.RunContext.ChunkArtifact | src/alvis/pipeline/stages.py:185-193 | each piece becomes one pending chunk with its own text, the artifact's URI and hash and both metadata, in order; without an index the pieces are only counted |
| Stages.RunContext.ExtractArtifact | src/alvis/pipeline/stages.py:161-204 | one artifact is skipped by content hash, or recorded and chunked, or stops the run; where chunks are kept and counted |
| Stages.RunContext.Extract | src/alvis/pipeline/stages.py:161-204 | the loop over artifacts is the extraction plan, stops only at a failing artifact that is not skipped, and counts exactly the changed documents |
| Stages.RunContext.Embed | src/alvis/pipeline/stages.py:207-225 | vector i is the embedding of pending chunk i |
| Stages.RunContext.Upsert | src/alvis/pipeline/stages.py:242-259 | the pending chunks are upserted in order, or a prefix of them when the run fails part-way |
| Stages.RunContext.Reconcile | src/alvis/pipeline/stages.py:262-273 | the index is pruned against the run's uri-to-hash map, or left alone on failure |
| Stages.RunContext.Commit | src/alvis/pipeline/stages.py:276-293 | the run's entries replace the source's, or nothing is stored on failure |
| Engine.Prepare | src/alvis/pipeline/stages.py:107-204 | fetch then extract arrive at the plan of the listed documents |
| Engine.WriteIndex | src/alvis/pipeline/stages.py:207-273 | embed, upsert and reconcile leave the finished points, or those of the stage that failed |
| Engine.Ingest | src/alvis/pipeline/engine.py:281-289 | every stage before the commit, for each way a run can stop |
| Engine.Execute | src/alvis/pipeline/engine.py:281-298 | nothing is committed unless every earlier stage succeeded; the result counters are right |
| Engine.Run | src/alvis/pipeline/engine.py:170-265 | a run on the real objects is exactly the step function on index and document store; its ledger entry, failed or not, is put first with the exact counts of documents, chunks, changed, skipped and deleted; no other source's ledger changes |
| Engine.RecordSays | src/alvis/pipeline/engine.py:290-298 | the ledger entry of a success counts the listed documents, those unchanged and the others, the pieces of the others, and the stored documents no longer listed; a failure counts nothing |
| PlanFacts.PlanClosedForm | src/alvis/pipeline/stages.py:107-204 | with unique URIs every listed document is current under its own content hash, gets its entry, and exactly the changed ones are chunked, whichever way the source lists |
| PlanFacts.ChunkMetadataWins | src/alvis/pipeline/stages.py:189-192 | a chunk carries its artifact's metadata except where its own says otherwise |
| PlanFacts.EntriesAreListed | src/alvis/pipeline/stages.py:107-182 | a run stores an entry for exactly the listed documents, whatever it skipped and however often a URI is listed |
| PlanFacts.ChangedOrSkipped | src/alvis/pipeline/stages.py:119-133 | every listed document is changed or skipped, never both, and the two counts add up |
| PlanFacts.TallyCloses | src/alvis/pipeline/stages.py:119-187 | fetch and extract together count every document once, and the chunks of exactly the processed ones |
| PlanFacts.TallyAddsUp | src/alvis/pipeline/engine.py:290-298 | documents are changed plus skipped, and with an index the chunks counted are those to be written |
| PlanFacts.FetchedIsChanged | src/alvis/pipeline/stages.py:119-134 | downloading by wanted URI fetches exactly the changed documents |
| PlanFacts.AllItemsHave | src/alvis/pipeline/stages.py:253-259 | upserting several documents keeps every point of each of them |
| Ingestion.FinishedPoint | src/alvis/pipeline/stages.py:242-273 | which points a successful run leaves, point by point |
| Ingestion.RunRestoresScratchIff | src/alvis/pipeline/stages.py:107-293 | a successful run restores the from-scratch index exactly when every skipped document still has all its points and no listed one has leftovers under its current hash |
| Histories.StepStaysSafe | src/alvis/pipeline/stages.py:242-293 | every run, wherever it stops, keeps points authentic, ids right and stored fingerprints justified |
| Histories.EveryStateIsSafe | src/alvis/pipeline/stages.py:107-293 | in every state reachable through any history each point of the source is a chunk of the content its hash tags |
| Histories.NothingOutsideCurrent | src/alvis/index/memory.py:56-72 | after every run that got past its reconcile, committed or not, every point of the source belongs to a listed document under its current hash |
| Histories.SuccessRestores | src/alvis/pipeline/stages.py:107-293 | one success over intact points rebuilds the from-scratch index and leaves every stored document intact |
| Histories.FailureKeepsSkipped | src/alvis/pipeline/stages.py:228-273 | a run, failed or not, leaves the points of every document it skipped alone |
| Histories.StepTracksDirty | src/alvis/pipeline/engine.py:189-205 | through failures every stored document outside the tracked set keeps all its points, and a success empties the set |
| Histories.RecoveryAfterCrashes | src/alvis/pipeline/engine.py:189-205 | after any mix of failed and successful runs, a final success equals the from-scratch build, given no document returns to its stored fingerprint after an uncommitted run saw it changed or missing |
| Histories.IncrementalRefinesFull | src/alvis/pipeline/stages.py:107-293 | any sequence of successful incremental runs with arbitrary edits between them ends with the points a from-scratch run on the last snapshot builds |
| Contents.RebuiltIffHoldsPieces | src/alvis/pipeline/stages.py:161-273 | the from-scratch build spelled out: a source holds it if and only if its points are those of the listed documents' pieces, each with its text, URI, metadata, hash and vector |
| Contents.IncrementalHoldsPieces | src/alvis/pipeline/stages.py:107-293 | after any sequence of successful runs every piece of every listed document stands in the index under its own text with that text's vector, and the source has no other points |
| Contents.RecoveredIffHoldsPieces | src/alvis/pipeline/engine.py:189-205 | after failed runs too, exactly when tracking leaves nothing lost |
| Contents.EmbedsExactlyTheChanged | src/alvis/pipeline/stages.py:119-193 | after a success the next run embeds the pieces of exactly those documents that are not listed as they were, by fingerprint or by content as the runs list |
| Histories.RecoversIffSkippedIntact | src/alvis/pipeline/stages.py:119-133 | in any safe state a successful run restores the from-scratch index if and only if each document it skips kept all its points |
| Recovery.FailureTracksLost | src/alvis/pipeline/stages.py:228-273 | which owed chunks a failing run writes over, prunes or leaves, exactly, for every place it can stop |
| Recovery.OneDebtAfterSuccess | src/alvis/pipeline/stages.py:107-293 | a success repairs every lost chunk except those of the documents it skips |
| Recovery.StepTracksLost | src/alvis/pipeline/engine.py:189-205 | after any run exactly the tracked chunks are missing |
| Recovery.TrackingIgnoresPoints | src/alvis/pipeline/engine.py:189-205 | tracking is decided by the stored entries and the listings: it comes out the same whatever points the index holds |
| Recovery.HistoryTracksLost | src/alvis/pipeline/engine.py:189-205 | the same over any history of runs |
| Recovery.SuccessRestoresIff | src/alvis/pipeline/stages.py:107-293 | a success restores the from-scratch index if and only if it leaves no chunk lost |
| Recovery.RecoversIffNothingLost | src/alvis/pipeline/engine.py:189-205 | after any history ending in success the index is the from-scratch build if and only if tracking the history leaves nothing lost |
| Recovery.RecoversFromNothingIff | src/alvis/pipeline/engine.py:189-205 | for a source nothing is stored about the tracking starts from the empty set |
| Recovery.NothingLostIffSkippedIntact | src/alvis/pipeline/stages.py:119-133 | a success leaves nothing lost if and only if each document it skips had all its points |
| Leftovers.StepTracksForeign | src/alvis/pipeline/stages.py:228-273 | from any state, the points that are no chunk of their content after a run are exactly those it neither writes over nor prunes |
| Leftovers.NoForeignIffNoLeftover | src/alvis/index/memory.py:56-72 | a success removes all such points if and only if none stood under a listed document and its current hash |
| Leftovers.SuccessRestoresAnywayIff | src/alvis/pipeline/stages.py:107-293 | a success from any well-formed state restores the from-scratch index if and only if it leaves nothing lost and nothing foreign |
| Leftovers.RestoredIffNothingLostOrForeign | src/alvis/pipeline/engine.py:189-205 | the exact recovery condition over whole histories from any well-formed state, other settings before it included |
| Leftovers.ForeignIgnoresPoints | src/alvis/pipeline/engine.py:189-205 | tracking the foreign points looks at the index no further than where it starts |
| Limits.RechunkedIffOldTextsRemain | src/alvis/pipeline/engine.py:47-56 | after a settings change, alone or with document edits, the index equals a rebuild if and only if every old chunk text of an unchanged document is also a new one |
| Limits.RechunkedAfterRunsIff | src/alvis/pipeline/engine.py:47-56 | after a settings change and any number of successful runs the index equals a rebuild if and only if every old chunk text of a document that kept its content through all of them is also a new one |
| Limits.RechunkedWitness | src/alvis/pipeline/engine.py:50-52 | a concrete settings change after which the index is not the rebuild |
| Limits.ReturningDocumentLosesSharedChunks | src/alvis/pipeline/stages.py:119-133 | a failed run that retagged a shared chunk, then a return to the stored fingerprint: the next success does not restore the index |
| Limits.ReturningDocumentWitness | src/alvis/pipeline/stages.py:119-133 | concrete runs on which recovery fails |
| Limits.TrackedWitness | src/alvis/pipeline/stages.py:119-133 | on those runs the tracking of lost chunks reports the loss |
| Isolation.ActionIsLocalIff | src/alvis/index/memory.py:39-72 | an action affects a source's points only as far as it is its own if and only if it does not write over a point of that source |
| Isolation.InterleavingIsInvisibleIff | src/alvis/index/memory.py:39-72 | at every moment of an interleaving a source has the points its own actions alone would give if and only if no other source ever writes over one of them |
| Isolation.InterleavingIsInvisible | src/alvis/index/memory.py:39-72 | so at the end too |
| Isolation.OwnersNeverTake | src/alvis/core/ids.py:8-11 | actions that each write only under their own source's one-line URIs never write over another source's points |
| Isolation.DistinctSourcesDisturb | src/alvis/index/memory.py:48-72 | two distinct sources holding the same chunk: the second takes the point over, prunes it, and the first has lost it |
| Isolation.RunActionsAreTheRun | src/alvis/pipeline/stages.py:253-273 | a run's upserts and reconcile, one action at a time, are the run |
| Isolation.InterleavedLikeAlone | src/alvis/pipeline/stages.py:242-273 | a run interleaved with sources that write over none of its points ends with the points it would have alone |
| Isolation.ConcurrentRunRestoresScratch | src/alvis/pipeline/stages.py:242-273 | a successful run interleaved with such sources ends with its from-scratch points |
| Isolation.StepActionsAreTheStep | src/alvis/pipeline/stages.py:242-273 | a run that stops anywhere is the sequence of its writes and perhaps its prune |
| Isolation.InterleavedHistoryLikeAlone | src/alvis/pipeline/stages.py:242-273 | a whole history, crashed runs included, interleaved with such sources leaves what it leaves alone |
| Isolation.InterleavedHistoryRecoversIff | src/alvis/pipeline/engine.py:189-205 | the exact recovery condition holds among other sources too, as long as none writes over a held point |
| SharedIndexes.StepRespects | src/alvis/pipeline/stages.py:242-273 | a run over a listing of its own documents writes only points of its own documents, wherever it stops |
| SharedIndexes.HistoryRespects | src/alvis/pipeline/stages.py:242-273 | so does a whole history |
| SharedIndexes.PipelinesLikeAlone | src/alvis/index/memory.py:39-72 | any number of pipelines with disjoint listings, histories interleaved in any way: each ends with the points its own history leaves alone |
| SharedIndexes.PipelinesRecoverIff | src/alvis/pipeline/engine.py:189-205 | each of them ends at its from-scratch index if and only if tracking its own history leaves nothing lost |
| SharedIndexes.PipelinesRecover | src/alvis/pipeline/engine.py:189-205 | each recovers from its crashes among the others by the no-return rule |
| SharedIndexes.PipelinesRefineFull | src/alvis/pipeline/stages.py:107-293 | pipelines that start from nothing and succeed each end with their from-scratch points |
| SharedIndexes.SharedDocumentDisturbs | src/alvis/index/memory.py:48-72 | a run of another source writes a chunk this one holds: the next successful run that skips the document does not restore the index |
| SharedIndexes.SharedDocumentWitness | src/alvis/index/memory.py:48-72 | two concrete pipelines with distinct source ids, two successful runs, and a point lost |
| PageTree.ServedIsWholeIff | src/alvis/sources/confluence.py:162-180 | paging loses nothing exactly when the server grants the page size asked for or no child list is longer than what it grants |
| PageTree.ListChildren | src/alvis/sources/confluence.py:162-180 | paginated listing equals the child list as served, whatever its length and whatever the server's own limit |
| PageTree.VisitChildren | src/alvis/sources/confluence.py:153-159 | each unseen child is recorded and queued once, and breadth-first order is kept |
| PageTree.FullyExpanded | src/alvis/sources/confluence.py:151-160 | once the queue is empty every id within n links was found at depth n or less |
| PageTree.DistanceIsUnique | src/alvis/sources/confluence.py:151-160 | an id has at most one breadth-first distance from the root |
| PageTree.ListTree | src/alvis/sources/confluence.py:141-160 | the walk terminates on every finite graph, cycles included, and returns the root and exactly the ids reachable in the tree as served, each once, nearest to the root first, each listed under an earlier one |
| Text.WordsConcat | src/alvis/chunk/auto.py:88 | splitting on whitespace distributes over text joined at a whitespace boundary |
| AutoChunk.HardSplitLoop | src/alvis/chunk/auto.py:85-96 | the loop is the greedy filling |
| AutoChunk.HardSplitKeepsWords | src/alvis/chunk/auto.py:85-96 | the pieces hold exactly the text's words in order; each is within budget or a single word |
| AutoChunk.HardSplitIsOptimal | src/alvis/chunk/auto.py:85-96 | no split of the same words into consecutive fitting pieces has fewer pieces |
| AutoChunk.HardSplitIsGreedy | src/alvis/chunk/auto.py:85-96 | the pieces are the words in order, joined by single spaces and cut exactly where the next word does not fit |
| AutoChunk.SplitTextLoop | src/alvis/chunk/auto.py:58-82 | the loop over paragraphs is the packing function |
| SplitFacts.StripIsEmptyIffBlank | src/alvis/chunk/auto.py:61 | a stripped text is empty exactly when the text is all whitespace |
| SplitFacts.ParagraphsKeepWords | src/alvis/chunk/auto.py:61 | cutting at blank lines and dropping blank parts keeps every word |
| SplitFacts.TailFacts | src/alvis/chunk/auto.py:99-106 | what is carried is a suffix of the chunk before, within a positive overlap |
| ChunkShape.TailIsEnd | src/alvis/chunk/auto.py:99-106 | exactly what a positive overlap carries: nothing of a chunk within it, otherwise what follows the first space among its last words, or those words when no space stands between them |
| ChunkShape.CarriedIsEnd | src/alvis/chunk/auto.py:68-82 | in a split text a chunk within the overlap hands nothing on, no chunk is handed on whole, and each carries that end of the one before unless a piece of an oversized paragraph is involved |
| ChunkShape.ChunksTileParagraphs | src/alvis/chunk/auto.py:68-82 | each chunk adds consecutive paragraphs with blank lines between them, more than one only within the budget, and ends where the next does not fit; oversized paragraphs become their pieces |
| ChunkShape.BreaksRejoin | src/alvis/chunk/auto.py:61 | cutting at blank lines, leftmost first, is undone by joining, and no part holds a blank line |
| ChunkShape.KeptPartByPart | src/alvis/chunk/auto.py:61 | dropping blank parts leaves all others as they are, in order |
| SplitFacts.TailStartsAtWord | src/alvis/chunk/auto.py:99-106 | only what stands before the window's first space is dropped, so the tail starts at a word of the chunk; without a space the window is carried whole |
| SplitFacts.ChunksAreFullAndCarried | src/alvis/chunk/auto.py:68-82 | each later chunk carries the tail of the one before, which was closed only because the next paragraph did not fit, unless one of the two is a piece of a paragraph too long by itself |
| SplitFacts.ChunksAreCuts | src/alvis/chunk/auto.py:80-82 | the final filter drops nothing, and each chunk starts with nothing or with the tail of the chunk before |
| SplitFacts.SplitKeepsWords | src/alvis/chunk/auto.py:58-106 | without the carried prefixes, each a suffix of the chunk before, the chunks' words are exactly the text's |
| SplitFacts.OverlapBoundsSize | src/alvis/chunk/auto.py:58-106 | with a positive overlap every chunk has at most 4 max_tokens + 4 overlap + 2 characters or is a single oversized word |
| SplitFacts.ZeroOverlapBreaksBound | src/alvis/chunk/auto.py:102 | with zero overlap, for every budget, a text whose second chunk carries the whole first one |
| SplitFacts.SizeBoundIffOverlap | src/alvis/chunk/auto.py:58-106 | the size bound holds for every text if and only if the overlap is positive |
| SizeChunk.SplitByCharsLoop | src/alvis/chunk/size.py:41-65 | the slicing loops compute the specified parts, for every size and overlap |
| SizeChunk.SliceLoop | src/alvis/chunk/size.py:45-65 | the outer loop terminates and yields the non-blank slices |
| SizeChunk.SlicesAreSliced | src/alvis/chunk/size.py:48-64 | slices are budgeted, move forward, overlap by at most the overlap, and skip nothing but whitespace |
| SizeChunk.SliceEndsAtWordBoundary | src/alvis/chunk/size.py:49-53 | a slice ends with the text whenever the rest fits the budget, else at the last space within it, or at the budget when it holds no space |
| SizeChunk.SlicesStepBack | src/alvis/chunk/size.py:59-64 | the next slice starts exactly the overlap before the end of this one, or at that end when this would not move forward, blanks skipped |
| SizeChunk.ShortcutIsSlicing | src/alvis/chunk/size.py:41-47 | the shortcut for short texts gives what slicing gives |
| SizeChunk.KeptSliceBySlice | src/alvis/chunk/size.py:54-57 | blank slices are dropped, all others kept unchanged and in order |
| SizeChunk.SplitByCharsKeepsSolids | src/alvis/chunk/size.py:41-65 | with no overlap the parts hold every non-whitespace character once, in order |
| SizeChunk.PartsFitBudget | src/alvis/chunk/size.py:41-65 | every part has at most max(1, size) characters |
| SizeChunk.EverySolidIsCovered | src/alvis/chunk/size.py:41-65 | every non-whitespace character lies in some part, whatever the size and the overlap |
| Markdown.HeadingLevelIff | src/alvis/extract/markdown.py:53-62 | a line is a heading of a level exactly for that many leading hashes, one to six, and then a space |
| Markdown.HeadingLevelLoop | src/alvis/extract/markdown.py:53-62 | the counting loop finds the heading level |
| Markdown.ExtractLoop | src/alvis/extract/markdown.py:24-44 | the line loop is the section reading |
| Markdown.HeadingIsRead | src/alvis/extract/markdown.py:24-62 | one to six hashes, a space and a text, indented or not, are a heading of that level titled with the stripped text, unless the text is blank |
| Markdown.ExtractSectionBySection | src/alvis/extract/markdown.py:24-44 | a heading line and the lines up to the next one make one more section, its body those lines with their line breaks, stripped as a whole |
| Markdown.ExtractWithoutHeadings | src/alvis/extract/markdown.py:24-44 | lines before any heading make one section without a title |
| Markdown.ExtractKeepsWords | src/alvis/extract/markdown.py:16-62 | each word of each non-heading line is in a section under its nearest preceding heading, in order |
| Chunkers.AutoChunkDocument | src/alvis/chunk/auto.py:29-47 | the document loop labels the non-blank parts of every section |
| Chunkers.SectionChunkDocument | src/alvis/chunk/sections.py:25-47 | the document loop labels every part, continuations with their heading line |
| Chunkers.SectionTextReadsBack | src/alvis/chunk/auto.py:50-55 | a section's text is Markdown that extraction reads back as the same section |
| Chunkers.HeadingLineIsRead | src/alvis/chunk/auto.py:55 | its first line is a hash, a space and the heading, and reads back as a heading of the first level |
| Chunkers.MarkdownWordsReachChunks | src/alvis/chunk/sections.py:25-47 | from lines to chunks, with either chunker, each word of a non-heading line is in a chunk labelled with its nearest heading |
| Chunkers.ChunksAddEveryWord | src/alvis/chunk/auto.py:29-55 | what the chunks of a document add to what they carry is exactly the words of its heading lines and bodies, in order, each under its heading |
| Chunkers.AutoChunksAreCuts | src/alvis/chunk/auto.py:29-47 | the auto chunker's chunks are those pieces, one each |
| Chunkers.SectionChunksAreCuts | src/alvis/chunk/sections.py:25-47 | the sections chunker's are the same pieces, continuations perhaps with their heading line in front |
| Chunkers.MarkdownWordsAreChunked | src/alvis/extract/markdown.py:16-62 | from lines to chunks as an equality: what the chunks' pieces add behind the heading lines they start with is the words of the non-heading lines, in order, each under its nearest heading |
| Headings.ChunksStartWithHeadingIff | src/alvis/chunk/sections.py:30-36 | for any heading: every chunk starts with the heading line if and only if the opening paragraphs spell it within the budget |
| Headings.StrippedHeadingStartsIff | src/alvis/chunk/sections.py:30-36 | for a heading without trailing whitespace: if and only if the line fits and no blank line inside it is dropped |
| Headings.BrokenHeadingWitness | src/alvis/extract/base.py:67 | no heading with an empty paragraph in it is kept, whatever the budget |
| Headings.ShortBrokenHeading | src/alvis/extract/base.py:67 | one of those headings makes a line of eight characters, which fits any budget of two tokens |
| Sorting.SortSorts | src/alvis/index/memory.py:103 | sorting gives the same elements in descending order |
| Sorting.SortIsStable | src/alvis/index/fusion.py:52 | elements with equal keys keep their order |
| Cosine.CauchySchwarz | src/alvis/index/_math.py:8-10 | the squared dot product is at most the product of the squared norms |
| Cosine.DotAtCoordinate | src/alvis/index/_math.py:8 | every coordinate counts: a change of one changes the product by that much of the other vector's |
| Cosine.DotOfZero | src/alvis/index/_math.py:8 | a zero vector has product 0 with every vector |
| Cosine.CosineTimesNorms | src/alvis/index/_math.py:6-13 | similarity times both norms is the dot product, vectors without length included |
| Cosine.SimilarityIsOneIff | src/alvis/index/_math.py:6-13 | two vectors that are not zero have similarity 1 if and only if one is a positive multiple of the other, coordinate by coordinate |
| Cosine.CosineInUnit | src/alvis/index/_math.py:6-13 | cosine similarity of equally long vectors lies in [-1, 1] |
| Cosine.ClampIsIdentity | src/alvis/index/_math.py:16-18 | clamping a cosine similarity changes nothing |
| Cosine.ScoreInUnitIntervalIff | src/alvis/index/base.py:51 | a score lies in [0, 1] if and only if the dot product is not negative |
| Cosine.OppositeScoresBelowZero | src/alvis/index/base.py:51 | opposite vectors score below zero |
| Search.SqliteSearch | src/alvis/index/sqlite.py:149-179 | the SQLite row loop gives, hit for hit, the in-memory search's answer on the same points |
| Search.SearchesAgree | src/alvis/index/memory.py:97-112 | clamping before or after the stable sort makes no difference |
| Search.DenseSearchFacts | src/alvis/index/memory.py:83-112 | the hits are the best top_k visible points, best first, and no omitted one outscores them |
| Search.KeywordSearchFacts | src/alvis/index/memory.py:114-140 | the hits are the best top_k visible points by BM25, best first, and no omitted one outscores them |
| Search.VisibleMembers | src/alvis/index/_acl.py:14-20 | exactly the points passing the filters and the access check are candidates |
| Answers.AdmittedIffPermitted | src/alvis/index/_acl.py:14-20 | a point is admitted if and only if every filtered key has the wanted text and a list of principals that is not empty holds one of the caller's, unless the caller named none |
| Bm25.ScoresLoop | src/alvis/index/keyword.py:42-70 | the nested loops compute the BM25 sum for every document, in order |
| Bm25.IdfIsPositive | src/alvis/index/keyword.py:54-57 | every term's idf is positive |
| Bm25.IdfFormula | src/alvis/index/keyword.py:54-57 | the idf is the logarithm of n + 1 over df + 0.5 |
| Bm25.RarerWeighsMore | src/alvis/index/keyword.py:54-57 | the idf strictly decreases with the document frequency |
| Bm25.ShorterScoresHigher | src/alvis/index/keyword.py:63-68 | of two documents with the same counts of query terms the shorter scores strictly higher |
| Bm25.TermScoreFormula | src/alvis/index/keyword.py:63-68 | a term's score with k1 = 1.5 and b = 0.75 written out, without a quotient |
| Bm25.NormFormula | src/alvis/index/keyword.py:45-62 | the average length times the number of documents is their total length, and a relative length times the average the length |
| Bm25.CountIsMultiplicity | src/alvis/index/keyword.py:48-60 | a term's frequency is its multiplicity in the document |
| Bm25.DocFreqOfSplit | src/alvis/index/keyword.py:50-53 | each document that holds a term adds one to its document frequency |
| Bm25.ScoreBounds | src/alvis/index/keyword.py:26-70 | scores are non-negative, zero exactly without a shared term, else strictly below (k1 + 1) times the shared idf |
| Bm25.ScoreGrowsWithCounts | src/alvis/index/keyword.py:63-68 | among equally long documents more occurrences of query terms score strictly higher |
| Bm25.ScoreIgnoresOrder | src/alvis/index/keyword.py:50-68 | the iteration order of the term set does not matter |
| Fusion.FuseLoop | src/alvis/index/fusion.py:44-50 | the two dicts hold the accumulated scores and first hits |
| Fusion.ScoreIsPoints | src/alvis/index/fusion.py:46-49 | a fused score is the sum of 1 / (k + rank) over every occurrence |
| Fusion.ContributionFacts | src/alvis/index/fusion.py:46-49 | a hit's contribution times k + rank is 1, so every further rank brings strictly less |
| Fusion.FusionConservesMass | src/alvis/index/fusion.py:44-50 | the fused scores sum to all the 1 / (k + rank) of the rankings |
| Fusion.FoundInSome | src/alvis/index/fusion.py:46-50 | an identity is fused exactly when some ranking holds it |
| Fusion.FusionKeepsFirstSeen | src/alvis/index/fusion.py:44-50 | identities stand in first-seen order over all rankings, each with the hit that introduced it |
| Fusion.FuseFacts | src/alvis/index/fusion.py:30-53 | each identity once, best total first, ties in first-seen order, scored by its collected points |
| Fusion.FusedHitsAreFirst | src/alvis/index/fusion.py:44-53 | each fused hit is the first one with its identity over all rankings, metadata included, with the collected points for its score |
| Fusion.ConsensusWins | src/alvis/index/fusion.py:36-38 | a hit at rank k + 1 or better in both rankings strictly beats every hit found in only one |
| Fusion.ConsensusBoundIsTight | src/alvis/index/fusion.py:36-38 | at rank k + 2 in both it only ties with a first place |
| Query.BadReplyKeepsOrder | src/alvis/pipeline/runner.py:180-207 | a failed call or a reply that is no permutation gives exactly the answer of the same query without reranking, although four times as many candidates were fetched |
| Query.GoodReplyIsFollowed | src/alvis/pipeline/runner.py:180-207 | a reply that is a permutation decides the answer: its hits are the candidates it names, in its order, and all of them, each once, when top_k leaves room |
| Query.QueryIsProper | src/alvis/pipeline/runner.py:178-207 | in every mode and for any reply: at most top_k hits, none repeated, each a stored point passing filters and access check |
| Query.QueryFailsIff | src/alvis/pipeline/runner.py:170-189 | a query fails exactly for a blank text or a visible vector of another length |
| Answers.HitsArePermitted | src/alvis/pipeline/runner.py:178-207 | in every mode and for any reply each hit is a stored chunk whose own metadata meets every filter and the caller's principals |
| Answers.PermittedAreShown | src/alvis/pipeline/runner.py:178-207 | with top_k at least the number of points no permitted point is left out, in any mode and for any reply |
| Answers.PlainQueryIsFull | src/alvis/pipeline/runner.py:181-207 | without fusion and reranking, also where a hybrid query falls back, there are top_k hits or as many as there are permitted points, best first, each scored by its similarity |
| Answers.PlainQueryIsBest | src/alvis/pipeline/runner.py:181-207 | and no permitted point left out is closer to the query than any that is returned |
| Answers.KeywordHitsAreFull | src/alvis/index/memory.py:114-140 | a keyword search returns top_k hits or as many as there are permitted points, each scored by BM25 among the permitted texts |
| Answers.KeywordHitsAreBest | src/alvis/index/memory.py:114-140 | and no permitted point left out scores higher |
| Answers.HybridQueryIsFull | src/alvis/pipeline/runner.py:180-207 | a fused answer has top_k hits or one for each identity that either ranker found among 4 top_k candidates, ranked by the collected 1 / (60 + rank) |
| Answers.HybridQueryIsBest | src/alvis/pipeline/runner.py:180-207 | and no identity left out has more points than any that is returned |
| Answers.RerankedFetchesMore | src/alvis/pipeline/runner.py:178-207 | what a good reply reorders without fusion is the answer of the same query for 4 top_k hits |
| Query.HybridConsensus | src/alvis/pipeline/runner.py:112-203 | up to top_k 15 a point both rankers find scores above every point only one finds |
| Query.HybridPutsConsensusFirst | src/alvis/pipeline/runner.py:180-207 | in a hybrid answer, up to top_k 15, every point both rankers found comes before every point only one found |
| Consensus.TieGoesToFirst | src/alvis/index/fusion.py:52 | when two rankings share only their hits at rank k + 2, the fusion starts with the first hit of the first |
| Consensus.ConsensusCanLose | src/alvis/pipeline/runner.py:180-207 | 15 is exact: for every top_k from 16 on an index and a query whose hybrid answer starts with a point only one ranker found, though both found another |
| EmbeddingCache.CachingEmbedder.LookUp | src/alvis/embed/cache.py:134-144 | cached vectors are in place, the missing positions are listed, and the counters grow by the batch |
| EmbeddingCache.CachingEmbedder.FillIn | src/alvis/embed/cache.py:149-151 | every missing position gets its computed vector and its key, nothing else changes |
| EmbeddingCache.CachingEmbedder.EmbedBatch | src/alvis/embed/cache.py:132-152 | the answer is the delegate's, hits + misses grow by the batch length, the cache stays sound, and only missing texts are asked |
| EmbeddingCache.ReplayFacts | src/alvis/embed/cache.py:132-152 | over any batches under any signatures the shared cache stays sound and holds exactly the texts embedded |
| EmbeddingCache.ReembeddingAsksNothing | src/alvis/embed/cache.py:137-146 | embedding an earlier batch again makes no delegate call |
| EmbeddingCache.OtherSignaturesDoNotMatter | src/alvis/embed/cache.py:168-171 | batches of other signatures change nothing about what is asked |
| FanOut.RunStaysBalanced | src/alvis/_concurrency.py:35-41 | in every interleaving permits and calls in flight add up, and every move is progress |
| FanOut.InFlightIsBounded | src/alvis/_concurrency.py:35-41 | never more than max_concurrency calls in flight and never two calls for one item |
| FanOut.SomeTaskCanMove | src/alvis/_concurrency.py:33-41 | no deadlock: until all tasks are done, one can move |
| FanOut.RunEndsAfterTwoMovesEach | src/alvis/_concurrency.py:37-41 | every maximal run ends after two moves per item, each item called exactly once |
| FanOut.GatherKeepsInputOrder | src/alvis/_concurrency.py:27-41 | whatever the interleaving, once all calls are done results are in input order, and it fails exactly when some call does |
| FanOut.FailsAloneIff | src/alvis/_concurrency.py:30-31 | in every run the first failure finds no other call in flight if and only if no two calls can run together or none fails |
| FanOut.FailureAmidstOthers | src/alvis/_concurrency.py:30-31 | with two calls in flight, a run in which one fails while the other is running |
| ApiEmbedder.BatchesCoverIff | src/alvis/embed/openai.py:80-83 | the batches hold all chunks in order exactly for a positive batch size or no chunks |
| ApiEmbedder.SlicesCover | src/alvis/embed/openai.py:80-83 | every batch but the last has exactly the batch size, and no batch is empty |
| ApiEmbedder.OrderedRestoresInput | src/alvis/embed/openai.py:96-97 | any permutation of a response's entries is sorted back to one vector per input |
| ApiEmbedder.Assemble | src/alvis/embed/openai.py:100-103 | the results are concatenated in batch order |
| ApiEmbedder.EmbedsInInputOrder | src/alvis/embed/openai.py:73-103 | under any interleaving and any response order, vector i belongs to chunk i |
| PagedReconcile.ElasticScan | src/alvis/index/elasticsearch.py:294-324 | for any page size the scan terminates and visits each of the source's points once |
| PagedReconcile.ElasticReconcile | src/alvis/index/elasticsearch.py:288-329 | scan and deletes leave exactly what the in-memory reconcile leaves |
| PagedReconcile.QdrantScan | src/alvis/index/qdrant.py:172-196 | for any page lengths the scroll terminates and visits each of the source's points once |
| PagedReconcile.QdrantReconcile | src/alvis/index/qdrant.py:163-203 | scroll and delete leave exactly what the in-memory reconcile leaves |
| PagedReconcile.SqliteReconcile | src/alvis/index/sqlite.py:106-131 | the SQL reconcile leaves exactly what the in-memory one leaves |
| BatchUpsert.UpsertBatch | src/alvis/index/qdrant.py:101-129 | it fails exactly when the failing request still has chunks to carry; otherwise it stores what the chunk-by-chunk loop stores, and on failure what a run leaves that stops after the requests before |

## Left out

- HTTP, authentication, SQL text, JSON and shelf encodings, and the state file: foreign or I/O. `_decode_entry`'s older entry
  shapes belong to the encoding.
- `commit` and `save` are one step. A `save` that fails after `commit` changed the in-memory state, and is then repeated by
  `record_run`, is not modelled.
- A reconcile that fails half-way through its deletes on a remote index: the in-memory one cannot, and it is the one the runs use.
- Several pipelines on one state file: each process loads its own copy, so one document store serves one pipeline here.
- Distinctness of `source_identity`: source ids are parameters, taken as distinct for distinct sources.
- A source that changes between its listing and its download, or lists a URI twice: one snapshot per run; the plan functions
  take repeated URIs, the equality theorems do not.
- Metadata, the static access list included, is a function of URI and content, so a metadata change of skipped content is not seen.
- Extractors and chunkers whose chunks carry another URI than their artifact's; the extractor and chunker of a run are one function
  from URI and content to pieces.
- Several runs of one source at once.
- `MemoryIndex` keeps a map, not an insertion-ordered dict; searches take the points in a given order.
- Embedders, tokenizers and regular expressions are parameters; byte decoding and `splitlines` are not modelled (lines are the input).
- The title fallback of Markdown extraction and `SizeChunker`'s loop over sections: easy members.
- Floating-point rounding.
- Keyword and nearest-neighbour search on remote servers.
- The early return of the Elasticsearch scan when the index does not exist; empty Qdrant offsets (point ids are never empty).
- A delegate that returns the wrong number of vectors; the cache's file and its locking.
- Semaphore fairness and cancellation: only which moves are possible, what holds after each and the state at the end.
- Timings, error texts and embedding counters of the run ledger; logging, metrics, CLI, configuration, plugins, templates, chat,
  judging and evaluation; PDF, DOCX, XLSX and HTML parsing.
- Histories.RecoveryAfterCrashes: the no-return hypothesis is sufficient, not necessary; Recovery.RecoversIffNothingLost gives the
  exact condition over the same histories.
- Stages.RunContext.Fetch: the static access list is part of the pipeline's metadata function, so stamping it is not a step.
- Stages.RunContext.Upsert: the chunk-by-chunk loop; the batched branch is BatchUpsert.UpsertBatch, on a point set.
- Stages.RunContext.Commit: one step with the save, as above.
- Query.QueryFailsIff: embedder failures and a missing index configuration are not part of the model.
- PagedReconcile.ElasticReconcile: for an index that exists.
- FanOut.GatherKeepsInputOrder: about the state in which every call has finished; FanOut.FailsAloneIff is about the moment of a failure.
- Isolation.InterleavedLikeAlone: for interleavings in which no other source writes over a point the source holds, which
  Isolation.InterleavingIsInvisibleIff shows to be needed; SharedIndexes derives it from disjoint listings.
- Isolation.ConcurrentRunRestoresScratch: under the same condition; SharedIndexes.PipelinesRecover has it from disjoint listings.
- Isolation.InterleavedHistoryLikeAlone: under the same condition; SharedIndexes.PipelinesLikeAlone has it from disjoint listings.
- Isolation.InterleavedHistoryRecoversIff: under the same condition; SharedIndexes.PipelinesRecoverIff has it from disjoint listings.
- SplitFacts.SizeBoundIffOverlap: for token budgets of at least one, as the configuration demands.
- Models.OneLineUrisNeverShareIds: for newline-free URIs; Models.SharedIdIffCollide says exactly which URIs can collide.
