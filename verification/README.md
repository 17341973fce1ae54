# Verified model of the crawl indexing and retrieval service

This project models four connected parts of the service and proves what each is for.

* **From page to citation.** Typed blocks are projected to one page string, cut into sections at headings, and
  windowed twice by the embedding model's own tokens. Quotes are later matched against the page string. The
  tokenizer is any function that returns ordered, disjoint, non-blank spans of its text; lower-casing and
  alphanumeric tests are tables. (`Text`, `BlockText`, `Chunking`, `ChunkingProofs`, `UnitProofs`, `CitationVerify`,
  `EscapedQuotes`, `ReadingTolerance`, `RawRows`)
* **Index jobs.** Job rows with compare-and-set leases, the in-process queue, heartbeats, cooperative kills and
  re-posts, as a step system of any number of processes over shared rows and a clock. A step is the code between
  two awaits with the store call it ends in. `IndexService` is the same code as a class, each uninterrupted call
  proved to be a run of the step system; `IndexScheduler` feeds it.
  (`StatusStore`, `IndexProtocol`, `LeaseProofs`, `LeaseBoundary`, `OverlapProofs`, `JobProofs`, `StrandProofs`,
  `Indexer`, `Scheduler`)
* **Retrieval.** Reciprocal rank fusion of the two halves of a hybrid search, and the page-diverse selection that
  reads the fused list. (`RankFusion`, `PageSelection`)
* **Fast forms that agree with simple ones.** Greedy embedding batches, deduplicated and cached embedding,
  run-wide admission of chunks, and the cleanup script's counting and deleting modes.
  (`EmbeddingBatching`, `EmbeddingCache`, `Admission`, `Cleanup`)

Code that updates state in place is a class or a loop proved against a function or predicate; expression-shaped code
is functions. `Sequences` and `Wrappers` are helpers. `dafny verify dfyconfig.toml` checks everything.

## Where the code and its own words differ

The model follows the code; each difference is proved.

* *A node both halves return outranks one either returns alone* (`llama_engine.py:60-83`): true of all halves of `m` and
  `n` hits exactly while `(m - 1) * (n - 1)` is below the square of 61 - up to 61 hits each, so exactly up to `topK` 30
  (`DominanceBound`, `EvenBound`, `QueryGuarantee`).
* *A short quote of a table cell is found by a whole-cell match* (`citation_verify.py:31-54`): the match reads the cell
  as stored and the quote as cleaned, so it succeeds exactly if some cell that holds no escape reads like the quote.
  A page that shows `R & D` refuses that quote if the cell is stored as `R u0026 D` (`ShortQuoteIff`, `LoneCellIff`,
  `EscapedCellRefused`).
* *A C# string and the projection of the same blocks compare equal* (`citation_verify.py:57-68`): a row is quoted as one
  text and shown cell by cell. One escape anywhere in the row has the literal tags of its other cells dropped from the
  quote, so that `u0026abcdefg | <p>hij` is refused on its own page (`CrossedRowRefused`), and a tag may open in one
  cell and close in a later one. A raw row without an escape, or with neither of these (`Uncrossed`), compares equal
  exactly if no cell inside it is markup alone: the page leaves such a cell out, the quote keeps both its pipes
  (`RawRowIff`). Both are about rows whose shown cells hold no pipe of their own.
* *`--limit` bounds the same thing in both modes* (`cleanup_unusable_pages.py:28-32`): a dry run does not cut its
  count of the field-based steps, so it agrees with a write exactly when those match no more rows than the limit
  (`DryRunAgrees`).
* *A kill that answers `dequeued` is terminal at once* (`indexer.py:142-206`): only when the row is this process's. A
  run can be posted again between its terminal save and its worker's release; the release then takes the new claim's
  lease away, a kill's save is refused, and the job stays PENDING with nobody holding it (`RepostThenKillStrands`).
* *A kill leaves no job behind* (`indexer.py:188-206`): which kills can is read off the row and the process at the kill
  (`KillEndangers`), and those are exactly the ones (`KillStrandsIff`). Owning the row is not enough: two kills that
  both find it owned can strand a RUNNING job (`OwnedKillsStrand`).
* *A running job that is killed is failed by its worker* (`indexer.py:349-385`): not when the kill finds the row set
  back to PENDING under the worker; a mid-run save then leaves it RUNNING (`KilledWhilePending`, reachable by
  `LateSaveThenKill`).
* *`reacquire` cannot let two processes index one run* (`indexer.py:427-450`): `is_owned` lets a worker in on the end
  of a lease, and a kill can free a row under its worker. Overlap is excluded when more than `StopAfter` of the lease is
  left on entry - the last heartbeat before a full lease would end - or more than one heartbeat while no renewal raises,
  and no freeing kill comes (`MutualExclusion`, `CleanExclusion`). It is reachable for every shorter remainder
  (`ShortEntryOverlaps`). In every reachable state a kill makes it possible exactly if it finds PENDING on a row its
  process owns, under an execution with enough lease that is indexing or has entered while a claim of the run is still
  to be answered, and another process is alive (`KillFrees`, `KillOverlapsIff`). Both kinds of such kills come about
  (`PendingKillOverlaps`, `KillInClaimOverlaps`).

## Model

| member | source | states |
|---|---|---|
| BlockText.CleanProseIdempotent | src/geek_crawler_rag/block_text.py:57-70 | Cleaned prose holds no escape, and cleaning it again changes nothing. |
| BlockText.DecodeSpelled | src/geek_crawler_rag/block_text.py:38-45 | Decoding undoes escaping: a text whose markup characters an author escaped decodes to that text. |
| BlockText.EscapeIff | src/geek_crawler_rag/block_text.py:38-45 | An escape is the spelling of one of the five markup characters in either case, with or without its backslash, and nothing else is. |
| BlockText.TagNameIff | src/geek_crawler_rag/block_text.py:47-53 | A structural tag name is one of the listed names in either case, the letters Python folds onto `i` and `s` included. |
| BlockText.TagIsDropped | src/geek_crawler_rag/block_text.py:47-53 | Any structural tag with any attributes becomes one space and the text after it is cleaned on its own. |
| BlockText.TagIff | src/geek_crawler_rag/block_text.py:47-53 | A tag begins a text exactly when the text divides into `<` or `</`, a listed name that ends at a word boundary, attributes without `>`, and `>`. |
| BlockText.NothingElseDropped | src/geek_crawler_rag/block_text.py:57-70 | The tag pass changes a text exactly when a structural tag begins somewhere in it. |
| BlockText.PlaintextContains | src/geek_crawler_rag/block_text.py:102-117 | The projection of any stretch of a page's blocks is part of the page's projection. |
| BlockText.CellsAreShown | src/geek_crawler_rag/block_text.py:86-90 | A row shows every cell but a missing one, cleaned and in order, the empty ones too. |
| BlockText.CodeIsShown | src/geek_crawler_rag/block_text.py:73-100 | The page shows a block of code as stored, trimmed: no escape in it is decoded and no tag dropped. |
| CitationVerify.NormalizeContains | src/geek_crawler_rag/citation_verify.py:27-28 | Trimming, collapsing whitespace and lower-casing keep substrings substrings. |
| CitationVerify.CutQuoteVerifies | src/geek_crawler_rag/citation_verify.py:31-54 | A quotable quote cut from anything that is part of the page is found in the page. |
| CitationVerify.RunFreeCutVerifies | src/geek_crawler_rag/citation_verify.py:57-68 | `verify_quote` accepts every escape-free quotable cut of the page without a pipe-whitespace-pipe run. |
| CitationVerify.RunIsRefused | src/geek_crawler_rag/citation_verify.py:57-68 | A quotable quote whose cleaned text holds a pipe run is refused on every page. |
| CitationVerify.CutVerifiesIffRunFree | src/geek_crawler_rag/citation_verify.py:11-24 | For such cuts a run of pipes in the quote is exactly what makes it fail. |
| CitationVerify.SharpRowVerifies | src/geek_crawler_rag/citation_verify.py:11-24 | The C# rendering of any row of the page - its non-empty cleaned cells only - is accepted when no cell holds a pipe. |
| CitationVerify.ShortCellVerifies | src/geek_crawler_rag/citation_verify.py:31-54 | A short cell quoted as rendered is accepted, wherever its row is, if it holds no escape. |
| CitationVerify.NoMatchRefused | src/geek_crawler_rag/citation_verify.py:31-54 | A quote without a letter or digit is refused on every page, and one below 12 characters wherever no cell reads like it, whatever the page text holds. |
| ReadingTolerance.SameTextVerifies | src/geek_crawler_rag/citation_verify.py:27-68 | A quote that is, up to case and whitespace, a quotable escape-free cut of the page without a pipe run is accepted; the relation is defined without the normal form. |
| ReadingTolerance.LongQuoteIffSameText | src/geek_crawler_rag/citation_verify.py:27-44 | With lower-casing character for character, a long quote is accepted exactly when, cleaned, it is the same text up to case and whitespace as a piece of the pipe-collapsed page. |
| ReadingTolerance.SameCellVerifies | src/geek_crawler_rag/citation_verify.py:27-54 | A quote that is, up to case and whitespace, a short escape-free cell is accepted wherever the cell is. |
| ReadingTolerance.ShortQuoteIffSameText | src/geek_crawler_rag/citation_verify.py:27-54 | With lower-casing character for character, a short quote is accepted exactly when, cleaned, it is the same text up to case and whitespace as some stored cell. |
| ReadingTolerance.AsciiReads | src/geek_crawler_rag/citation_verify.py:27-28 | The tables of plain ASCII meet what the tolerance is stated under. |
| EscapedQuotes.NormalizeKeepsEscapes | src/geek_crawler_rag/citation_verify.py:27-28 | Normalisation neither hides an escape nor makes one, for tables that keep the letters an escape is spelled with. |
| EscapedQuotes.ShortQuoteIff | src/geek_crawler_rag/citation_verify.py:31-54 | On any page, a short quote is accepted exactly when a cell that holds no escape reads like the cleaned quote. |
| EscapedQuotes.LoneCellIff | src/geek_crawler_rag/citation_verify.py:47-53 | For a page of one cell, a short quote of its rendering is refused exactly when the cell holds an escape. |
| EscapedQuotes.EscapedCellRefused | src/geek_crawler_rag/citation_verify.py:47-53 | A page with the one cell `R u0026 D` projects to `R & D` and refuses that quote. |
| EscapedQuotes.RawBlockIff | src/geek_crawler_rag/citation_verify.py:57-68 | The raw text of a block that is no code, escapes and all, is accepted exactly when its cleaned text holds no pipe run. |
| RawRows.RawRowIff | src/geek_crawler_rag/citation_verify.py:11-24 | Where no tag reaches across cells and no literal tag stands beside another cell's escape, the C# rendering of a row from its raw cells is accepted exactly when no cell inside it is markup alone; a row without an escape needs no such condition. |
| RawRows.CrossedRowRefused | src/geek_crawler_rag/citation_verify.py:57-68 | A row with no blank cell whose raw rendering is refused on its own page: an escape in one cell has the literal tag of the other dropped. |
| Chunking.FitWindow | src/geek_crawler_rag/chunk.py:74-105 | The shrinking loop yields the fitted piece and its end. |
| ChunkingProofs.FitIsLongest | src/geek_crawler_rag/chunk.py:74-105 | The fitted piece is the longest that fits: every longer one re-measures over the size, or none fits. |
| Chunking.ChunkText | src/geek_crawler_rag/chunk.py:20-71 | The window loop, with its three size errors, yields the pieces of the windows at every step. |
| ChunkingProofs.WindowsStride | src/geek_crawler_rag/chunk.py:56-71 | Windows start one fixed step apart, and go on exactly until one reaches the last token or the step passes it. |
| Chunking.SplitBlocksIntoSections | src/geek_crawler_rag/chunk.py:148-218 | The accumulating loop yields the groups cut at headings, projected, without the empty ones. |
| Chunking.ParentChildUnits | src/geek_crawler_rag/chunk.py:221-290 | The nested loops yield every section's parents' children with running parent and child indices, or the first size error. |
| ChunkingProofs.GroupsCutAtHeadings | src/geek_crawler_rag/chunk.py:171-207 | Every block lands in exactly one group; each group runs from its heading to just before the next. |
| ChunkingProofs.CutUnique | src/geek_crawler_rag/chunk.py:148-170 | There is only one way to cut a page at its headings. |
| ChunkingProofs.SectionsJoinToPage | src/geek_crawler_rag/chunk.py:148-218 | Joining all section texts with the block separator gives the whole-page projection. |
| ChunkingProofs.ChunkFits | src/geek_crawler_rag/chunk.py:20-105 | Every chunk is a non-empty verbatim cut of the text, re-measures within the size, and within the model's limit with its overhead. |
| ChunkingProofs.UnitsInPage | src/geek_crawler_rag/chunk.py:221-290 | Child lies in parent, parent in a section of the unit's title, section in page; child indices count up from 0. |
| ChunkingProofs.ParentsNumbered | src/geek_crawler_rag/chunk.py:246-288 | A unit's parent index names its own parent among all parents of the page, and no parent is left without a unit. |
| ChunkingProofs.UnitsUnderHeadings | src/geek_crawler_rag/chunk.py:148-218 | A unit's title is the trimmed heading, if not blank, of the stretch of blocks between headings that its parent was cut from. |
| UnitProofs.UnitFits | src/geek_crawler_rag/chunk.py:221-290 | A parent re-measures within the parents' size, a child within the children's unless it is the whole of a parent in which not one token fits where a window could start; neither is empty or too long for the model. |
| UnitProofs.NoTokenOfParentLost | src/geek_crawler_rag/chunk.py:265-288 | While re-tokenising a parent drifts no more than the children's overlap, each of its tokens is in the text of a unit with its index. |
| UnitProofs.ChildrenStride | src/geek_crawler_rag/chunk.py:265-288 | Under the same bound a parent's child `j` starts at token `j` times child size less overlap and is the longest run that fits; exactly the last reaches the parent's last token. |
| UnitProofs.UnitsRefusedIff | src/geek_crawler_rag/chunk.py:221-290 | Sizes are refused, with the error named, exactly when one is below 1, an overlap leaves no step, or a size the page has texts for exceeds what the model reads. |
| ChunkingProofs.CitationSound | src/geek_crawler_rag/block_text.py:8-13 | A quotable quote cut from any parent or child text verifies against the page projection of the same blocks. |
| ChunkingProofs.ChunkQuoteIffRunFree | src/geek_crawler_rag/citation_verify.py:57-68 | `verify_quote` accepts an escape-free quotable quote cut from a chunk exactly when it holds no pipe run. |
| ChunkingProofs.NoTokenLost | src/geek_crawler_rag/chunk.py:56-71 | If re-tokenising any slice adds at most the overlap, every token lies in a window that is emitted, and its text in that chunk. |
| ChunkingProofs.DriftBoundTight | src/geek_crawler_rag/chunk.py:56-71 | For every size and overlap, with a drift of one more than the overlap some token can lie in no emitted window. |
| StatusStore.IndexStatusStore.TryClaim | src/geek_crawler_rag/status_store.py:101-156 | A claim succeeds exactly on a missing, lapsed or (forced) finished row, and then sets the lease, the state and one attempt more, on that row only. |
| StatusStore.IndexStatusStore.TryReacquire | src/geek_crawler_rag/status_store.py:158-185 | Taking the lease back succeeds exactly on an active row that is lapsed or already the caller's, and changes the lease only. |
| StatusStore.IndexStatusStore.RenewLease | src/geek_crawler_rag/status_store.py:187-197 | A heartbeat extends only the owner's active row; it reports success only if the stored time changed. |
| StatusStore.IndexStatusStore.SaveStatus | src/geek_crawler_rag/status_store.py:74-86 | A fenced save changes state and attempt of a row its caller owns, and nothing else. |
| StatusStore.IndexStatusStore.ReleaseLease | src/geek_crawler_rag/status_store.py:199-219 | A release clears the lease of a row its caller owns, and nothing else. |
| StatusStore.DisplacedWorkerHarmless | src/geek_crawler_rag/status_store.py:74-219 | Any sequence of saves, heartbeats and releases by a process that does not own a row leaves all rows as they are. |
| StatusStore.WritesStayHome | src/geek_crawler_rag/status_store.py:74-219 | A worker's writes never reach another run's row and never hand its row to somebody else. |
| StatusStore.TakeoverFences | src/geek_crawler_rag/status_store.py:101-185 | After another process claims or reacquires a run, everything its former owner still writes misses. |
| LeaseProofs.MutualExclusion | src/geek_crawler_rag/indexer.py:427-522 | In every state reached without a freeing kill, at most one process indexes a run having entered on more than `StopAfter` of lease or renewed since. |
| LeaseProofs.CleanExclusion | src/geek_crawler_rag/indexer.py:492-522 | Over runs in which no renewal raises, more than one heartbeat of lease on entry is enough for the same. |
| LeaseProofs.UnfencedIsBrief | src/geek_crawler_rag/indexer.py:427-450 | In every reachable state, whatever is killed, indexing on a shorter remainder has lasted at most `StopAfter`, and at most one heartbeat while no renewal raised. |
| LeaseProofs.RightfulOwnsItsRow | src/geek_crawler_rag/status_store.py:74-99 | Such a worker, under either bound, owns its row on a live lease, so its saves are never refused. |
| LeaseProofs.GivesUpInTime | src/geek_crawler_rag/indexer.py:492-522 | Whatever is killed, a worker whose renewals all raise stops at a multiple of the heartbeat, at least lease minus heartbeat and before the lease ends. |
| LeaseBoundary.ShortEntryOverlaps | src/geek_crawler_rag/indexer.py:427-450 | For every configuration and every remainder up to `StopAfter`, a run ends with two processes indexing one run; up to one heartbeat, without a failing renewal. |
| OverlapProofs.KillOverlapsIff | src/geek_crawler_rag/indexer.py:188-206 | In every reachable state a kill makes it possible that two processes rightfully index the run exactly when `KillFrees` holds before it and another process, whatever it is doing, is alive. |
| OverlapProofs.PendingKillOverlaps | src/geek_crawler_rag/indexer.py:188-206 | Such a kill arises without a fault under an indexing worker: it finds the row back at PENDING, and afterwards two processes index the run. |
| OverlapProofs.KillInClaimOverlaps | src/geek_crawler_rag/indexer.py:302-317 | And inside the round trip of a claim, whose return lifts the kill's flag. |
| JobProofs.AtMostOncePerClaim | src/geek_crawler_rag/indexer.py:264-449 | A process never executes a run more often than it claimed it, and dequeues in the order it queued. |
| JobProofs.TerminalEntryStartsNothing | src/geek_crawler_rag/indexer.py:427-449 | A queue entry whose row is over is dropped without a save or an execution. |
| JobProofs.KillDooms | src/geek_crawler_rag/indexer.py:142-206 | Killing a job that is rightfully indexing sets a flag that nothing but the end of the execution clears. |
| JobProofs.KilledJobEmbedsNoMore | src/geek_crawler_rag/indexer.py:700-776 | From then on, whatever every process does, the execution begins no further embedding. |
| JobProofs.KilledWorkerMovesOn | src/geek_crawler_rag/indexer.py:349-425 | Stopping it leaves the worker idle, its queue intact, the lease released and the row FAILED unless the status it remembers was already over. |
| JobProofs.KillParks | src/geek_crawler_rag/indexer.py:176-206 | Killing a queued job this process owns makes its row FAILED and parks it. |
| JobProofs.ParkedJobStaysDead | src/geek_crawler_rag/indexer.py:349-365 | A parked job is never executed by this process until somebody claims it anew. |
| StrandProofs.NoStrandedJob | src/geek_crawler_rag/indexer.py:264-425 | With one process and no fault, if no kill of the run is one `KillEndangers` names, its PENDING or RUNNING row is being enqueued, queued or executing. |
| StrandProofs.StrandsIffEndangered | src/geek_crawler_rag/indexer.py:349-425 | In such states, a way on without fault or another kill leaves the job with nobody exactly when it is endangered. |
| StrandProofs.KillStrandsIff | src/geek_crawler_rag/indexer.py:188-206 | A kill can leave its job behind exactly when `KillEndangers` holds before it: any place in the queue, any state of worker and enqueue. |
| StrandProofs.OwnedKillsStrand | src/geek_crawler_rag/indexer.py:188-206 | A fault-free run of one process in which both kills find the row its own and the job ends RUNNING with nobody holding it. |
| StrandProofs.ExecutionEndsTerminal | src/geek_crawler_rag/indexer.py:349-490 | With one process and no fault, if no kill finds PENDING under the indexing worker, every execution leaves its row COMPLETE or FAILED. |
| StrandProofs.RepostThenKillStrands | src/geek_crawler_rag/indexer.py:393-425 | A fault-free run of one process that strands a job: re-post between terminal save and release, then kill. |
| StrandProofs.KilledWhilePending | src/geek_crawler_rag/indexer.py:188-206 | A kill that finds PENDING under an indexing worker, then a mid-run save, ends the execution with its row RUNNING. |
| StrandProofs.LateSaveThenKill | src/geek_crawler_rag/indexer.py:302-317 | Such a kill is reachable without a fault: a re-post of a lapsed job saves PENDING after its worker has begun. |
| Indexer.TurnIsRun | src/geek_crawler_rag/indexer.py:349-490 | One pass of the worker loop is a run of the protocol, with its effect on rows, queue, flags and statuses. |
| Indexer.EnqueueIsRun | src/geek_crawler_rag/indexer.py:264-317 | So is an enqueue, accepted or refused. |
| Indexer.IndexService.Persist | src/geek_crawler_rag/indexer.py:319-347 | Saves a state under the service's own ownership, or nothing. |
| Indexer.IndexService.Kill | src/geek_crawler_rag/indexer.py:142-206 | The four kill outcomes, each exactly when it applies, and the protocol step they are. |
| Indexer.IndexService.Enqueue | src/geek_crawler_rag/indexer.py:264-317 | Accepted exactly when the row is claimable; then the row is claimed, the flag cleared and the run queued last. |
| Indexer.IndexService.RunClaimedJob | src/geek_crawler_rag/indexer.py:427-490 | Executes exactly when the lease is its own or free to take, and then leaves the row COMPLETE or FAILED and touches no other. |
| Indexer.IndexService.WorkerTurn | src/geek_crawler_rag/indexer.py:349-425 | Takes the head of the queue, skips it if flagged, executes it if allowed, and always clears the flag and releases. |
| Indexer.IndexService.Drain | src/geek_crawler_rag/indexer.py:349-425 | Left alone, the loop empties the queue, finishes every unflagged executable job in it, and changes no run that was not queued. |
| RankFusion.RankedIdsRanks | src/geek_crawler_rag/llama_engine.py:226-233 | A half's ids are all kept, a hit before another exactly when it scored higher, or as high and was listed first. |
| RankFusion.ScoreHalf | src/geek_crawler_rag/llama_engine.py:178-181 | One half's scoring pass extends the keys in order of first appearance and adds exactly the half's reciprocal ranks to every key. |
| RankFusion.FuseHalves | src/geek_crawler_rag/llama_engine.py:166-190 | The dictionary loops and the stable sort return the union in fused order with each id's summed score. |
| RankFusion.FusionLosesNothing | src/geek_crawler_rag/llama_engine.py:166-190 | With a cut reaching both halves' total the fused ids are the union without repeats, ordered exactly by score and then first appearance. |
| RankFusion.DenseKeepsOrder | src/geek_crawler_rag/llama_engine.py:178-183 | Nodes only the dense half returned keep its order. |
| RankFusion.SparseKeepsOrder | src/geek_crawler_rag/llama_engine.py:178-183 | Nodes only the keyword half returned keep its order. |
| RankFusion.DenseBeforeSparse | src/geek_crawler_rag/llama_engine.py:82-87 | A dense-only node goes before a keyword-only one exactly when its rank is no worse. |
| RankFusion.OneHalfAlone | src/geek_crawler_rag/llama_engine.py:73-78 | With one half empty the answer is the other half as it stood. |
| RankFusion.DominanceBound | src/geek_crawler_rag/llama_engine.py:60-83 | Both-half nodes strictly outscore single-half nodes, for all halves of up to `m` and `n` hits, exactly when `(m - 1) * (n - 1)` is below 61 squared. |
| RankFusion.EvenBound | src/geek_crawler_rag/llama_engine.py:60-83 | For halves of one size that is up to 61 hits each. |
| RankFusion.QueryGuarantee | src/geek_crawler_rag/query.py:118-125 | A query keeps that claim exactly up to `topK` 30 (and a configured minimum of 61), and its cut never drops a node. |
| PageSelection.ReturnTextPrefers | src/geek_crawler_rag/query.py:415-426 | A candidate with any text has a return text, and the preferred one whenever it has that. |
| PageSelection.SamePage | src/geek_crawler_rag/query.py:324-332 | Two candidates share a page exactly when their page ids agree, or without ids their addresses, or without either they are the same candidate. |
| PageSelection.AddressIff | src/geek_crawler_rag/query.py:324-332 | Addresses agree when the trimmed final, or else original, URLs agree letter for letter up to case, and only then where lower-casing is character for character. |
| PageSelection.LineageIff | src/geek_crawler_rag/query.py:316-321 | Candidates of one page, section and trimmed parent text share a lineage; where digests tell parents apart, candidates of one page, or with ids free of the separator, share one only then. |
| PageSelection.GroupByPage | src/geek_crawler_rag/query.py:363-378 | The grouping loop yields pages in order of first appearance and each page's in-range passages in rank order. |
| PageSelection.PagesByBestRank | src/geek_crawler_rag/query.py:344-361 | Pages come in the order of their best passages' ranks. |
| PageSelection.PageSelector.TakeNextAdmissible | src/geek_crawler_rag/query.py:380-397 | The inner loop moves one page's cursor to its next admissible passage, recording what it passes over. |
| PageSelection.PageSelector.SelectRound | src/geek_crawler_rag/query.py:399-411 | One round takes each page's turn in page order until `k` are selected. |
| PageSelection.SelectRankedCandidates | src/geek_crawler_rag/query.py:335-412 | The round-robin loops return the first `k` passages of the selection without a limit. |
| PageSelection.SelectionOrder | src/geek_crawler_rag/query.py:344-361 | The result is in round-robin order: by how many its page gave before it, then by page order. |
| PageSelection.Fairness | src/geek_crawler_rag/query.py:351-357 | A page two passages behind another at any prefix has nothing more to give, however many are asked for. |
| PageSelection.PagesKeepRankOrder | src/geek_crawler_rag/query.py:351-357 | Results are in-range candidates, and a page's results keep rank order. |
| PageSelection.NothingTwice | src/geek_crawler_rag/query.py:380-397 | No two results share a non-empty return text, nor, when siblings collapse, page id, section and trimmed parent text. |
| PageSelection.NothingForgotten | src/geek_crawler_rag/query.py:380-412 | If fewer than `k` come back, every candidate was looked at, and one not chosen returns an earlier one's text or shares a chosen one's lineage: its page, section and parent text where lineages tell. |
| EmbeddingBatching.CountOfOne | src/geek_crawler_rag/embedding_batching.py:32-42 | Counting a single text floors it at one token. |
| EmbeddingBatching.PartitionEmbeddingBatches | src/geek_crawler_rag/embedding_batching.py:45-74 | It fails exactly on bad limits or the first over-long text; else the batches concatenate to the input, are non-empty, within both limits, counted exactly and full. |
| EmbeddingBatching.GreedyIsOptimal | src/geek_crawler_rag/embedding_batching.py:45-74 | No contiguous partition within the limits uses fewer batches. |
| EmbeddingCache.VectorCache.GetMany | src/geek_crawler_rag/vector_cache.py:66-98 | Finds exactly the stored vectors of the right width, counts hits and misses over the distinct texts, and finds and counts nothing on a failed read. |
| EmbeddingCache.VectorCache.PutMany | src/geek_crawler_rag/vector_cache.py:100-127 | Inserts exactly the new right-width vectors of the writes that land and overwrites none. |
| EmbeddingCache.InsertedTruthful | src/geek_crawler_rag/vector_cache.py:100-127 | Writing the model's own vectors, in whatever part, keeps every readable entry its text's vector. |
| EmbeddingCache.Engine.EmbedTexts | src/geek_crawler_rag/llama_engine.py:481-537 | Batched embedding equals embedding the cleaned, non-blank texts one by one, or raises exactly what splitting them raises. |
| EmbeddingCache.Engine.EmbedMissing | src/geek_crawler_rag/llama_engine.py:444-463 | Raises exactly what embedding the unknown texts raises; else embeds and stores them, or reports a mismatch exactly when one is blank. |
| EmbeddingCache.Engine.EmbedDeduplicated | src/geek_crawler_rag/llama_engine.py:411-473 | Whatever the cache knows, every position gets its own text's vector and each distinct unknown text is embedded once - by position only if one of those is blank; it raises exactly what those embeddings raise. |
| EmbeddingCache.Engine.EmbedAndUpsert | src/geek_crawler_rag/llama_engine.py:365-404 | What is written is each non-blank text, cleaned, with the vector of exactly that text; it raises exactly when embedding the unknown ones does. |
| Admission.AdmitPageNodes | src/geek_crawler_rag/indexer.py:863-896 | Keeps the chunks whose digest has no owner or this page, claims theirs, and kept plus skipped is the page. |
| Admission.AdmitIsKept | src/geek_crawler_rag/indexer.py:863-896 | The running owner map keeps exactly the chunks whose text the first page carrying it, over the whole run, shares an id with. |
| Admission.FirstPageOwns | src/geek_crawler_rag/indexer.py:866-886 | Over distinct page ids, a chunk is kept exactly on the first page that carries its text. |
| Admission.DroppedWasKept | src/geek_crawler_rag/indexer.py:866-886 | Every dropped text was kept from an earlier page. |
| Admission.IndexPages | src/geek_crawler_rag/indexer.py:696-776 | It stops for a kill exactly if the loop has a later checkpoint; each counter is the number of pages seen that ended its way, stubs are summed, kept plus repeats is all, what was flushed is the kept chunks in order, in batches no smaller than the size but for the remainder, and without a kill all of them, in exactly one batch a flush. |
| Admission.RunStatus.SkipUnusable | src/geek_crawler_rag/indexer.py:573-594 | A skip counts once as unusable, and as language or empty by its reason. |
| Cleanup.DryRunAgrees | scripts/cleanup_unusable_pages.py:417-493 | A dry run's total equals a write's exactly when the steps match no more rows than the limit, always without one. |
| Cleanup.PurgeVectors | scripts/cleanup_unusable_pages.py:123-172 | Purges the pages' vectors, one call each; it succeeds exactly if that many calls work, and else what is left is never more than there was. |
| Cleanup.DeleteIds | scripts/cleanup_unusable_pages.py:175-204 | Wherever a call fails, no deleted row still has vectors or, if they go too, links, and nothing of another page is gone; a write succeeds exactly if its counted calls work and then deletes exactly the batch, its vectors and its links, a dry run nothing. |
| Cleanup.RunStep | scripts/cleanup_unusable_pages.py:263-316 | Unless a call fails, a step's batches go on until nothing matches or the limit is spent; they terminate. |
| Cleanup.WriteSteps | scripts/cleanup_unusable_pages.py:207-316 | Unless a call fails, no row the steps take is left or the limit is spent, every step has reported, each deleted row is counted under the first step that takes it, and exactly what hung on those rows is gone. |
| Cleanup.CountSteps | scripts/cleanup_unusable_pages.py:225-261 | A dry run counts the rows any step matches once each, with one read a step and one more, and fails exactly when one of those does; each label counts all rows its steps match. |
| Cleanup.LocaleScan | scripts/cleanup_unusable_pages.py:417-493 | Unless a call fails, the scan charges the locale rows no step takes, up to the limit, under their own label, and a write without a limit deletes exactly those. |
| Cleanup.CleanUp | scripts/cleanup_unusable_pages.py:319-496 | At every failure point no deleted page has vectors, nor links if those go too, nothing of a page not picked is gone, and every link gone is counted; four working calls a page, one a step and two more make it succeed; then both modes report exactly their totals, a write leaves exactly the vectors and links of the pages it did not delete and counts each deleted row under the first step that takes it, and a write without a limit deletes exactly the rows a step or the scan takes. |
| Scheduler.Cadence | src/geek_crawler_rag/status_store.py:457-480 | Over any events, no tick is claimed within an interval of an accepted completion. |
| Scheduler.PauseHolds | src/geek_crawler_rag/status_store.py:375-455 | After a pause no tick is claimed until somebody resumes. |
| Scheduler.TickIsExclusive | src/geek_crawler_rag/status_store.py:375-480 | While a tick's lease runs nobody else claims one, and no late owner moves the due date. |
| Scheduler.SchedulerStore.TryClaimDue | src/geek_crawler_rag/status_store.py:375-410 | A tick is claimed exactly when the synchronised row is enabled, unpaused, due and unleased. |
| Scheduler.SchedulerStore.Status | src/geek_crawler_rag/status_store.py:334-373 | Reading the status creates the row due now, or makes it follow the configuration but never the pause. |
| Scheduler.SchedulerStore.CompleteTick | src/geek_crawler_rag/status_store.py:457-480 | Only the tick's lease owner moves the due date and frees the lease. |
| Scheduler.IndexScheduler.EnqueueScheduled | src/geek_crawler_rag/indexer.py:224-243 | A scheduled run is queued exactly when intake is open, the run is ready and an unforced claim succeeds. |
| Scheduler.IndexScheduler.Tick | src/geek_crawler_rag/scheduler.py:116-177 | It queues the oldest ready run that is neither over nor exhausted exactly when the tick is due, no job is live and both gates are open - the claim is never refused - and a claimed tick ends with the next due date an interval ahead. |

## Left out

* The web routes, wire models, webhooks, logging, timings and client libraries of Mongo, Qdrant and Cohere: input and
  output. Store calls are atomic; clocks are synchronised and calls take no time.
* The embedding model, WordPiece, language detection and digests: parameters. Digests in cache keys and text owners are
  taken to tell different texts apart; page lineage uses its digest as it is, and says so where collisions matter.
* Exact floating-point scores: scores are reals.
* `is_stub_text`, section anchors, and the stub and sitemap classifiers: they only label or filter.
* Lower-casing that depends on context (final sigma): a table per character.
- LongQuoteIffSameText: for tables that lower-case character for character; one that lengthens a character lets a quote match from the middle of it, so only acceptance (`SameTextVerifies`) holds of every table that keeps escapes.
- ShortQuoteIffSameText: for the same tables, under which the normal form tells texts apart; acceptance (`SameCellVerifies`) holds of every table that keeps escapes.
* Non-dictionary blocks other than `None`: the page projection raises on them.
* Embedding sanitisation is a function assumed idempotent where `EmbedAndUpsert` needs it; the citation claim is about
  the raw parent and child texts.
* `claim_recoverable`, deleting a run's row while it executes, and an orderly shutdown (a crash step stands for it).
* A save's other counters and the stale attempt number it may carry: a save writes the row's current attempt.
* A retry time on release, and the intake pause's own storage (it is an input of the scheduler).
* Store errors other than a failing renewal: `_persist` swallows them, which the model's saves never have to.
* Embedding outages that quarantine a run: an execution that fails is `Finish` with a failure.
* `_candidates`, the reranker and response assembly: the selection takes a pool and a ranking.
* The cleanup's progress lines and its count of rows read.
- Kill: the step reads the row and writes FAILED at once; a kill whose two store calls straddle another step is not modelled.
- NoStrandedJob: for one process and no fault; `KillEndangers` is the exact condition on a kill in such runs, and what several processes or a crash leave behind is for `claim_recoverable`, which is not modelled.
- MutualExclusion: for runs without a kill that frees the row of a fenced execution; that is the exact condition on a kill (`KillOverlapsIff`).
- RawRowIff: for rows that are not crossed; of a crossed row the verdict depends on what else the page shows, and only one refused row is given (`CrossedRowRefused`).
- GetMany: the order in which the cursor yields documents does not matter to the result and is not modelled.
- CleanUp: the locale cursor reads the rows as they were when it was opened.
