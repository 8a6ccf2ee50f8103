# Verification models of the crawl-to-vector engine

This project models the parts of the repository where state, concurrency or text handling is hardest
to get right, and proves what those parts promise. To verify: `dafny verify dfyconfig.toml`.
Foreign calls (the embedding provider, the vector store, `should_cancel`, clocks, thread scheduling,
JSON decoding) are parameters, so every theorem holds for all of their answers.

| files | what they model |
|---|---|
| IndexLedger, IndexTheorems, Indexer, MapSum | the windowed indexing run over candidate pages, against page-at-a-time indexing |
| Embedding, Clipping | adaptive batch embedding over a provider with a context limit, and the clipping of its inputs |
| Bookkeeping | the truncated lists and the phase timings of a run |
| Scheduler, Sse | the bounded test scheduler of both test workers, and the incremental reader of a streamed reply |
| IdlePulse | the idle-timer heartbeat, as interleaved atomic steps |
| TraceStore | the live-trace store: ring, active traces, pruning, merged token counts |
| CollectionJob | the job record shared by the worker and the cancel route |
| Builds | build normalisation, list validation, lookup, model-server options |
| SemVer, LineSearch, CoreVersion, TextLines, SectionVersion, Changelog, VersionSync | version parsing and bumping, and the rewriting of the version files |
| Sections, CodexProfile | the section upsert into a profile file that a user may edit |
| ProcessTree | process-tree walks over arbitrary parent relations |
| Text, Wrappers | the string operations of Python that are used, and two result types |

Code that updates variables step by step is modelled by classes and methods with loops, each proved
against a function of its inputs; the theorems are then lemmas about those functions. Code made of
expressions is modelled by functions.

## Main results

* **Windowed indexing refines page-at-a-time indexing.** With an embedder that is a function of its
  texts and closed under slices, a run in which no poll asks for a cancel ends with the ledger of
  indexing every page alone, for every window size, upsert batch size and pattern of failed sends
  (`Indexer.IndexRun.Run`, `Indexer.TuningDoesNotMatter`). A run is cancelled if and only if one of
  its polls was answered so, and it polls at most four times a page. The adaptive embedder is such an embedder
  (`Indexer.AdaptiveEmbedderIsSliceClosed`). No chunk is lost, points are distinct, and acknowledged
  points are the emitted ones unless the last send failed, however the run ends. Every point holds a
  chunk of a stored page with the vector that was answered for it
  (`IndexTheorems.PointsComeFromStoredPages`).
* **Adaptive splitting preserves meaning** for every batch size and every finishing order of the
  workers (`Embedding.EmbeddingsArePointwise`).
* **Clipping repairs code fences** exactly when `Clipping.Unrepairable` does not hold, and cuts at the
  best break (`Clipping.DraftEndsAtBreak`).
* **The idle protocol is safe in every interleaving** (`IdlePulse.EveryRunIsSafe` and its corollaries),
  and a heartbeat whose requests are in flight answers every timeout with one pulse
  (`IdlePulse.CurrentThreadsAnswer`).
* **An acknowledged cancel never ends in success** (`CollectionJob.AcknowledgedCancelNeverSucceeds`),
  and how a job ends is told from its run: an undisturbed one succeeds (`CollectionJob.HowJobsEnd`).
* **A version bump restores agreement** if and only if conditions hold that can be checked on the
  files before it (`VersionSync.BumpRestoresAgreement`, `VersionSync.FreshVersionIsShown`), for all
  files: whatever ends their lines, and with digits outside ASCII. It leaves everything else in them as
  it was (`VersionSync.BumpKeepsTheRest`).
* **Profile writes stabilise at the second write** and keep every other section byte for byte, but
  for white space at the end of the last (`CodexProfile.ThirdWriteIsSecond`,
  `CodexProfile.OtherSectionsSurvive`).
* **The test scheduler** runs every test once and returns the rows in order when no poll asks for a
  cancel and every wait answers (`Scheduler.Worker.Run`).
* **Accepted builds are fixed points** of normalisation (`Builds.NormalizationIsAFixedPoint`), which
  build a dict is accepted as is told from its entries (`Builds.AcceptedExactly`), and every accepted
  id finds its build (`Builds.IdsFindTheirBuilds`).
* **Assembly of a streamed reply** depends only on the concatenated text (`Sse.ReadStream`).
* **Process walks** return exactly the reachable processes (`ProcessTree.TreeForPid`).

## Where the code does less than its documentation or its names suggest

* Clipping leaves an odd number of fence markers not only when the last marker is the first visible
  thing, but also when a break lands in more than 160 leading blanks: the draft is then empty and the
  whole head is returned (`Clipping.BlankLeadStaysOpen`).
* `parse_semver` accepts a version with one newline behind it, because `$` stands before a final
  newline. Such an explicit version is written to the version file and then can be read back from no
  section (`VersionSync.NewlineNeverAgrees`).
* `parse_semver` accepts digits outside ASCII behind the first digit of a number, because `\d` matches
  them and `int` reads them: the version is then written as it was given (`SemVer.ParsesExactly`).
* A bump without a `[tool.commitizen]` version, or with an entry of the new version already in the
  changelog, stops half-way, after the version file was rewritten (`VersionSync.FailedBumpsDrift`).
* Replacing VERSION takes the blank lines behind it along (`CoreVersion.BlankLinesAreLost`), once;
  `CoreVersion.KeepsAllExactly` says when nothing is lost.
* `replace_section_version` writes no line end for a line that ends in a separator other than a
  newline, so the line runs into the next one (`SectionVersion.LineEndIsLost`): unless that one is
  blank the version is not read there any more, and a header is swallowed
  (`SectionVersion.ReplacedSectionParses`). Where the `[tool.commitizen]` version is lost so, the
  check still reports no drift, because it takes a missing one for agreement.
* A job that was decided a success, and shown as one, is recorded as failed if the log entry that
  follows raises (`CollectionJob.JobsFail`).
* A cancel seen at the second poll of a page leaves that page's dropped-chunk count and the
  collection's dimension in the statistics, although none of its chunks was stored
  (`Indexer.IndexRun.PollWhileSaving`).

## Model

| member | source | states |
|---|---|---|
| Indexer.IndexRun.Run | Core/api/http/webui_crawler_indexing_runtime_core.py:652-796 | the run is cancelled if and only if one of its polls was answered so; a run that nobody cancels processes every page and, with a slice-closed embedder, ends with the ledger of indexing each page alone; in every run the prepared chunks are all accounted for, points are distinct, and all are acknowledged unless the last send failed |
| Indexer.IndexRun.PageLoop | Core/api/http/webui_crawler_indexing_runtime_core.py:652-786 | the loop concludes a prefix of the pages: every page of it is skipped, embedded, pending or abandoned; it is all of them unless a poll was answered with a cancel |
| Indexer.IndexRun.Turn | Core/api/http/webui_crawler_indexing_runtime_core.py:653-786 | one turn concludes exactly one more page; it stops if and only if one of its polls was answered with a cancel, and then nothing is lost |
| Indexer.IndexRun.TakePage | Core/api/http/webui_crawler_indexing_runtime_core.py:661-784 | after it the events and the pending pages cover one more page |
| Indexer.IndexRun.ConsiderPage | Core/api/http/webui_crawler_indexing_runtime_core.py:661-784 | a page is skipped under its reason or joins the window, with the prepared counts raised by just its chunks |
| Indexer.IndexRun.SkipEarly | Core/api/http/webui_crawler_indexing_runtime_core.py:672-761 | a page skipped before embedding is one skip event |
| Indexer.IndexRun.PendingChunkCount | Core/api/http/webui_crawler_indexing_runtime_core.py:376-377 | the number of chunks of all pending pages |
| Indexer.IndexRun.FlushFullWindow | Core/api/http/webui_crawler_indexing_runtime_core.py:785-786 | a window of at least the configured number of chunks is flushed, a smaller one leaves everything as it is; it stops exactly on a true poll |
| Indexer.IndexRun.FlushKeepsProgress | Core/api/http/webui_crawler_indexing_runtime_core.py:580-650 | flushing moves pages from pending to embedded or abandoned and loses none |
| Indexer.IndexRun.FlushPendingPages | Core/api/http/webui_crawler_indexing_runtime_core.py:580-650 | afterwards the window is empty, and embedded pages followed by abandoned ones are the earlier embedded pages followed by the window; it stops exactly on a true poll |
| Indexer.IndexRun.ConcludeWindow | Core/api/http/webui_crawler_indexing_runtime_core.py:591-650 | the pages of a window are embedded in order, and those a cancel left over are abandoned |
| Indexer.IndexRun.EmbedWindow | Core/api/http/webui_crawler_indexing_runtime_core.py:591-650 | the events are those of one call for the window, sliced, or if that call fails of one call a page; the calls are counted, and pages not reached are abandoned in order |
| Indexer.IndexRun.StoreWindow | Core/api/http/webui_crawler_indexing_runtime_core.py:641-650 | page after page is stored with its slice of the one result, in order; a true poll abandons the rest |
| Indexer.IndexRun.StoreOneByOne | Core/api/http/webui_crawler_indexing_runtime_core.py:617-639 | after a failed window call every page is embedded in its own call, in order, and concluded as that call answers |
| Indexer.IndexRun.EmbedAndStorePage | Core/api/http/webui_crawler_indexing_runtime_core.py:624-637 | the page is skipped as embed_failed exactly when its own call raised, and stored otherwise; a true poll leaves it unconcluded |
| Indexer.IndexRun.StoreEmbeddedPage | Core/api/http/webui_crawler_indexing_runtime_core.py:409-578 | the page is concluded as stored, or one of its one or two polls was answered with a cancel and no chunk of it was added |
| Indexer.IndexRun.CountDropped | Core/api/http/webui_crawler_indexing_runtime_core.py:430-461 | the surviving chunks are all those with a vector, in order and each with its own; dropped chunks are counted, and the first page with a vector fixes the dimension |
| Indexer.IndexRun.SkipUnembedded | Core/api/http/webui_crawler_indexing_runtime_core.py:426-428 | a page without embeddings is one embed_failed skip, its chunks counted as never embedded |
| Indexer.IndexRun.SkipAdmitted | Core/api/http/webui_crawler_indexing_runtime_core.py:444-475 | an admitted page that is not saved is one skip under its reason |
| Indexer.IndexRun.AdmitPage | Core/api/http/webui_crawler_indexing_runtime_core.py:426-475 | an empty reply, no surviving chunk or a wrong dimension, and nothing else, skips the page; otherwise drops and dimension are recorded and the surviving chunks handed on |
| Indexer.IndexRun.PollWhileSaving | Core/api/http/webui_crawler_indexing_runtime_core.py:477-488 | it stops exactly as the poll is answered; a cancel seen here leaves the page torn: admitted, but with no chunk added |
| Indexer.IndexRun.SaveAdmittedPage | Core/api/http/webui_crawler_indexing_runtime_core.py:490-578 | all surviving chunks of the page are added and the page is counted indexed |
| Indexer.IndexRun.AddPage | Core/api/http/webui_crawler_indexing_runtime_core.py:492-567 | the chunks go in, the buffer is sent if due, and the page is counted indexed |
| Indexer.IndexRun.AddPageChunks | Core/api/http/webui_crawler_indexing_runtime_core.py:492-564 | the chunk loop adds exactly the not-yet-seen chunks, in order |
| Indexer.IndexRun.AddPageChunk | Core/api/http/webui_crawler_indexing_runtime_core.py:493-564 | a seen key only raises the duplicate count; a new key adds one point, keeping acknowledged plus buffered equal to emitted |
| Indexer.IndexRun.FlushUpsertBatch | Core/api/http/webui_crawler_indexing_runtime_core.py:379-388 | a send happens when due; success empties the buffer and acknowledges everything emitted, failure keeps the buffer |
| Indexer.IndexRun.RecordPageSkip | Core/api/http/webui_crawler_indexing_runtime_core.py:149-178 | the skip is counted once, under its reason or under other |
| Indexer.IndexRun.MarkPageProcessed | Core/api/http/webui_crawler_indexing_runtime_core.py:390-395 | the processed count rises by one and a balanced snapshot is published |
| Indexer.IndexRun.SkipPage | Core/api/http/webui_crawler_indexing_runtime_core.py:397-407 | a skip and the page mark together are one event |
| Indexer.IndexRun.ShouldCancel | Core/api/http/webui_crawler_indexing_runtime_core.py:654-655 | each poll takes the next answer of the cancel oracle |
| Indexer.IndexRun.Cancel | Core/api/http/webui_crawler_indexing_runtime_core.py:654-659 | a poll answered with a cancel, and no other, marks the run cancelled and publishes a balanced snapshot |
| Indexer.IndexRun.Finish | Core/api/http/webui_crawler_indexing_runtime_core.py:788-791 | nothing stays pending; every emitted point is acknowledged unless the last send failed |
| Indexer.IndexRun.Summary | Core/api/http/webui_crawler_indexing_runtime_core.py:788-796 | coverage of the pages gives the refinement, the chunk ledger and deduplication |
| Indexer.PageSlice | Core/api/http/webui_crawler_indexing_runtime_core.py:641-645 | the slice at the summed offsets is what the page would be given alone |
| Indexer.EmbeddedBy | Core/api/http/webui_crawler_indexing_runtime_core.py:617-650 | conclusions reached through the embedder add their pages, in order, and no skip |
| Indexer.OwnCallIsAlone | Core/api/http/webui_crawler_indexing_runtime_core.py:617-626 | with an embedder that is a function of its texts, a page in its own call is concluded as alone |
| Indexer.CollectTexts | Core/api/http/webui_crawler_indexing_runtime_core.py:591-601 | the window texts are the texts of its pages, concatenated in order |
| Indexer.TuningDoesNotMatter | Core/api/http/webui_crawler_indexing_runtime_core.py:315-319 | the reference ledger does not depend on window size, batch size, failing sends or polls |
| Indexer.AdaptiveEmbedderIsSliceClosed | Core/api/http/webui_crawler_indexing_runtime_core.py:610-616 | the adaptive embedder meets what the refinement asks of an embedder |
| IndexTheorems.ApplyAfterSkip | Core/api/http/webui_crawler_indexing_runtime_core.py:149-178 | a skip commutes with concluding any other page |
| IndexTheorems.ReplayNormalForm | Core/api/http/webui_crawler_indexing_runtime_core.py:652-788 | a run is its embedded pages in order followed by its early skips |
| IndexTheorems.SameConclusionsSameLedger | Core/api/http/webui_crawler_indexing_runtime_core.py:580-650 | the same conclusions with skips moved give the ledger of page-at-a-time indexing |
| IndexTheorems.ReplayIsBalanced | Core/api/http/webui_crawler_indexing_runtime_core.py:390-407 | at every point processed = indexed + skipped and the skip reasons sum to skipped |
| IndexTheorems.ReplayAccounts | Core/api/http/webui_crawler_indexing_runtime_core.py:426-578 | chunks of embedded pages = stored + deduped + dropped + mismatched + never embedded |
| IndexTheorems.ReplayDeduplicates | Core/api/http/webui_crawler_indexing_runtime_core.py:492-498 | emitted points have distinct keys; total_chunks is their number and that of the seen keys |
| IndexTheorems.AddChunksAddsExactly | Core/api/http/webui_crawler_indexing_runtime_core.py:492-564 | the points added are those of the first occurrences of the unseen keys, all of them and in order, and nothing else |
| IndexTheorems.StoringIsAllOrNothing | Core/api/http/webui_crawler_indexing_runtime_core.py:426-578 | the whole ledger after a page, in four cases: without embeddings, with none surviving or with the wrong dimension it is skipped under its reason and adds nothing; else it is counted indexed and adds just the points of the first occurrences of its unseen keys |
| IndexTheorems.FirstsAreAllInOrder | Core/api/http/webui_crawler_indexing_runtime_core.py:493-498 | what goes in are all first occurrences of unseen keys, once each and in order |
| IndexTheorems.FirstsCoverTheKeys | Core/api/http/webui_crawler_indexing_runtime_core.py:493-498 | every unseen key goes in |
| IndexTheorems.PointsComeFromStoredPages | Core/api/http/webui_crawler_indexing_runtime_core.py:430-564 | every point stems from a page that was stored, and holds one of its chunks with the vector that was answered for just this chunk: abandoned pages contributed none |
| IndexTheorems.SurvivorsKeepTheirVectors | Core/api/http/webui_crawler_indexing_runtime_core.py:430-434 | the surviving pairs are those of all chunks that have a vector, in order, each with the vector at its own place |
| IndexTheorems.SkipCountsOne | Core/api/http/webui_crawler_indexing_runtime_core.py:149-178 | a skip raises the counter of its reason, or of other if that is no counter, by one, and nothing else |
| IndexTheorems.EarlySkips | Core/api/http/webui_crawler_indexing_runtime_core.py:672-761 | a page is skipped before embedding if and only if it has no chunks, and which counter is then one higher is told from its content |
| IndexTheorems.CoversOneMore | Core/api/http/webui_crawler_indexing_runtime_core.py:652-784 | one more page is either skipped at once or pending |
| Bookkeeping.Lists.RememberPrepareRemoval | Core/api/http/webui_crawler_indexing_runtime_core.py:89-111 | the list is the first eight of the stable descending sort of every positive removal ever given |
| Bookkeeping.SortIsStable | Core/api/http/webui_crawler_indexing_runtime_core.py:110 | the sort is descending and keeps equal entries in order |
| Bookkeeping.StableSortIsUnique | Core/api/http/webui_crawler_indexing_runtime_core.py:110 | any descending stable arrangement is this one |
| Bookkeeping.InsertIntoFirst | Core/api/http/webui_crawler_indexing_runtime_core.py:101-111 | cutting after eight before inserting loses nothing that belongs to the first eight |
| Bookkeeping.SortOfFirst | Core/api/http/webui_crawler_indexing_runtime_core.py:101-111 | sorting one more into the first eight gives the first eight of the longer sorted list |
| Bookkeeping.Lists.RememberEmbeddingHistory | Core/api/http/webui_crawler_indexing_runtime_core.py:114-146 | the history is the first eight rows of the unbounded history |
| Bookkeeping.PushOntoFirst | Core/api/http/webui_crawler_indexing_runtime_core.py:141-146 | truncating before a push does not change the first eight |
| Bookkeeping.HistoryShowsLastOfRuns | Core/api/http/webui_crawler_indexing_runtime_core.py:141-146 | the unbounded history holds of every run of rows about one page just the last row, newest first |
| Bookkeeping.Lists.RememberSkip | Core/api/http/webui_crawler_indexing_runtime_core.py:191-194 | the recent skips are the last twelve of the whole log |
| Bookkeeping.PhaseClock.CloseSegment | Core/api/http/webui_crawler_indexing_runtime_core.py:290-293 | the floored milliseconds of the open segment are added to its phase, and to no other |
| Bookkeeping.PhaseClock.SetPhase | Core/api/http/webui_crawler_indexing_runtime_core.py:286-298 | entering another phase closes the open segment and opens one at that moment; naming the same phase leaves it open; nothing recorded is lost |
| Bookkeeping.PhaseClock.FinishTiming | Core/api/http/webui_crawler_indexing_runtime_core.py:300-306 | the durations are those of all segments since the first phase; they sum to at most elapsed_ms and miss less than a millisecond a segment |
| Bookkeeping.DurationsAreClose | Core/api/http/webui_crawler_indexing_runtime_core.py:286-306 | for every chain of segments the recorded milliseconds never exceed the time covered and miss less than one a segment |
| Bookkeeping.PhaseIsClose | Core/api/http/webui_crawler_indexing_runtime_core.py:290-293 | the same for each phase alone |
| Bookkeeping.PhasesLoseLittle | Core/api/http/webui_crawler_indexing_runtime_core.py:286-306 | for every sequence of phase calls the durations sum to at most the elapsed time and miss less than a millisecond a segment of the time since the first call |
| Bookkeeping.SegmentsAreRuns | Core/api/http/webui_crawler_indexing_runtime_core.py:286-306 | there is one segment for each run of calls that name one phase, from its first call to the first call of the next run |
| Bookkeeping.TimePhases | Core/api/http/webui_crawler_indexing_runtime_core.py:286-306 | a clock that is given these calls ends with just those durations |
| Embedding.EmbeddingsArePointwise | Core/api/http/webui_crawler_indexing_runtime_embed.py:130-207 | entry i is the embedding of the clip of text i if that fits, else that of its first fitting retry, else None; the call raises only where some entry does; no two batch sizes differ |
| Embedding.AdaptiveIsPointwise | Core/api/http/webui_crawler_indexing_runtime_embed.py:175-193 | halving refused batches keeps the pointwise meaning |
| Embedding.RetryFindsFirstFittingClip | Core/api/http/webui_crawler_indexing_runtime_embed.py:156-173 | the retry loop gives the first fitting clip, or None |
| Embedding.FirstClipThatFits | Core/api/http/webui_crawler_indexing_runtime_embed.py:156-173 | the first fitting clip is that at the first retry limit at which the clip fits, or there is none at any |
| Embedding.BatchReplies | Core/api/http/webui_crawler_indexing_runtime_embed.py:133-154 | a reply counts only with one vector for each text; any other number is an error that is not retried |
| Embedding.EachIsUnique | Core/api/http/webui_crawler_indexing_runtime_embed.py:175-193 | the pointwise meaning leaves only one result |
| Embedding.BatchedIsPointwise | Core/api/http/webui_crawler_indexing_runtime_embed.py:195-207 | cutting into batches keeps the pointwise meaning |
| Embedding.EmbeddingsAreSliceClosed | Core/api/http/webui_crawler_indexing_runtime_embed.py:130-207 | a part of an embedded list embeds to the same part of the result |
| Embedding.EmbedOneWithContextRetry | Core/api/http/webui_crawler_indexing_runtime_embed.py:156-173 | the loop over the limits computes the retry function |
| Embedding.EmbedAllSequential | Core/api/http/webui_crawler_indexing_runtime_embed.py:200-203 | the loop concatenates the batch results and stops at the first error |
| Embedding.EmbedAllParallel | Core/api/http/webui_crawler_indexing_runtime_embed.py:204-207 | whatever order the workers finish in, the results are concatenated in batch order |
| Embedding.GetEmbeddings | Core/api/http/webui_crawler_indexing_runtime_embed.py:100-215 | for every worker count the call embeds the clip of each text, entry by entry, or raises where one of them does |
| Embedding.ConcatSnoc | Core/api/http/webui_crawler_indexing_runtime_embed.py:201-206 | extending the output batch by batch is concatenation |
| Clipping.ClipTextForEmbedding | Core/api/http/webui_crawler_indexing_helpers.py:135-157 | a text within the limit is kept; any other becomes its draft without an open fence, or the stripped head if that leaves nothing |
| Clipping.CutAtBreak | Core/api/http/webui_crawler_indexing_helpers.py:149-152 | the text is cut behind the first break, in the order of preference, whose last occurrence is not too early, and is kept whole if there is none |
| Clipping.DraftEndsAtBreak | Core/api/http/webui_crawler_indexing_helpers.py:141-152 | the draft ends at the last paragraph end of the head if that is not too early, else at its last line end, else behind its last sentence, else at its last blank, else the head is kept |
| Clipping.LeastBreak | Core/api/http/webui_crawler_indexing_helpers.py:142 | the least offset of a break is 160, or 55 percent of the limit if that is more |
| Clipping.ClipIsDraft | Core/api/http/webui_crawler_indexing_helpers.py:135-157 | what a clipped text is, told from its draft: the draft, the draft before its open fence, or the stripped head |
| Clipping.ClipBalancesFences | Core/api/http/webui_crawler_indexing_helpers.py:153-157 | a really clipped text has an even greedy count of fence markers if and only if its draft was repairable |
| Clipping.ClipIsStablePiece | Core/api/http/webui_crawler_indexing_helpers.py:135-157 | a clipped text is a contiguous piece of the head without trailing whitespace, is a fixed point of clipping, and is empty only for a blank head |
| Clipping.CutAtLastCountsOneLess | Core/api/http/webui_crawler_indexing_helpers.py:153-156 | cutting at the last occurrence lowers the greedy count by exactly one, even where occurrences overlap |
| Text.CountIsMost | Core/api/http/webui_crawler_indexing_helpers.py:153 | no more occurrences that do not overlap are found than the greedy count says |
| Text.CountIsReached | Core/api/http/webui_crawler_indexing_helpers.py:153 | the greedy count is a number of occurrences that do not overlap |
| Clipping.CutBalances | Core/api/http/webui_crawler_indexing_helpers.py:153-156 | cutting an odd draft at its last marker leaves an even count |
| Clipping.FencesSurviveRStrip | Core/api/http/webui_crawler_indexing_helpers.py:141-156 | stripping the end changes no marker count |
| Clipping.FencesSurviveStrip | Core/api/http/webui_crawler_indexing_helpers.py:157 | stripping both ends changes no marker count |
| Clipping.LeadingFenceStaysOpen | Core/api/http/webui_crawler_indexing_helpers.py:155 | a marker at the very start stays, with an odd count, whatever follows it |
| Clipping.BlankLeadStaysOpen | Core/api/http/webui_crawler_indexing_helpers.py:149-157 | with over 160 leading blanks the break empties the draft and the head comes back with its open fence |
| Scheduler.Worker.Run | Core/api/http/rag_tests_workers.py:645-708 | the state after a run is the one its polls and waits determine; only a poll that asks for it cancels; a run without such a poll, whose waits all answer and that has more turns than tests, finishes; a finished run returns the row of every test once, in order |
| Scheduler.Worker.Turn | Core/api/http/rag_tests_workers.py:648-699 | one turn fills the workers and collects exactly the futures that the wait answered with; it cancels just when its poll asks for it, and finishes just when nothing is left to run |
| Scheduler.Worker.Loop | Core/api/http/rag_tests_workers.py:645-699 | the loop takes turn after turn until one cancels or finishes |
| Scheduler.Worker.LaunchAll | Core/api/http/rag_tests_workers.py:657-663 | tests are submitted in order until all workers are busy or none is left |
| Scheduler.Worker.WaitAndCollect | Core/api/http/rag_tests_workers.py:668-699 | exactly the futures that the wait answered with are collected |
| Scheduler.Worker.CollectAll | Core/api/http/rag_tests_workers.py:672-699 | each of them adds its row, in the order of the answer |
| Scheduler.CancelledByAPoll | Core/api/http/rag_tests_workers.py:648-655 | a cancelled run had a poll that asked for it |
| Scheduler.YesCancels | Core/api/http/rag_tests_workers.py:648-655 | a poll that is reached and answers yes cancels the run with what was collected before it |
| Scheduler.FillingIsGreedy | Core/api/http/rag_tests_workers.py:657-663 | after filling all workers are busy or no test is left, the running tests are those that ran and the next ones in order |
| Scheduler.Worker.LaunchNext | Core/api/http/rag_tests_workers.py:657-663 | the next test is submitted once; active never exceeds the workers, completed plus active never exceeds launched plus one nor the total |
| Scheduler.Worker.Collect | Core/api/http/rag_tests_workers.py:672-699 | a finished future leaves the running set and its row joins the results |
| Scheduler.Worker.AddRow | Core/api/http/rag_tests_workers.py:688-698 | the row joins the results with its counter, keeping counters equal to the tally of the rows |
| Scheduler.Worker.SetProgress | Core/api/http/rag_tests_workers.py:581-602 | a progress is published that is exact: current plus pending is the total and the counters sum to completed |
| Scheduler.TallyCountsRows | Core/api/http/rag_tests_workers.py:690-698 | every row is counted under exactly one status |
| Scheduler.VerdictsCountRows | Core/api/http/rag_tests_workers.py:442-447 | the counters of the first worker are the number of rows that passed and that of all others |
| Scheduler.RetrievalsCountRows | Core/api/http/rag_tests_workers.py:688-698 | the counters of the second worker are the numbers of rows with each of three statuses and that of all others |
| Scheduler.RetrievalsAreClassified | Core/api/http/rag_tests_workers.py:497-500 | every outcome of a retrieval test raises exactly its own counter |
| Scheduler.SortByOrder | Core/api/http/rag_tests_workers.py:707 | the sorted rows are an ascending permutation of the results |
| Scheduler.AscendingFromZero | Core/api/http/rag_tests_workers.py:707-709 | ascending distinct orders below n, n of them, are 0 to n - 1 |
| Scheduler.Worker.constructor | Core/api/http/rag_tests_workers.py:569-579 | the worker starts with nothing launched and between one and eight workers |
| Sse.ReadStream | Core/api/http/rag_tests_workers.py:209-236 | the assembled content is a fold over the complete lines of the concatenated text, whatever the pieces |
| Sse.Assemble | Core/api/http/rag_tests_workers.py:213-236 | after every piece the content is that of all complete lines so far and the buffer is the newline-free tail |
| Sse.DrainBuffer | Core/api/http/rag_tests_workers.py:216-236 | draining takes the complete lines of the buffer and leaves its tail |
| Sse.LinesOfExtension | Core/api/http/rag_tests_workers.py:215-217 | cutting an extended text needs only the tail of what came before |
| Sse.LinesAndTail | Core/api/http/rag_tests_workers.py:216-217 | the lines and the tail put together are the text |
| Sse.NoNewlineInside | Core/api/http/rag_tests_workers.py:216-217 | no newline is left inside a line or in the tail |
| Sse.DataLineIsDecoded | Core/api/http/rag_tests_workers.py:218-236 | a data line contributes what is decoded from its payload, whatever white space is around line and payload, and the end mark nothing |
| Sse.OtherLinesAreEmpty | Core/api/http/rag_tests_workers.py:218-223 | any other line contributes nothing |
| Sse.ChunkingDoesNotMatter | Core/api/http/rag_tests_workers.py:213-217 | cutting a piece in two does not change what arrives |
| IdlePulse.EveryRunIsSafe | Core/application/windows_idle.py:77-112 | in every interleaving the in-flight count is that of tokens not yet decremented, the event guards the current heartbeat, and superseded heartbeats pulse late at most once |
| IdlePulse.OneHeartbeatInFlight | Core/application/windows_idle.py:77-112 | while requests are in flight the event is clear and exactly one un-notified heartbeat carries the current generation |
| IdlePulse.NoneIsLeftWaiting | Core/application/windows_idle.py:99-108 | when nothing is in flight every thread that still waits was notified, and can only wake and exit |
| IdlePulse.ClampNeverActs | Core/application/windows_idle.py:100-101 | a decrement by a token always finds a positive count |
| IdlePulse.LatePulsesAreBounded | Core/application/windows_idle.py:107-112 | a superseded heartbeat pulses at most once more |
| IdlePulse.StaysSuperseded | Core/application/windows_idle.py:107-112 | a superseded heartbeat stays superseded |
| IdlePulse.SupersededThreadsWindDown | Core/application/windows_idle.py:107-112 | every step of a superseded heartbeat brings it closer to its exit |
| IdlePulse.CurrentThreadsPulse | Core/application/windows_idle.py:107-112 | a current heartbeat that waits through its timeout comes to a pulse, and is back where it was |
| IdlePulse.CheckDecides | Core/application/windows_idle.py:109-112 | the check lets exactly the current heartbeats go on to a pulse, and ends every other |
| IdlePulse.TimeoutsAreAnswered | Core/application/windows_idle.py:107-112 | over every run each timeout of a heartbeat is answered by one pulse before it waits again, unless it leaves its loop |
| IdlePulse.CurrentThreadsAnswer | Core/application/windows_idle.py:107-112 | over every run a current heartbeat has pulsed as often as it timed out, but for the timeout it is just answering |
| IdlePulse.AllClosedMeansStopped | Core/application/windows_idle.py:96-104 | when every token is closed nothing is in flight and the event is set |
| IdlePulse.StepKeepsInv | Core/application/windows_idle.py:77-112 | every atomic step keeps the invariant |
| IdlePulse.Globals.BeginProxyActivity | Core/application/windows_idle.py:81-93 | the lock section is the Begin step |
| IdlePulse.Globals.EndToken | Core/application/windows_idle.py:69-74 | only the first end of a token goes on to decrement, even when close and teardown both call it |
| IdlePulse.Globals.EndProxyActivity | Core/application/windows_idle.py:99-103 | the lock section lowers the count by exactly one and sets the event at zero |
| IdlePulse.Globals.StepHeartbeat | Core/application/windows_idle.py:107-112 | a heartbeat iteration is its sequence of steps, and pulses in just one of them |
| CollectionJob.AcknowledgedCancelNeverSucceeds | Core/api/http/webui_crawler_job_routes.py:285-289 | after a cancel is answered running, every continuation ends cancelled or failed and writes no metadata |
| CollectionJob.LateCancelChangesNothing | Core/api/http/webui_crawler_job_routes.py:483-489 | a cancel after the decision changes nothing and its answer says so |
| CollectionJob.MetadataMeansSuccess | Core/api/http/webui_crawler_job_routes.py:346-380 | metadata is written once, only by a successful job that was never cancelled |
| CollectionJob.HowJobsEnd | Core/api/http/webui_crawler_job_routes.py:285-394 | a job that is over failed if and only if something was raised, else was cancelled if and only if a cancel came while it ran, else succeeded with all pages shown and its metadata written |
| CollectionJob.UndisturbedJobsSucceed | Core/api/http/webui_crawler_job_routes.py:285-380 | a job that nobody cancels and in which nothing is raised ends successful, complete, and with its metadata written once |
| CollectionJob.JobsFail | Core/api/http/webui_crawler_job_routes.py:285-394 | a job can still fail after it was decided a success, and the record then shows the failure |
| CollectionJob.RunsAreTold | Core/api/http/webui_crawler_job_routes.py:220-311 | what the record shows of cancels, failures, progress and phase is told from the actions of the run, and so is whether the worker saw a request |
| CollectionJob.ReplyShowsTheRecord | Core/api/http/webui_crawler_job_routes.py:476-497 | the route answers with the status and the request that the record then holds |
| CollectionJob.RunsAreMonotone | Core/api/http/webui_crawler_job_routes.py:286-289 | a status never returns to running and a request is never withdrawn |
| CollectionJob.EveryRunKeepsInv | Core/api/http/webui_crawler_job_routes.py:273-394 | the invariant between worker and record holds in every interleaving |
| CollectionJob.Job.CancelCreateCollection | Core/api/http/webui_crawler_job_routes.py:476-497 | the route is the cancel step and answers what it saw |
| CollectionJob.Job.ShouldCancel | Core/api/http/webui_crawler_job_routes.py:215-218 | the poll answers the recorded request |
| CollectionJob.Job.OnProgress | Core/api/http/webui_crawler_job_routes.py:220-249 | the callback is the progress step |
| CollectionJob.Job.DecideStatus | Core/api/http/webui_crawler_job_routes.py:285-311 | the job is cancelled if indexing stopped or a cancel was requested, and else successful with all pages shown |
| CollectionJob.Job.RecordFailure | Core/api/http/webui_crawler_job_routes.py:387-394 | the failure path ends the job as failed |
| TraceStore.Store.SetCurrentTrace | Core/api/http/proxy_trace.py:268-285 | the trace is merged, its stripped copy enters the ring, its copy becomes active; of the live tables exactly the expired traces go, and nothing else changes |
| TraceStore.Store.RecordTrace | Core/api/http/proxy_trace.py:275-283 | the caller's dict, the ring, the active map and the time stamps change together, and live counts never shrink |
| TraceStore.Store.UpdateLiveStreamProgress | Core/api/http/proxy_trace.py:175-220 | the live count is raised and never lowered, the current and the active trace show it, exactly the expired traces go, and all other tables stay as they were |
| TraceStore.Store.RaiseLiveCount | Core/api/http/proxy_trace.py:195-202 | the live count becomes the larger of the old and the new one |
| TraceStore.Store.PatchActive | Core/api/http/proxy_trace.py:210-219 | the active trace shows the count and is fresh; no other changes |
| TraceStore.Store.PruneActiveTraces | Core/api/http/proxy_trace.py:57-66 | exactly the expired traces go, from all tables together |
| TraceStore.Store.DropActiveTrace | Core/api/http/proxy_trace.py:50-54 | a key goes from every table |
| TraceStore.Store.PruneArtifacts | Core/api/http/proxy_trace.py:69-74 | exactly the outdated artifacts go |
| TraceStore.Store.PushSnapshot | Core/api/http/proxy_trace.py:279 | the ring is the last eighty snapshots since the last clear, and none holds a live preview |
| TraceStore.Store.MergeIntoLive | Core/api/http/proxy_trace.py:162-172 | both the trace and the table take the larger count; no key appears or goes |
| TraceStore.Store.MergeForRead | Core/api/http/proxy_trace.py:310-314 | the count shown is the live one and never below what was shown before |
| TraceStore.Store.GetCurrentTrace | Core/api/http/proxy_trace.py:288-293 | successive reads of the current trace never show a smaller count |
| TraceStore.Store.GetActiveTraces | Core/api/http/proxy_trace.py:301-315 | all unexpired active traces, each once, oldest-updated first, with the live counts merged in; exactly the expired ones go |
| TraceStore.Store.SetResponseArtifacts | Core/api/http/proxy_trace.py:327-347 | every key of the reply holds the payload, dated now; other artifacts stay while they are not outdated, and exactly the expired traces go |
| TraceStore.Store.GetResponseArtifacts | Core/api/http/proxy_trace.py:350-360 | a payload is found exactly while it is not outdated |
| TraceStore.Store.ClearProxyTraceBuffer | Core/api/http/proxy_trace.py:374-380 | the ring, the live tables and the artifacts are empty; the active traces stay |
| TraceStore.Store.RecentProxyTraces | Core/api/http/proxy_trace.py:363-371 | the last snapshots since the clear, between one and eighty |
| TraceStore.MergeAgrees | Core/api/http/proxy_trace.py:162-172 | after a merge the trace shows the live count and neither writer's count was lost |
| TraceStore.MergeIsIdempotent | Core/api/http/proxy_trace.py:162-172 | merging twice changes nothing more |
| TraceStore.PatchedCountIsShown | Core/api/http/proxy_trace.py:85-107 | a patched count is what a reader is shown |
| TraceStore.PatchedEstimates | Core/api/http/proxy_trace.py:85-107 | after a patch no given count is negative, what is not given stays, the total is that of both counts, and nothing else of the trace changes |
| TraceStore.StrippedHasNone | Core/api/http/proxy_trace.py:114-119 | a stripped trace has no preview and everything else that it had |
| TraceStore.ExpiresAfter | Core/api/http/proxy_trace.py:57-66 | a running trace expires once it is older than 45 seconds, a complete one once it is older than two |
| TraceStore.PruneDrops | Core/api/http/proxy_trace.py:50-66 | what is overdue leaves no entry in any table |
| TraceStore.UpdateKeepsOthers | Core/api/http/proxy_trace.py:175-220 | a live update changes nothing of any other trace that is not expired |
| TraceStore.UpdateShowsCount | Core/api/http/proxy_trace.py:195-219 | the updated active trace shows the raised count, is fresh, and stays |
| TraceStore.UpdateShowsTail | Core/api/http/proxy_trace.py:195-219 | the updated active trace shows the end of a given visible tail, at most 200 characters of it, and else the last one |
| TraceStore.RecordShowsTrace | Core/api/http/proxy_trace.py:275-283 | a trace that is set becomes the active one of its key, is fresh, and shows the larger of its own and the live count, with the live preview |
| TraceStore.RecordKeepsOthers | Core/api/http/proxy_trace.py:268-285 | setting a trace changes nothing of any other trace that is not expired |
| TraceStore.ShownIsLive | Core/api/http/proxy_trace.py:301-315 | what a reader of an active trace is shown is its live count, and never less than what was shown before |
| Builds.NormalizationIsAFixedPoint | Core/application/llm_proxy_builds.py:45-209 | an accepted build normalises to itself without errors |
| Builds.AcceptedExactly | Core/application/llm_proxy_builds.py:45-209 | a dict is accepted as a build if and only if it stands for that build, told from its entries alone with the defaults of absent ones, and the build is normal |
| Builds.IdsAreSpelled | Core/application/llm_proxy_builds.py:15 | an id is an ASCII letter and up to 127 ASCII letters, digits, dots, hyphens and underscores behind it |
| Builds.AcceptedIsNormal | Core/application/llm_proxy_builds.py:45-209 | what is accepted has a valid stripped id, a known backend, a provider, a model, consistent flags and numbers in range |
| Builds.NormalComesBack | Core/application/llm_proxy_builds.py:45-209 | every normal build is accepted unchanged from its dict |
| Builds.ValidateBuildsList | Core/application/llm_proxy_builds.py:212-229 | a list is accepted with its normalised builds in order and distinct ids; otherwise a build is rejected or an id repeated |
| Builds.AcceptedIsNotFaulty | Core/application/llm_proxy_builds.py:212-229 | no list is both accepted and faulty, so the verdict is exact |
| Builds.AcceptedListIsStable | Core/application/llm_proxy_builds.py:212-229 | an accepted list re-validates to itself |
| Builds.FindBuildById | Core/application/llm_proxy_builds.py:232-239 | the index of the first build with the wanted id; none for a blank id or where no build has it |
| Builds.IdsFindTheirBuilds | Core/application/llm_proxy_builds.py:232-239 | in an accepted list a lookup finds a build if and only if it has the stripped id, so every id finds its own build |
| Builds.BuildOllamaOptions | Core/application/llm_proxy_builds.py:351-373 | the options are within bounds and computed from the stored numbers |
| Builds.AcceptedBuildsAreNotClamped | Core/application/llm_proxy_builds.py:351-373 | on an accepted build no clamp acts: the options are the stored numbers |
| Builds.SanityCanBeMet | Core/application/llm_proxy_builds.py:49 | what is assumed of Python's conversions can be met, with the modelled strip |
| SemVer.ShownVersionsParse | scripts/sync_version.py:31-35 | every written version reads back, also with a final newline |
| SemVer.OnlyShownVersionsParse | scripts/sync_version.py:21-35 | nothing is accepted but what, with its digits in ASCII, is a written version or that with a final newline |
| SemVer.ParsesExactly | scripts/sync_version.py:21-35 | a text is accepted as a version if and only if, with its digits in ASCII, it is the written form or that and one newline, and each number begins in ASCII |
| SemVer.ShowIsInjective | scripts/sync_version.py:38-45 | different versions are written differently |
| SemVer.BumpIsNext | scripts/sync_version.py:38-46 | a bumped version is accepted, strictly greater, and the least such with zeros right of the bumped number (items 6, 7, 8 and 11 of Semantic Versioning 2.0.0) |
| SemVer.DecimalReads | scripts/sync_version.py:41-45 | a printed number reads back |
| SemVer.NumberIsDecimal | scripts/sync_version.py:21-35 | an accepted number is printed as it was read, with its digits in ASCII |
| CoreVersion.AssignedIsSpelled | scripts/check_version_drift.py:12-13 | what the expression finds is spelled as it demands |
| CoreVersion.SpelledIsAssigned | scripts/check_version_drift.py:12-13 | whatever is spelled so is found, with just that value |
| CoreVersion.ReplacedCoreParses | scripts/sync_version.py:75-79 | replacing succeeds where reading does, and reading back gives the new version |
| CoreVersion.ReplacedCoreIsFound | scripts/sync_version.py:75-79 | the new assignment is the first match: rewriting makes no earlier line start match |
| CoreVersion.NoEarlierMatch | scripts/sync_version.py:75-79 | an earlier line start that did not match does not match after the rewrite, even behind an open quote |
| CoreVersion.ReplacingCoreTwice | scripts/sync_version.py:75-79 | replacing twice is replacing with the second version |
| CoreVersion.ReplacingCoreKeepsTheRest | scripts/sync_version.py:75-79 | the text before the assignment and after the blank space behind it is kept |
| CoreVersion.BlankLinesAreLost | scripts/sync_version.py:75-79 | two newlines behind the assignment become one |
| CoreVersion.KeepsAllExactly | scripts/sync_version.py:75-79 | everything behind the assignment is kept if and only if nothing follows it, or its line ends there and the next line is not blank |
| CoreVersion.TailMatches | scripts/check_version_drift.py:12 | the tail matches if and only if only blank space stands before the next newline or the end |
| CoreVersion.TailIsStable | scripts/check_version_drift.py:12 | what the tail leaves begins a line or is empty, and the tail takes nothing more of it |
| LineSearch.NoneBefore | scripts/check_version_drift.py:12-14 | changing the text from a line start on makes no earlier line start match |
| SectionVersion.ParseSectionVersion | scripts/check_version_drift.py:40-55 | the loop finds the first version set inside the section |
| SectionVersion.ReplaceSectionVersion | scripts/sync_version.py:82-101 | the loop rewrites that one line |
| SectionVersion.ReplacedSectionParses | scripts/sync_version.py:82-101 | for every text: re-reading a replaced section gives the new version, unless its line runs into a line that is not blank, and then what the section sets behind that line; every other section reads as before, unless its header was run into |
| SectionVersion.ReplacedSection | scripts/sync_version.py:82-101 | the lines of the replaced text, for every line end: one line rewritten, or joined with the next |
| SectionVersion.OneLineIsRewritten | scripts/sync_version.py:93-101 | one line that set a version is written anew, with its indentation and its newline; what stands before and behind it is kept |
| SectionVersion.ReplacesWhatParses | scripts/sync_version.py:99-100 | replacing raises exactly where reading does |
| SectionVersion.OthersUnchanged | scripts/check_version_drift.py:41-55 | another section reads as before, unless its header was swallowed and it was not found earlier |
| SectionVersion.BothReplaced | scripts/sync_version.py:123-126 | what two sections show after both were replaced is told from the lines before |
| SectionVersion.NothingRunsOn | scripts/sync_version.py:123-126 | where neither version line runs on, both show the new version |
| SectionVersion.RunningOnShows | scripts/sync_version.py:123-126 | where no line set that version before, both show it only if neither line runs on |
| SectionVersion.NothingAppears | scripts/sync_version.py:99-100 | a section that was not found before is not found after another was rewritten |
| SectionVersion.MergedLineReads | scripts/sync_version.py:95-97 | a rewritten line with the next one behind it sets the version if and only if that one is blank |
| SectionVersion.ParsedSectionHasNoBreak | scripts/check_version_drift.py:42-54 | a version read from a section holds no line break |
| SectionVersion.LineEndIsLost | scripts/sync_version.py:95-97 | a line end other than a newline is lost: here the section cannot be read any more |
| TextLines.ReplacedLines | scripts/sync_version.py:83-101 | joining lines of which one was replaced by a fitting line splits into just these lines |
| TextLines.MergedLines | scripts/sync_version.py:83-101 | joining lines of which one was replaced by an open line splits into the lines with that one and the next joined |
| TextLines.JoinOfSplit | scripts/sync_version.py:83-101 | joining the lines of a text gives the text |
| TextLines.EndIsStripped | scripts/check_version_drift.py:42-43 | stripping a line takes its end off too, so keeping line ends does not matter to the scan |
| Changelog.InsertedVersionIsFirst | scripts/sync_version.py:104-112 | after an insertion the changelog shows the new version, and a second insertion is refused |
| Changelog.EntriesSurvive | scripts/sync_version.py:104-112 | no entry is lost |
| Changelog.HeadingIsSpelled | scripts/check_version_drift.py:14 | a version is read only from a heading that spells it out, and holds no bracket |
| Changelog.EntryStandsFirst | scripts/sync_version.py:104-112 | the entry with its date and message stands at the first heading, before all that followed; where there is no heading it is appended behind an empty line |
| Changelog.OneEntryIsAdded | scripts/sync_version.py:104-112 | the entry is put between two parts of the text, or behind it |
| Changelog.FirstOpeningIsVersion | scripts/check_version_drift.py:65-71 | the first heading decides the version |
| VersionSync.BumpRestoresAgreement | scripts/sync_version.py:115-132 | from a drift-free state, for all files: a bump completes and leaves no drift if and only if, told from the lines before, [project] will show the version and [tool.commitizen] will show it or nothing, the changelog has no entry of it, and it has no final newline |
| VersionSync.BumpShowsEverywhere | scripts/sync_version.py:115-132 | every file shows the version after a completed bump if and only if both sections will, the changelog has no entry of it, and it has no final newline |
| VersionSync.FreshVersionIsShown | scripts/sync_version.py:115-132 | for a version that no line of pyproject.toml sets yet: if and only if [tool.commitizen] sets one, neither version line runs on into a line that is not blank, the changelog has no entry of it, and it has no final newline |
| VersionSync.BumpShows | scripts/sync_version.py:115-132 | when a bump completes, and what is read from the files then |
| VersionSync.PlainBumpAgrees | scripts/sync_version.py:115-132 | with both sections there and neither version line running on, every file shows the new version, whatever else the files hold |
| VersionSync.PyprojectShows | scripts/sync_version.py:123-126 | what both sections of the rewritten file show is told from its lines before |
| VersionSync.NewlineNeverAgrees | scripts/sync_version.py:31-35 | a version with a final newline never leaves agreement |
| VersionSync.BumpStops | scripts/sync_version.py:115-132 | without [tool.commitizen] or with an entry already there the bump stops half-way, on all files |
| VersionSync.FailedBumpsDrift | scripts/sync_version.py:115-132 | a bump that stops half-way leaves drift |
| VersionSync.IncrementsArePlain | scripts/sync_version.py:49-66 | a version computed by increment is plain, reads back and is greater |
| VersionSync.MinimalRepositoriesBump | scripts/sync_version.py:49-132 | for every version there is a repository on which planning and bumping succeed and every file shows the next version |
| VersionSync.Repository.ApplyNativeBump | scripts/sync_version.py:115-132 | the files are rewritten step after step until one raises |
| VersionSync.FindVersionDrift | scripts/check_version_drift.py:84-97 | an issue is listed for exactly the versions that differ |
| VersionSync.NamesAreProper | scripts/sync_version.py:124-125 | the keys, headings and section headers of the files meet what the theorems ask of them |
| VersionSync.BumpKeepsTheRest | scripts/sync_version.py:115-132 | a bump writes anew the assignment in the version file and one line for each section of pyproject.toml, and adds the changelog entry; it leaves all else, but blank space behind the assignment, and a bump that stops writes no file behind the one that raised |
| VersionSync.PlansExactly | scripts/sync_version.py:49-72 | exactly which version is planned: from agreement, the accepted one asked for, or else the bumped one, if it is another than the present one |
| VersionSync.PlannedParts | scripts/sync_version.py:49-72 | a plan exists only without drift, for an accepted version other than the current one |
| CodexProfile.ThirdWriteIsSecond | Core/application/codex_launcher.py:347-373 | on text where each managed header occurs at most once and begins a line, the third write equals the second byte for byte |
| CodexProfile.SecondWriteDropsOneLine | Core/application/codex_launcher.py:361-372 | the second write equals the first unless the provider section was freshly appended behind the profile section, and then only the empty line between them goes |
| CodexProfile.OtherSectionsSurvive | Core/application/codex_launcher.py:347-373 | every section that is not managed is kept, in order and byte for byte, but for white space at the end of the last one; a text of white space alone may go |
| CodexProfile.WrittenSectionsStand | Core/application/codex_launcher.py:359-373 | after a write there is no Windows section and each written section stands once |
| CodexProfile.WriteCodexProfile | Core/application/codex_launcher.py:358-373 | the loop computes the upsert of both sections after the removal |
| CodexProfile.WriteSection | Core/application/codex_launcher.py:361-372 | one round replaces the section or appends it behind an empty line |
| CodexProfile.WriteAgrees | Core/application/codex_launcher.py:347-373 | writing the text is writing its sections |
| CodexProfile.UpsertAgrees | Core/application/codex_launcher.py:361-372 | the string upsert replaces exactly one section, or appends one |
| CodexProfile.RemoveAgrees | Core/application/codex_launcher.py:191-199 | the string removal takes out exactly one section, trimming the text when it was last |
| CodexProfile.CutInTheMiddle | Core/application/codex_launcher.py:191-198 | a section that another one follows goes, or becomes the block, and everything around it stays |
| CodexProfile.CutAtTheEnd | Core/application/codex_launcher.py:191-199 | a last section becomes the block; or it goes, and what stands before it ends in one newline behind its last visible character |
| CodexProfile.AppendsTheBlock | Core/application/codex_launcher.py:367-372 | where the header is missing nothing is removed, and the block is appended behind an empty line, unless the text was empty |
| CodexProfile.PlainBlocksAreBlocks | Core/application/codex_launcher.py:187-188 | a block of lines that hold no header is a section, and holds no other header |
| CodexProfile.BuiltProfilesAreSound | Core/application/codex_launcher.py:347-360 | the profile as the launcher builds it, under any name without brackets, meets what the theorems ask, where no line of it holds one of its headers |
| Sections.FindFindsSection | Core/application/codex_launcher.py:192-195 | finding a header finds the section that it begins |
| Sections.CutsOfJoin | Core/application/codex_launcher.py:196-198 | sections joined are cut again where they were joined |
| Sections.JoinOfCuts | Core/application/codex_launcher.py:196-198 | a text is the join of its sections |
| Sections.ManagedIsClean | Core/application/codex_launcher.py:192-195 | a header managed in the text begins at most one section and occurs in no other place |
| ProcessTree.TreeForPid | Core/application/hermes_processes.py:289-318 | exactly the known rows reachable from the nearest Hermes ancestor, each once, on any parent relation |
| ProcessTree.ClimbToHermes | Core/application/hermes_processes.py:294-305 | the nearest ancestor-or-self named hermes on the parent chain, else the given pid |
| ProcessTree.DescendantPids | Core/application/host_memory.py:288-300 | exactly the pids reachable by child edges |
| ProcessTree.ChildrenTable | Core/application/host_memory.py:289-291 | the table lists exactly the children |
| ProcessTree.RowsByPid | Core/application/hermes_processes.py:290 | of several rows with one pid the last counts |
| ProcessTree.WalkedAll | Core/application/host_memory.py:294-300 | when the stack is empty the visited pids are the reachable ones |
| ProcessTree.ClimbSawEverything | Core/application/hermes_processes.py:294-305 | a climb that ends without a find has seen every chain |

## Left out

- VersionSync.Repository.ApplyNativeBump: the date and the message are parameters; file encoding and the translation of line ends by the platform are not modelled.
- SemVer.ParsesExactly: which characters outside ASCII are decimal digits is a parameter; of them only a value below ten, and that they are neither blank nor a line end, is used.
- CoreVersion.ReplacedCoreParses: backslash escapes of a replacement template are not modelled; a version that `parse_semver` accepts has none.
- Builds.BuildOllamaOptions: infinite and undefined floats are not modelled; JSON lists and objects are only truthy or not, and print as something.
- CodexProfile.OtherSectionsSurvive: a header inside a value or behind indentation is outside the promise, as it is for the code, which finds headers as substrings.
- TraceStore.Store.UpdateLiveStreamProgress: trace ids arrive stripped, and the nested dicts of a trace are a record of the fields that the store touches.
- Scheduler.Worker.Run: polls and wait answers are a script; that futures finish is assumed of the script, not proved of the thread pool, and the cancelling of submitted futures is left out.
- Scheduler.Worker.SetProgress: is the one of the scheduler thread; the test threads of the first worker also publish, from counters read under no common lock, so for them only the bounds on the shared state hold.
- Sse.ReadStream: starts from decoded text; a split multi-byte character is not chunking-invariant. Decoding of a JSON payload is a parameter, and the rate estimates are left out.
- Clipping.ClipTextForEmbedding: `int(limit * 0.55)` is taken as `limit * 55 / 100`; rounding of the float is not modelled.
- Embedding.EmbeddingsArePointwise: the provider is a function of the batch whose overflow is monotone; the settings lookups and the text of errors are left out.
- Indexer.IndexRun.Run: the order of `skip_log` and `errors`, the collection of candidates and their priority sort, the hashes written back to the page index, point payloads, and failures of the collection's creation are left out; hybrid vectors are a flag.
- IdlePulse.EveryRunIsSafe: threads are interleaved at the lock sections, the return of the wait and the pulse; that a thread is eventually scheduled is not assumed and not proved. The request hooks are the calls of begin and end on a token.
- CollectionJob.Job.OnProgress: only the fields that the decision reads or shows are kept; copied statistics are left out.
- ProcessTree.TreeForPid: rows come from the platform; their collection is left out.
- URL-fetch patches, the annotated traces of the user interface, chunk splitting, Markdown preparation, metadata inference and hashing are not part of this model.
- Routes, settings storage, the vector store client, logging, the launcher's process control and the audit scripts are not part of this model.
