# A model of the taboot pipelines

A Dafny model of the parts of taboot that carry state, batching, retries or hand-written scanners, and
proofs about it. The source is modelled in its own form: its loops and classes are methods and classes
here, each proved equal to a specification function, and the promises are lemmas about these functions.
Whatever can fail (network, database, model) fails as an arbitrary oracle says.

| file | what it models |
|---|---|
| `Protocol.dfy`, `ProtocolHistory.dfy` | workers, consumer group, queue and document table as an interleaved step system; what its steps leave |
| `Extraction.dfy` | the batch use case, the document store, the single-document adapter and the worker's poll |
| `Orchestrator.dfy`, `TierC.dfy` | the retry loop around the three tiers; the model client and its cache |
| `WindowSelector.dfy` | sentence splitting and the greedy token-budget packer |
| `WindowPositions.dfy`, `Tilings.dfy` | when the spans of the windows are positions in the text |
| `Ingest.dfy`, `Batching.dfy` | the three nested batchings of web ingestion |
| `Swag.dfy`, `SwagPrinter.dfy`, `SwagRoundTrip.dfy` | the nginx scanner; a canonical printer; when it reads back |
| `Tables.dfy`, `Patterns.dfy` | the markdown table parser; the entity matcher |
| `Normalizer.dfy`, `NormalizedBlocks.dfy`, `Whitespace.dfy` | the HTML event converter; what a page becomes; the whitespace cleanup |
| `SwagWriter.dfy`, `Migrations.dfy` | batched graph writes; the migration runner |
| `Base64.dfy`, `Csrf.dfy` | base64url; signed tokens |
| `Metrics.dfy`, `Cleanup.dfy` | trimmed sorted sets and percentiles; the hard-delete service |
| `Text.dfy`, `Lines.dfy`, `Models.dfy` | strings as Python sees them, searches inside lines, shared types |

## Where the code differs from what it says

The model follows the code.

- `packages/extraction/types.py:14-15` calls `start` and `end` positions in the original text. They are
  positions in the single-space join of the windows (`TierB.WindowSpans`), and in the text exactly under
  the condition of `WindowPositions.SpansAreTextPositionsIff`; `WindowPositions.LeadingBlankIsSkipped`
  is a text without it.
- An oversized sentence overtakes the window left open before it; `TierB.Input.OrderIffNoLateOversized`
  gives the exact condition and `WindowPositions.OversizedOvertakes` a text.
- `MAX_RETRIES = 3` bounds attempts, not retries, and the announced intermediate states are not in the
  stored record (`Orchestrator.RecordShowsCompletionEarly`).
- A heading takes the text left open before it, such as preformatted text or text outside paragraphs, into
  its own line (`NormalizedBlocks.BlockTakesOpenText`).
- `_clean_whitespace` is not idempotent; `Whitespace.OnePassIsEnoughIff` says for which texts one pass is
  enough.
- `add_patterns` keeps all patterns but searches only for the latest batch (`Patterns.LatestBatchWins`);
  `Patterns.AlwaysCoveredIff` says which patterns are still found.
- The latency sets keep the largest entries, though a comment says latest: `Metrics.LargestNotLatest`, with
  the exact condition in `Metrics.CollectorKeepsTheLatestIff`.
- A run of the migration runner resumes after a break only when no two pending files share a version
  (`Migrations.ResumableIff`). The `schema_versions` table modelled is the one its own statements name
  (component, version and description, without a key). The only such table defined in the repository,
  specs/001-taboot-rag-platform/contracts/postgresql-schema.sql:24-25, has other columns and the version
  as its key.
- Any line with both `server` and `{` starts a server block; the field searches also run over location
  paths, so not every configuration is read as it is meant. `SwagRoundTrip.RoundTrip` gives the exact
  condition, and `SwagRoundTrip.ListenPathLooksLikeTls` a configuration without it.
- An attempt that raised is acknowledged like any other; `Protocol.PendingAtRestIsAccountedFor` lists
  the ways a document stays PENDING.

## Model

| member | source | states |
|---|---|---|
| TierB.SentencesKeepWords | packages/extraction/tier_b/window_selector.py:38-49 | Splitting a text into sentences keeps every word, in order |
| TierB.SentencesAreCutAtStops | packages/extraction/tier_b/window_selector.py:48-49 | Every sentence but the last ends in `.`, `?` or `!`, and no sentence has whitespace right after such a mark |
| TierB.WindowSelector.SelectWindows | packages/extraction/tier_b/window_selector.py:51-142 | The loop with its window buffer and running offset computes the windows the following rows speak about, for every token counter and budget |
| TierB.WindowSelector.PackSentences | packages/extraction/tier_b/window_selector.py:69-140 | The packing loop, oversized path included, lays out exactly the greedy plan of the sentences |
| TierB.WindowSelector.SplitByWords | packages/extraction/tier_b/window_selector.py:73-108 | The word loop cuts an oversized sentence into runs of at most the budget and moves the offset past each |
| TierB.WindowsAreFaithful | packages/extraction/tier_b/window_selector.py:60-142 | For a budget of at least 1: no window is empty, none is over budget, and the multiset of words over all windows is that of the text |
| TierB.WindowsKeepOrder | packages/extraction/tier_b/window_selector.py:69-109 | The order of the words is kept as well unless an oversized sentence follows a fitting one |
| TierB.Input.OrderIffNoLateOversized | packages/extraction/tier_b/window_selector.py:73-109 | Exact condition: the windows come in sentence order if and only if no oversized sentence follows a fitting one, because the oversized path does not flush the open window |
| TierB.Input.PackingIsOptimal | packages/extraction/tier_b/window_selector.py:111-140 | Without oversized sentences the windows are the sentences in order, each within the budget, and no other split into consecutive groups within the budget has fewer groups |
| TierB.Input.OversizedSentenceWindows | packages/extraction/tier_b/window_selector.py:73-108 | A sentence over budget with n words gives ceil(n/max) windows of its own, or n for a budget of zero or less, any other sentence none |
| TierB.Input.PlanIsGood | packages/extraction/tier_b/window_selector.py:69-140 | Every window of the greedy plan has at least one word and at most the budget in tokens |
| TierB.WindowTokens | packages/extraction/tier_b/window_selector.py:81-90 | Every window joins sentences that fit, and its token count is the sum of the counter over them, or consecutive words of one oversized sentence, and it is their number |
| TierB.WindowSpans | packages/extraction/tier_b/window_selector.py:81-90 | Each `[start, end)` is exactly the place of that window in the single-space join of all windows |
| WindowPositions.SpansAreTextPositionsIff | packages/extraction/tier_b/window_selector.py:66-142 | Exact condition, for every text, counter and budget: `text[start:end]` is the window for every window if and only if no whitespace precedes the first sentence, neighbouring sentences are one whitespace character apart (a plain space where they share a window), the words of an oversized sentence likewise, and no oversized sentence follows one that fits |
| WindowPositions.TidyTextIsKeptIff | packages/extraction/tier_b/window_selector.py:66-142 | The windows of a trimmed text with single plain spaces, joined by spaces, are the text if and only if no oversized sentence follows one that fits |
| WindowPositions.NoneOvertakes | packages/extraction/tier_b/window_selector.py:73-109 | Windows at their places in the text let no sentence overtake another, and then the sentences lie one whitespace character apart |
| WindowPositions.PlanTilesIff | packages/extraction/tier_b/window_selector.py:81-140 | When the sentences lie one character apart, the windows are in place exactly when the whitespace inside each of them is a plain space |
| WindowPositions.WindowsHoldTheInk | packages/extraction/tier_b/window_selector.py:60-142 | The windows of any text have as many printing characters as the text |
| Tilings.TiledBySentencesIff | packages/extraction/tier_b/window_selector.py:48-49 | The sentences lie one whitespace character apart in their text if and only if no whitespace comes before the first and every whitespace after a stop is followed by a printing character or the end of the text |
| WindowPositions.LeadingBlankIsSkipped | packages/extraction/tier_b/window_selector.py:66-90 | The text `" a"` has one window, the letter, with the span of the blank, whatever the counter and the budget |
| WindowPositions.OversizedOvertakes | packages/extraction/tier_b/window_selector.py:73-109 | At one token a word and a window, `"a. b c"` gives the words b, c, a. in this order |
| Protocol.StepKeeps | apps/worker/main.py:184-269 | Every step of every worker and of the environment (read, pop, look up, load, run, save, raise, ack, crash) keeps the protocol invariant and never moves a message or document backwards |
| Protocol.RunKeepsInv | apps/worker/main.py:184-269 | The invariant holds in every state of every interleaved run of any number of workers |
| Protocol.RunGoesForward | apps/worker/main.py:184-269 | Over any stretch of a run nothing recorded is taken back |
| Protocol.DeliveredOnceAckedAfterAttempt | apps/worker/main.py:194-202 | A message has at most one worker for good, is acknowledged only after its attempt ended, and how that attempt ended never changes |
| Protocol.DocumentsNeverReturnToPending | apps/worker/main.py:71-139 | Stored documents are only ever PENDING, COMPLETED or FAILED, and one that left PENDING never returns to it |
| Protocol.AckedMeansProcessed | apps/worker/main.py:262-269 | An acknowledged message whose attempt raised no exception names a document that is COMPLETED or FAILED from then on, if it is stored |
| Protocol.PendingAtRestIsAccountedFor | apps/worker/main.py:245-269 | When all workers are idle, every delivered message is either acknowledged or lost, and a document still PENDING is explained by a lost message or an attempt that raised |
| ProtocolHistory.SaveStoresResult | apps/worker/main.py:262-263 | A save, or one that raises after its update, stores for the document the pipeline ran on the result of that run, and changes no other row |
| ProtocolHistory.ChangesAreResults | apps/worker/main.py:71-139 | A stored state changes only when a row is inserted as PENDING, or at such a save of a worker that ran the pipeline for this document with this result, and has done nothing since |
| ProtocolHistory.RowsComeAndGo | apps/worker/main.py:71-139 | Rows come only by an insertion, as PENDING, and go only by a removal |
| ProtocolHistory.ProcessedWasPending | apps/worker/main.py:86-131 | The pipeline runs only on a document its worker found PENDING and then loaded |
| ProtocolHistory.LookDecides | apps/worker/main.py:86-100 | A PENDING document is loaded next; for any other the attempt ends without exception and nothing is stored |
| ProtocolHistory.TablesAreHistory | apps/worker/main.py:184-243 | At every point of a run the stream is what was published, the owners are the workers of all reads in order, and the queue is what was enqueued less what was popped |
| ProtocolHistory.PoppedInOrder | apps/worker/main.py:204-225 | The n-th pop, by whichever worker, takes the n-th job that was enqueued |
| ProtocolHistory.EndIsRecorded | apps/worker/main.py:261-266 | An attempt is recorded as raised exactly when an exception ended it |
| ProtocolHistory.AckedAndLostBy | apps/worker/main.py:268-269 | A message is acknowledged only by its worker's acknowledgement, and lost only by that worker's crash, a failed read or a failed acknowledgement |
| ProtocolHistory.DeadStaysDead | apps/worker/main.py:271-287 | A worker that crashed makes no further step |
| ProtocolHistory.CanFinish | apps/worker/main.py:184-269 | From any point of any run a worker that has not crashed can, by its own steps alone, come to rest with everything it holds acknowledged: no other worker and no document blocks it |
| ProtocolHistory.CanReadAll | apps/worker/main.py:190-198 | An idle worker can take and acknowledge every message not delivered yet |
| ProtocolHistory.CanPop | apps/worker/main.py:200-225 | An idle worker can take the oldest job and be idle again |
| ProtocolHistory.SomeDocumentIsProcessed | apps/worker/main.py:184-269 | There are runs in which a document is published, read, processed with either result, stored with it and acknowledged |
| Protocol.AttemptedOnce | apps/worker/main.py:252-266 | An attempt ends only by a step of the worker the message was delivered to |
| Extraction.SingleDocExtractorAdapter.Execute | apps/worker/main.py:71-139 | One call tries exactly the row of the id when it is pending, leaves it in the state its job came back with when that is saved, changes nothing otherwise, and puts the original store back on every exit, exceptions and cancellation included |
| Extraction.SingleIsOneTry | apps/worker/main.py:102-139 | With the swapped store the use case tries just the one row |
| Extraction.ExtractionWorker.ProcessStreamEvents | apps/worker/main.py:245-269 | All events of a batch are tried in order, or none when no use case is configured, exceptions do not stop it, and then exactly these messages are acknowledged; a cancellation, or an acknowledgement that raises, acknowledges nothing |
| Extraction.ExtractionWorker.PollOnce | apps/worker/main.py:184-243 | One poll takes one stream event if there is one, otherwise one queue job; malformed jobs are dropped; a read, pop or acknowledgement that raises, with or without taking effect, ends the poll and tries nothing |
| Extraction.ExtractPendingUseCase.Execute | packages/core/use_cases/extract_pending.py:98-212 | The batch loop with its counters equals trying the queried rows in order, and without a limit it queries every pending row |
| Extraction.ExtractPendingUseCase.ProcessOne | packages/core/use_cases/extract_pending.py:137-201 | One iteration: content, pipeline, update and the counting of its outcome, for every pattern of exceptions, an update that raises after taking effect included |
| Extraction.BatchEqualsSingles | packages/core/use_cases/extract_pending.py:136-201 | Running the batch over all pending documents leaves the same table as feeding the single-document adapter their ids in that order |
| Extraction.StatsMatchTable | packages/core/use_cases/extract_pending.py:164-212 | `processed = succeeded + failed`, all queried documents are counted, and `succeeded` is the number of them stored as COMPLETED less those whose update raised after taking effect |
| Extraction.SucceededIsCompletedIff | packages/core/use_cases/extract_pending.py:164-212 | Exact condition: `succeeded` is the number of documents stored as COMPLETED if and only if, up to a cancellation, no update to COMPLETED raised after taking effect |
| Extraction.RowDependsOnOwnAttempt | packages/core/use_cases/extract_pending.py:136-201 | After the batch each row is what its own attempt alone makes of it |
| Extraction.BatchLeavesStates | packages/core/use_cases/extract_pending.py:136-201 | Each document before the first cancelled one is left in the state its job came back with, when it has content and its save takes effect, and PENDING otherwise; it keeps version and metadata, and those behind are untouched |
| Extraction.BatchCounts | packages/core/use_cases/extract_pending.py:122-212 | The counts are those of the documents before the first cancelled one: succeeded are those that came back COMPLETED and were saved, failed the others; the batch is stopped exactly when there is a cancelled one |
| Extraction.BatchLeavesOtherRows | packages/core/use_cases/extract_pending.py:122-165 | Rows that were not queried are unchanged |
| Extraction.AttemptTouchesOwnRow | packages/core/use_cases/extract_pending.py:148-165 | An attempt adds and removes no row, changes no other row, and leaves hash and ingestion time of its own |
| Extraction.PostgresDocumentStore.Create | packages/clients/postgres_document_store.py:41-86 | A new hash and id add the row and its content; a known hash changes nothing; a known id with a new hash is refused |
| Extraction.PostgresDocumentStore.QueryPending | packages/clients/postgres_document_store.py:88-127 | All pending rows in ingestion order, or the earliest `limit` of them |
| Extraction.PostgresDocumentStore.UpdateDocument | packages/clients/postgres_document_store.py:192-223 | Exactly one existing row changes, or nothing and an error |
| Orchestrator.ExtractionOrchestrator.ProcessDocument | packages/extraction/orchestrator.py:108-188 | For every pattern of failing tiers and record writes the call writes exactly the described sequence of records, and a returned job is the stored record; a write that raises may be stored all the same, and no tier state ever is |
| Orchestrator.ExtractionOrchestrator.RetryLoop | packages/extraction/orchestrator.py:115-179 | The loop is the bounded retry described below; the fallback behind it is unreachable |
| Orchestrator.ExtractionOrchestrator.DoRound | packages/extraction/orchestrator.py:116-179 | One pass: an attempt, and on failure the retry count, or the FAILED record after the last |
| Orchestrator.ExtractionOrchestrator.RunAttempt | packages/extraction/orchestrator.py:116-149 | One attempt runs the tiers in order and writes a record after each |
| Orchestrator.AttemptSucceedsIff | packages/extraction/orchestrator.py:116-151 | An attempt succeeds exactly when none of its calls raises, and one that fails made the call that raised last |
| Orchestrator.AttemptStoresAnswers | packages/extraction/orchestrator.py:116-149 | Each write announces its tier and stores the counts its tiers answered, with no Tier C call when Tier B found no window |
| Orchestrator.RaisesDecide | packages/extraction/orchestrator.py:108-179 | The number of calls that raise decides the outcome: COMPLETED with it as retry count up to two, FAILED for three, an exception for four or for one at the PENDING write |
| Orchestrator.SmoothCall | packages/extraction/orchestrator.py:108-149 | A call in which nothing raises makes one attempt and returns COMPLETED with the counts of its tiers |
| Orchestrator.AttemptWrites | packages/extraction/orchestrator.py:116-149 | An attempt announces a prefix of A, B, C, COMPLETED, all four exactly when it succeeds |
| Orchestrator.RetryIsWellRun | packages/extraction/orchestrator.py:115-163 | At most three attempts; all but the last end early; each announces its prefix with the retry count of the failures before it |
| Orchestrator.RetryIsWellEnded | packages/extraction/orchestrator.py:149-179 | A call ends with COMPLETED, or with FAILED after three attempts, or by an exception of that last write |
| Orchestrator.ReturnedJob | packages/extraction/orchestrator.py:149-179 | A returned job is COMPLETED or FAILED, is the last record written, and its retry count is the number of failed attempts |
| Orchestrator.RecordShowsCompletionEarly | packages/extraction/orchestrator.py:278-293 | Of the record writes that return, each stores PENDING, except that it stores COMPLETED exactly on the COMPLETED write and, in later attempts, after one that raised |
| Orchestrator.RaisesOnlyAtTheEnds | packages/extraction/orchestrator.py:108-179 | An exception leaves the call only from the PENDING write or from the FAILED write of the third attempt, and the number of calls is bounded |
| TierC.TierCLLMClient.ExtractFromWindow | packages/extraction/tier_c/llm_client.py:150-171 | Cache lookup, model call with its three tries, and save, for every pattern of failures, a save that raises after taking effect included |
| TierC.TierCLLMClient.BatchExtract | packages/extraction/tier_c/llm_client.py:173-195 | The nested batch loops visit every window once in order whatever the batch size, and stop at the first failure |
| TierC.TierCLLMClient.CallOllama | packages/extraction/tier_c/llm_client.py:107-148 | At most three model calls, ended by the first that does not raise; without a client the empty result |
| TierC.Client.MissCalls | packages/extraction/tier_c/llm_client.py:107-171 | For a window that is not cached there is a result exactly when the lookup, one of three model calls, and the save behind it do not raise; the model is asked three times, or once more than its first calls raise, if that is less |
| TierC.Client.HitCalls | packages/extraction/tier_c/llm_client.py:159-162 | A cached window costs one lookup and gives what is cached |
| TierC.Client.UncachedCalls | packages/extraction/tier_c/llm_client.py:164-171 | Without a cache the three model calls decide alone |
| TierC.Client.ModellessCalls | packages/extraction/tier_c/llm_client.py:118-122 | Without a model the result is empty and nothing is asked |
| TierC.Client.SmoothBatchExtract | packages/extraction/tier_c/llm_client.py:173-195 | A batch in which no call raises fails only for a batch size of zero, and otherwise returns a result per window |
| TierC.Client.RunsKeepCacheTruthful | packages/extraction/tier_c/llm_client.py:75-105 | Over any sequence of batches, failed ones included, every cache entry equals the model's answer for its window |
| TierC.Client.BatchAnswersAreTheModels | packages/extraction/tier_c/llm_client.py:173-195 | A batch that succeeds after any such history returns exactly the model's answers in order |
| TierC.Client.AnsweredWindowIsFree | packages/extraction/tier_c/llm_client.py:159-169 | After a window was answered and saved, no later extraction of it calls the model |
| Ingest.IngestWebUseCase.Execute | packages/core/use_cases/ingest_web.py:128-196 | For every flush threshold and both batch sizes, the points written are a prefix of all chunks of all pages in order, each with the answer for its own text to a request of this run; all of them when the job is COMPLETED, and then the requests are the texts of all chunks once, in order; `chunks_created` is never more; when a page cannot be processed, all chunks of the pages before it are stored but those still waiting for the threshold |
| Ingest.Source.WaitingIsBelow | packages/core/use_cases/ingest_web.py:153-155 | Fewer chunks than the threshold ever wait for a flush |
| Ingest.IngestWebUseCase.FlushChunks | packages/core/use_cases/ingest_web.py:250-270 | A flush writes its chunks in order with the answers to its own requests, all of them or a prefix |
| Ingest.StoredPointsAreDetermined | packages/core/use_cases/ingest_web.py:128-196 | With an embedding that depends on the text alone the points a run writes, completed or failed, are determined by their number, whatever the three sizes |
| Ingest.Embedder.EmbedTexts | packages/ingest/embedder.py:166-195 | The requests of a call are the texts in order, cut to the batch size, up to one that is refused; without one there are ceil(n/batch) and each text has the vector its own request gave |
| Ingest.Embedder.EmbedBatch | packages/ingest/embedder.py:197-266 | An answer is accepted exactly when its length and all dimensions are right |
| Ingest.QdrantWriter.UpsertBatch | packages/vector/writer.py:268-313 | Lengths that differ or a wrong dimension raise before any request and with nothing written; otherwise a prefix, or everything, is written in order, a request that raises having taken effect or not |
| Ingest.QdrantWriter.UpsertBatches | packages/vector/writer.py:297-313 | The ceil-division loop writes consecutive batches without gap or overlap |
| Batching.BatchesIsCeiling | packages/vector/writer.py:298 | Counting batches one at a time gives (n + b - 1) / b |
| Batching.CutIsProduct | packages/vector/writer.py:300-302 | Batch k begins at k * b, inside the sequence |
| Batching.CutAtEnd | packages/vector/writer.py:302 | The last batch ends at the end |
| Swag.SwagReader.ExtractServerBlocks | packages/ingest/readers/swag.py:173-222 | The line loop computes the scan the following rows speak about, mismatched and unclosed blocks included |
| Swag.SwagReader.ExtractLocationBlocks | packages/ingest/readers/swag.py:312-352 | The location loop computes the location scan |
| Swag.SwagReader.ParseServerBlock | packages/ingest/readers/swag.py:224-268 | One block gives its routes in location order, or the error of a bad upstream |
| Swag.SwagReader.ParseConfig | packages/ingest/readers/swag.py:111-171 | A text gives the proxy and the routes of all its blocks in order, or the first error |
| Swag.ScanIsSound | packages/ingest/readers/swag.py:190-216 | On any text the returned blocks are disjoint, in-order line ranges whose depth goes from 1 to 0 first at their last line |
| Swag.ScanIsComplete | packages/ingest/readers/swag.py:190-216 | Every such line range is returned |
| Swag.ScanIsExact | packages/ingest/readers/swag.py:190-222 | The returned blocks are exactly those line ranges |
| Swag.ScanRaisesIff | packages/ingest/readers/swag.py:201-220 | The scan raises for mismatched braces if and only if some line of an open block closes more than is open, and for an unclosed block if and only if there is no such line and a block is open at the end |
| Swag.LocationScanIsExact | packages/ingest/readers/swag.py:325-350 | On any text the location blocks returned stand at disjoint line ranges in order, and these are exactly the ranges that begin at a line opening a location, hold no other such line, and whose depth becomes 0 first at their last line |
| Swag.OpensLocationIff | packages/ingest/readers/swag.py:331-337 | A line opens a location exactly when whitespace and at least one more character stand between the word and the first brace |
| Swag.PathOfLocation | packages/ingest/readers/swag.py:331-335 | The path is the trimmed text before the brace, without a regular-expression mark and the whitespace after it; a mark alone is the path itself, or nothing when more whitespace follows |
| Swag.BlankLocation | packages/ingest/readers/swag.py:331-335 | With only whitespace before the brace the path is empty, or there is no location when that is one character |
| Swag.UpstreamIsTrimmed | packages/ingest/readers/swag.py:354-366 | The upstream found in a location is trimmed |
| Lines.DirectiveOf | packages/ingest/readers/swag.py:283 | A directive is the name, whitespace and a value up to the first semicolon |
| Lines.BlankDirective | packages/ingest/readers/swag.py:283 | With nothing but whitespace before the semicolon the last of it is the value, and one character is too few |
| Lines.DirectiveIff | packages/ingest/readers/swag.py:354-366 | Exact condition: there is a directive at a place if and only if whitespace follows the name and at least one more character stands before the first semicolon |
| Swag.WordCharacters | packages/ingest/readers/swag.py:309-310 | The characters of a word are the ASCII letters, digits and the underscore |
| Swag.ClosesOnce | packages/ingest/readers/swag.py:207-216 | A block ends where its depth first reaches 0 |
| SwagPrinter.ScanFile | packages/ingest/readers/swag.py:190-222 | The server scan cuts a printed file at exactly its servers |
| SwagPrinter.FindInServer | packages/ingest/readers/swag.py:325-352 | The location scan finds exactly the printed locations with their paths |
| SwagRoundTrip.RoundTrip | packages/ingest/readers/swag.py:111-171 | Exact condition: printing a list of well-formed servers and parsing gives back exactly their routes in order if and only if every server with a name keeps its services and, when it has a route and no TLS, has no path that looks like an ssl listener |
| SwagRoundTrip.ServerRoundTrip | packages/ingest/readers/swag.py:224-268 | The same for one server, which otherwise gives as many routes or an error |
| SwagRoundTrip.TlsReadBack | packages/ingest/readers/swag.py:300-310 | Exact condition on the locations: TLS is reported if and only if the server has TLS, or `listen` ends a word of some path and `ssl` stands as a word behind it in that path, in the paths that follow without an upstream, or in the next upstream |
| SwagRoundTrip.UpstreamReadBack | packages/ingest/readers/swag.py:354-366 | Exact condition: the upstream is read back if and only if the path does not end a word with `proxy_pass` |
| SwagRoundTrip.RoutesReadBack | packages/ingest/readers/swag.py:231-268 | The routes of printed locations are the right ones exactly when every service is kept and the TLS flag is right |
| SwagRoundTrip.ServiceReadBack | packages/ingest/readers/swag.py:368-405 | The service of a bare, http or https upstream is found whatever port or path follows |
| SwagRoundTrip.NameReadBack | packages/ingest/readers/swag.py:283-298 | The server name is read back; the catch-all `_` gives none |
| SwagRoundTrip.ListenPathLooksLikeTls | packages/ingest/readers/swag.py:309-310 | A plain-text server with the path `/listen` is read back with the service `app` and not with the service `ssl` |
| Tables.ParseTables | packages/extraction/tier_a/parsers.py:41-78 | The outer loop terminates on every input and computes the tables the following rows speak about |
| Tables.ParseRows | packages/extraction/tier_a/parsers.py:61-70 | The inner loop takes the rows up to the first line that is none |
| Tables.ParsePiecewise | packages/extraction/tier_a/parsers.py:48-76 | No table reaches across a line that is not a row: a text parses piece by piece |
| Tables.RowsAndSeparators | packages/extraction/tier_a/parsers.py:48-59 | A trimmed line is a row exactly when it begins and ends with a pipe, and a separator exactly when there is text between these and it has only dashes, pipes and whitespace |
| Tables.CellsAreTrimmed | packages/extraction/tier_a/parsers.py:48-66 | Whitespace around a row changes none of its cells, and every cell is trimmed |
| Tables.RowReadBack | packages/extraction/tier_a/parsers.py:54-66 | A printed row gives back its cells |
| Tables.RoundTrip | packages/extraction/tier_a/parsers.py:45-78 | Printing any document of prose lines and tables and parsing gives back the tables in order |
| Tables.OuterPipesAreIgnored | packages/extraction/tier_a/parsers.py:54 | Extra pipes at the ends of a row change nothing, so empty outer cells are lost |
| Patterns.EntityPatternMatcher.AddPatterns | packages/extraction/tier_a/patterns.py:28-39 | All patterns of a type are kept, but only the latest batch is compiled |
| Patterns.EntityPatternMatcher.FindMatches | packages/extraction/tier_a/patterns.py:54-80 | The two loops with their set of seen spans, and the sort, compute the report the following rows speak about |
| Patterns.EveryOccurrenceIsReported | packages/extraction/tier_a/patterns.py:60-76 | Every position where some compiled non-empty pattern matches lies inside a reported match |
| Patterns.ReportedAreLongest | packages/extraction/tier_a/patterns.py:33-39 | Each reported match is genuine and the longest pattern of its type at its start |
| Patterns.ReportIsOrderly | packages/extraction/tier_a/patterns.py:64-80 | The report is sorted by start, repeats no span, and matches of one type do not overlap |
| Patterns.SortIsStable | packages/extraction/tier_a/patterns.py:79 | Matches of equal start keep the order of their types |
| Patterns.LongestFirstSorts | packages/extraction/tier_a/patterns.py:35 | Sorting a batch by length keeps its patterns and puts the longest first |
| Patterns.LatestBatchWins | packages/extraction/tier_a/patterns.py:31-39 | After a batch its type is searched for exactly that batch, other types as before, and types stay distinct |
| Patterns.EarlierBatchesAreForgotten | packages/extraction/tier_a/patterns.py:31-39 | Whatever was added before, for this or other types, every match reported for the type of a batch is a match of a pattern of that batch |
| Patterns.AlwaysCoveredIff | packages/extraction/tier_a/patterns.py:31-39 | Exact condition: every occurrence of a pattern, in every text, starts inside a reported match if and only if a pattern still compiled begins it |
| Patterns.EarlierPatternIsMissed | packages/extraction/tier_a/patterns.py:31-39 | After the batches `a` and `b` for one type nothing is reported in the text `a` |
| Normalizer.MarkdownConverter.HandleStartTag | packages/ingest/normalizer.py:27-45 | Each start tag's effect on all six fields |
| Normalizer.MarkdownConverter.HandleEndTag | packages/ingest/normalizer.py:47-71 | Each end tag's effect on all six fields |
| Normalizer.MarkdownConverter.HandleData | packages/ingest/normalizer.py:73-84 | Skipped, verbatim or collapsed data |
| Normalizer.MarkdownConverter.GetMarkdown | packages/ingest/normalizer.py:86-98 | The text of the parts and the remaining text after the two cleanups; the remaining text is then among the parts and stays open |
| Normalizer.KeptIsVisible | packages/ingest/normalizer.py:27-84 | What is kept is exactly the characters read while not skipping, in order, plus one mark per level of each heading that ended |
| Normalizer.AgreesSteps | packages/ingest/normalizer.py:27-98 | The converter's texts hold exactly what is kept, for every sequence of events |
| Normalizer.NormalisedDocument | packages/ingest/normalizer.py:111-139 | The normalised document holds, in order, exactly the visible non-whitespace characters and the heading marks |
| NormalizedBlocks.PageIsNormalised | packages/ingest/normalizer.py:111-160 | A page of headings and paragraphs, with text, code and breaks inside, becomes one line a block in order with a blank line between neighbours, headings with their marks |
| NormalizedBlocks.PageIsParts | packages/ingest/normalizer.py:27-71 | The converter writes one part a block, in order, merges none and leaves nothing open |
| NormalizedBlocks.BlockTakesOpenText | packages/ingest/normalizer.py:27-71 | Text left open before a paragraph is joined to it with a blank line between; before a heading it becomes part of the heading's line |
| NormalizedBlocks.PreIsLeftOpen | packages/ingest/normalizer.py:34-60 | Preformatted text is kept as it stands and left open |
| NormalizedBlocks.SkippedData | packages/ingest/normalizer.py:32-56 | Nothing in a skipped element is read |
| NormalizedBlocks.FlushedHoldsDocument | packages/ingest/normalizer.py:86-98 | Asking for the document puts the open text among the parts and leaves it open as well, so that asking again repeats it |
| NormalizedBlocks.CollapseIs | packages/ingest/normalizer.py:73-84 | Collapsed text is its words with single spaces, and one at an end where there was whitespace |
| Whitespace.CleaningKeepsInk | packages/ingest/normalizer.py:141-160 | The cleanup keeps every non-whitespace character, in order |
| Whitespace.CleanedText | packages/ingest/normalizer.py:141-160 | Its result has no double space, and it and all its lines are trimmed |
| Whitespace.SecondPass | packages/ingest/normalizer.py:150-160 | A pass over a cleaned text only drops repeated blank lines |
| Whitespace.StableFromSecondPass | packages/ingest/normalizer.py:150-160 | From the second pass on nothing changes |
| Whitespace.IdempotentIff | packages/ingest/normalizer.py:150-160 | Exact condition: one pass is enough if and only if the trimmed lines have no two blank lines in a row between printing ones |
| Whitespace.OnePassIsEnoughIff | packages/ingest/normalizer.py:150-160 | The same on the text as given: one pass is enough if and only if no two printing characters have three line ends in the whitespace between them, counting at most two of each run |
| Whitespace.NotIdempotent | packages/ingest/normalizer.py:153-158 | A text on which a second pass changes the result |
| SwagWriter.SwagGraphWriter.WriteRoutes | packages/graph/writers/swag_writer.py:135-212 | The same graph for every positive batch size, with `total_written` the route count and ceil(services/b) + ceil(routes/b) batches; on a failed query a part of that write; sizes of zero or less as Python's `range` treats them |
| SwagWriter.SwagGraphWriter.WriteServiceBatches | packages/graph/writers/swag_writer.py:152-168 | The service batches merge the unique names without gap or overlap |
| SwagWriter.SwagGraphWriter.WriteRouteBatches | packages/graph/writers/swag_writer.py:182-206 | The edge batches merge the routes in order |
| SwagWriter.UniqueNames | packages/graph/writers/swag_writer.py:150 | Deduplication names every target once |
| SwagWriter.UniqueGrows | packages/graph/writers/swag_writer.py:150 | Names stay in the order of their first routes |
| SwagWriter.WriteEffect | packages/graph/writers/swag_writer.py:155-194 | Afterwards exactly the targets were added as services, and an existing proxy has one edge per target with what the last route to it says; all else is unchanged |
| SwagWriter.WriteTwice | packages/graph/writers/swag_writer.py:142-212 | A second identical write changes nothing |
| SwagWriter.RetryCompletes | packages/graph/writers/swag_writer.py:145-206 | Writing again after a write broken off anywhere gives the graph of one clean write |
| Migrations.Neo4jMigrationRunner.ApplyMigrations | packages/graph/migrations/runner.py:49-118 | A run performs the described operations, all of them or those before the one that raised; a bad file name ends it |
| Migrations.Neo4jMigrationRunner.RunFile | packages/graph/migrations/runner.py:106-111 | The statements of a file in order, then its version row |
| Migrations.StatementsReadBack | packages/graph/migrations/runner.py:165-180 | A file of trimmed statements with a semicolon between them gives these statements in order |
| Migrations.PieceByPiece | packages/graph/migrations/runner.py:165-180 | A file split at its semicolons gives its trimmed non-empty pieces in order |
| Migrations.NameIsRead | packages/graph/migrations/runner.py:153-163 | Version and description are what precedes and follows the first underscore, and a name without one is refused |
| Migrations.BrokenThenFull | packages/graph/migrations/runner.py:82-118 | A run broken off anywhere followed by a full run gives the schema and rows of one clean run |
| Migrations.AnyBreaksThenFull | packages/graph/migrations/runner.py:82-118 | The same after any number of broken runs |
| Migrations.FullTwice | packages/graph/migrations/runner.py:86-95 | A further full run changes nothing |
| Migrations.RowsStayEarned | packages/graph/migrations/runner.py:106-111 | However runs break off, a recorded version's statements have all run |
| Migrations.RowsInOrder | packages/graph/migrations/runner.py:76-111 | A run records a prefix of the pending versions in file order |
| Migrations.RecordedOnce | packages/graph/migrations/runner.py:188-204 | No version is recorded twice |
| Migrations.ResumableIff | packages/graph/migrations/runner.py:82-118 | Exact condition: a full run after a run broken off anywhere gives the state of one clean run if and only if no two files still pending share a version |
| Migrations.SharedVersionLosesStatements | packages/graph/migrations/runner.py:86-95 | With two files of one version, which a clean run applies both, a broken run loses the second file's statements for good |
| Base64.ToBase64Url | apps/web/lib/crypto-utils.ts:22-50 | Both runtimes, the chunk loop included, give the same encoding |
| Base64.EncodeDecode | apps/web/lib/crypto-utils.ts:49 | Every byte sequence is read back; the text has length ceil(4n/3) and only letters of the URL alphabet of section 5 of RFC 4648 |
| Base64.DecodeEncode | apps/web/lib/crypto-utils.ts:49 | The inverse accepts nothing but encodings |
| Csrf.VerifyToken | apps/web/lib/csrf.ts:73-97 | Accepts exactly when the first two dot-separated parts are a token and its signature |
| Csrf.SameText | apps/web/lib/csrf.ts:86-96 | The OR of XORs accepts exactly equal texts |
| Csrf.XorIsZero | apps/web/lib/csrf.ts:93 | The XOR of two codes is zero exactly when they are equal |
| Csrf.Bitwise | apps/web/lib/csrf.ts:93 | XOR and OR are bitwise: each bit of the result is that of the operands' bits |
| Csrf.OrIsZero | apps/web/lib/csrf.ts:93 | The OR of two numbers is zero exactly when both are |
| Csrf.AcceptedIff | apps/web/lib/csrf.ts:73-97 | Accepted texts are exactly the signed tokens and those followed by a dot and anything else |
| Csrf.SignedIsAccepted | apps/web/lib/csrf.ts:49-97 | A signed token without a dot verifies |
| Csrf.GeneratedTokenIsAccepted | apps/web/lib/csrf.ts:34-44 | A generated token has 43 characters and verifies once signed |
| Metrics.MetricsCollector.RecordWindowProcessed | packages/common/metrics.py:99-126 | Counter, sorted set with trim, and first time, each as stated; nothing else changes |
| Metrics.MetricsCollector.RecordDbWrite | packages/common/metrics.py:143-170 | Totals and sorted set with trim, the count in the member, or nothing for a negative count or duration |
| Metrics.TrimAsOneGoes | packages/common/metrics.py:120-123 | Trimming after every insertion gives what one trim at the end would |
| Metrics.LargestAreKept | packages/common/metrics.py:120-123 | After any recordings the set holds the largest entries of everything recorded, up to its size |
| Metrics.CollectorKeepsTheLargest | packages/common/metrics.py:99-170 | After any list of window and write records each of the collector's sets is the top 10000 of everything recorded in it, and its counters count that |
| Metrics.TotalsAndFirstTime | packages/common/metrics.py:108-161 | After any list of records the total is the sum of the counts of the accepted writes, and the first time that of the first window of a known tier |
| Metrics.LatestAreKeptIff | packages/common/metrics.py:120-123 | Exact condition, for every size: of distinct entries the set holds the latest if and only if every earlier one is below every one of them |
| Metrics.CollectorKeepsTheLatestIff | packages/common/metrics.py:120-123 | The same for the collector's latencies at its size of 10000 |
| Metrics.LatestWritesAreKept | packages/common/metrics.py:162-167 | Writes are scored by time, so with a clock that moves forward the latest 10000 are kept |
| Metrics.LargestNotLatest | packages/common/metrics.py:122 | For every number of windows over 10000 there are records of which, written so that they can be told apart, the oldest is kept and the latest is not |
| Metrics.SomeFormatTells | packages/common/metrics.py:120-121 | The numbers of every list of calls can be written so that they are told apart, as the rows above on the collector ask |
| Metrics.SomeCollectorLosesTheLatest | packages/common/metrics.py:122 | So there is a collector that keeps the oldest latency and loses the latest |
| Metrics.PercentileRank | packages/common/metrics.py:264-281 | A percentile is a sample of the stated rank |
| Metrics.PercentileShare | packages/common/metrics.py:270-281 | A percentile is a sample below which at most that share of the samples lie, and up to which more than it do, unless it is the largest |
| Metrics.PercentilesGrow | packages/common/metrics.py:204-208 | p50 <= p95 <= p99 |
| Cleanup.CleanupService.FetchUsersToDelete | packages-ts/user-lifecycle/src/cleanup-service.ts:67-127 | Paging collects each eligible user once, in order |
| Cleanup.CleanupService.ExecuteUserDeletions | packages-ts/user-lifecycle/src/cleanup-service.ts:138-190 | The nested loops delete and audit the users one by one, for every pattern of failures |
| Cleanup.CleanupService.CleanupDeletedUsers | packages-ts/user-lifecycle/src/cleanup-service.ts:215-337 | The result and the database after a whole call; a dry run changes nothing |
| Cleanup.ReportIs | packages-ts/user-lifecycle/src/cleanup-service.ts:144-189 | The failures reported are exactly the users with a statement that raises, in the order of the list; the audit rows added and the successes counted are exactly the others |
| Cleanup.TroubledAre | packages-ts/user-lifecycle/src/cleanup-service.ts:157-177 | An id is among the failures exactly when it is listed and its DELETE or its audit INSERT raises, and among the audit rows when neither does |
| Cleanup.StaysIff | packages-ts/user-lifecycle/src/cleanup-service.ts:75-166 | A user stays exactly when it was not deleted softly, or only after the cutoff, or its DELETE raises |
| Cleanup.EligibleInOrder | packages-ts/user-lifecycle/src/cleanup-service.ts:75-97 | The eligible users come in the order of the table |
| Cleanup.EveryoneIsCounted | packages-ts/user-lifecycle/src/cleanup-service.ts:144-189 | `successCount + failedCount` is the users fetched and `successCount` the audit rows added |
| Cleanup.AuditedAreGone | packages-ts/user-lifecycle/src/cleanup-service.ts:158-166 | Every audit row added names a user now gone |
| Cleanup.RemovedIsAuditedOrFailed | packages-ts/user-lifecycle/src/cleanup-service.ts:158-177 | Every user removed without an audit row is in `failedUserIds` |
| Cleanup.UsersOnlyLeave | packages-ts/user-lifecycle/src/cleanup-service.ts:157-186 | Nobody comes back, and only users of the list leave |
| Cleanup.IneligibleStay | packages-ts/user-lifecycle/src/cleanup-service.ts:75-97 | Ineligible users are untouched |

## Left out

- Protocol: the reprocess step, the worker's stop flag and its run loop; stream trimming; payload decoding errors other than as a failed read; every worker there has a use case, and an acknowledgement that raises is one that does not happen (`Extraction.ExtractionWorker.PollOnce` has both).
- Extraction: connection handling, `query_by_date`, `query_documents` and counts; Cypher for the triples is written elsewhere. `Extraction.ExtractPendingUseCase` uses an arbitrary outcome per document in place of the orchestrator.
- TierB: token counts are an uninterpreted function of the text; each word counts one token, as the code's integer 1.3 does.
- TierC: SHA-256 is an arbitrary function, injective where a theorem says so; back-off waits are not modelled; what the model's text parses to, the empty result for invalid JSON included, is one function of the window; the windows of a batch are visited one after the other, as the code does.
- Ingest: crawling, normalising and chunking are one oracle per page; the embedding and upsert clients are oracles per call; storing the document and the callback are part of processing a page.
- Swag: file reading and the proxy node's timestamps; `\b` uses ASCII word characters; a printed location of a regular expression loses its `~`, so such paths are not printed with it.
- Tables: `parse_code_blocks`, `parse_yaml_json`; prose lines of a printed document are lines that are not rows.
- Patterns: case folding is an arbitrary character-to-character function.
- Normalizer: `HTMLParser` is the event source, so character references, tag case and the fallback for its exceptions are not modelled.
- SwagWriter: `write_proxies` batches in the same way with one node per row; edges of one pair are a single edge, as MERGE keeps them.
- Migrations: the key and the columns of the table in postgresql-schema.sql; statements are taken to add one thing each unless it exists; the file list is given in name order; the statement texts are split at every semicolon, as the code does, with no view of Cypher syntax.
- Base64: the check for a `Uint8Array` and the error of a runtime with neither function.
- Csrf: origin checks, cookies and the middleware; the keyed hash is an arbitrary function; characters stand for UTF-16 code units.
- Metrics: figures per second and minute, ratios and cache counters; times and latencies are reals and the percentile's product is exact, where the code rounds floats.
- Cleanup: e-mail masking, logging and dates; the table does not change between pages, and the order of `findMany` is the table's.
- The graph schema's own version tracking, dead letters, tracing, other readers, the web interface and the command line are not modelled.
