# TutorTwin, modelled and proved in Dafny

TutorTwin is a tutoring backend behind a messaging channel. Around its I/O sit several small
cores that decide what is executed, what is paid for and what a student sees. This project
models those cores in Dafny and proves what they promise, over every input, every run or every
interleaving.

| module files | component |
|---|---|
| `Idempotency`, `RequestProtocol` | the claim / execute / settle protocol over one idempotency table, with interleaved workers, crashes and stale takeover |
| `BudgetPolicy`, `Gateway`, `Executor`, `Quota`, `QuotaTightness` | the spending decision, the retry and fallback loop, the verifier call, the ledger and the limits read from it, and how far they can be overshot |
| `MediaStates`, `MediaPipeline` | the media state machine and its zero-cost hold, under redelivery and crashes |
| `PagePlanning`, `Extraction`, `ExtractionCache`, `Audio` | which pages are read and how, the content-addressed cache over many runs, the RIFF walker |
| `Text`, `Splitting`, `Chunking`, `Normalization` | the structural chunker and the canonical form of a text |
| `Embeddings`, `RankFusion`, `Knowledge`, `Retrieval`, `RowOrder`, `Ingestion` | the embedding cache, rank fusion, scope-filtered retrieval and when it depends on the order of rows, idempotent ingestion |
| `Decimal`, `TwinTemplates`, `TwinRoundTrip`, `TwinMisread`, `TwinGeneration` | the problem parser and printer, what the parser leaves unread, and the bounded twin generator |
| `Verification`, `Exponents`, `LetThrough` | the filter on expressions with its saturating folder, how much of an exponent it sees, and what its bounds let through |
| `Practice`, `Assessment`, `Conversations` | SM-2 scheduling, grading and paper shapes, message listing |
| `Common`, `Sorting` | Option and Result; stable sorting and its uniqueness |

`dafny verify dfyconfig.toml` checks everything.

## How the code is modelled

- A database table is a `map` or a `seq`; a transaction is one atomic step. Where the source
  updates rows or objects in place the model has a class whose methods do the same updates and
  are proved equal to a function of the old state; the theorems are about that function.
- Model vendors, OCR, fetches, full-text rank and vector distance are arbitrary functions given
  from outside, so every theorem holds for whatever they return.
- What such a function means is stated a second time without it, with the numbers of the source
  written out: which rows a counter sums and how old they may be, which alias is called next, where
  processing ends, which rows are nearest, what an answer earns, what a chunk cites.
- Regular expressions of the chunker are arbitrary: page markers only have to be ordered,
  separators only have to be whitespace. Those of the twin parser are written out as leftmost
  scanners over ASCII letters and digits. Whitespace is Unicode whitespace everywhere, and
  lower-casing is any function that works word by word and has nothing to do twice.
- A content hash is injective, so it is represented by what is hashed. Scores, durations and
  marks are reals; the SM-2 ease is an integer number of hundredths.

## Where the code and its own documentation part

The model follows the code. Each of these is a lemma, with the exact condition where there is one.

- `catalog.py` says a limit is soft by at most the number of requests in flight. A request is
  billed for up to two attempts, and for a verifier where the plan lets one run. For every
  configuration, limit and number k of requests in flight the highest reading is exactly
  limit - 1 plus k times these rows, or 0 where nothing is let through
  (`QuotaTightness.CallLimitIsExact`), so the documented rule
  holds only as far as `QuotaTightness.DocumentedBoundHoldsIff` says.
- Storing a response does not test whether the claim was taken over. Replays are stable in every
  run in which no first transaction finds a live claimant of its own key older than the takeover
  age (`RequestProtocol.UndisturbedRunIsSafe`, `RequestProtocol.CompletedIsForever`); a
  deployment where live claimants settle in time has only such runs
  (`RequestProtocol.TimelyRunsAreUndisturbed`). Starting on a key makes it possible for a stored
  response to change if and only if such a claimant exists
  (`RequestProtocol.ReplayCanChangeIffOverdue`, `RequestProtocol.OverdueWorkerBreaksReplay`).
- A fractional answer does not always stay fractional in a twin
  (`TwinGeneration.FractionStaysFractionIff`, `TwinGeneration.FractionMayBecomeInteger`).
- `COMPLETED` is listed as terminal and may still expire
  (`MediaStates.SinksAreTerminalButCompleted`).
- The duplicate lookup of ingestion ignores course and conversation, so such content may not be
  found afterwards (`Ingestion.ReachableAfterwardsIffSameAudience`,
  `Ingestion.OtherCourseSeesNothing`), and uploading again what was soft-deleted can violate the
  unique constraint (`Ingestion.IngestCollidesIff`, `Ingestion.ReuploadAfterDeleteCollidesIff`).
- Both templates are searched for anywhere in a text, and what stands before and after the match
  is not read. `2x^2 - 5x + 6 = 0` is taken for `x^2 - 5x + 6 = 0`: the roots found solve the equation
  as printed exactly when its leading coefficient is one or its other two are zero
  (`TwinMisread.RootsSolveThePrintedIff`, `TwinMisread.DoubledQuadraticIsMisread`). Likewise
  `5 - 3x + 4 = 10` and `2x^2 + 3x + 4 = 7` are taken for `3x + 4 = 10` and `3x + 4 = 7`; the
  exact conditions are `TwinMisread.ShiftIsHarmlessIff` and `TwinMisread.SquareIsHarmlessIff`. And
  `3x + 4 = 2x + 10` and `3x + 4 = 10.5` are taken for `3x + 4 = 2` and `3x + 4 = 10`
  (`TwinMisread.RestIsNotRead`); harmless exactly as `TwinMisread.SwappedRestIsHarmlessIff`,
  `TwinMisread.TermRestIsHarmlessIff` and `TwinMisread.DecimalRestIsHarmlessIff` say.
- The bound on exponents is meant for every number however it is spelled. It is kept where two
  conditions hold. First, what is checked has to be the exponent by the grammar: it is exactly
  when that is a group, or a word that is a single number or name, and no call, factorial sign or
  further power follows (`Exponents.OperandIsWholeIff`). Others are mostly cut short: `9**+9**9`
  passes because a further power is only looked for behind operands without a sign and without
  any other character than word characters and parentheses
  (`Exponents.ChainsLetThroughAreNotSimple`), `2**9e+3` because the scan stops at the sign that
  belongs to the number, `2**factorial(9)` because it takes the name alone. Second, of the
  exponents above 1000 that are checked whole, exactly those are let through that are not plain
  arithmetic, that is numbers, signs, `+`, `-`, `*` and `/` (`Exponents.WholeExponentPassesIff`):
  a power, a floor division or a call inside keeps any expression from being folded, so
  `2**(1*9**9)` and `2**(9999//1)` pass (`LetThrough.InnerPowerSlips`,
  `LetThrough.InnerFloorSlips`), and no bound is large enough (`LetThrough.EveryShapeSlips`).
- The same bound is meant for every factorial. Checked are exactly those spelled as the name
  directly followed by a balanced group (`LetThrough.CheckedFactorialsAre`); a postfix sign, as in
  `9999!`, and a name in parentheses, as in `(factorial)(9999)`, are let through with any number
  (`LetThrough.PostfixFactorialSlips`, `LetThrough.ParenthesisedFactorialSlips`).
- A search depends on the order of the rows exactly when two different hits are tied with fewer
  than top-k hits strictly better, since the queries break no ties
  (`RowOrder.SearchIgnoresOrderIff`); so does the evidence where keywords suffice
  (`RowOrder.KeywordEvidenceIgnoresOrderIff`), and in general it does not where no search that is
  run has such a tie (`RowOrder.RowOrderDoesNotMatter`).
- "Either vector is correct" in the embedding cache holds exactly for providers that ignore what
  the normalized key ignores (`Embeddings.CacheAgreesIffInsensitive`).
- A negative number of questions yields a blueprint whose parts do not add up
  (`Assessment.BlueprintIsConsistent`).

## Model

| member | source | states |
|---|---|---|
| Idempotency.IdempotencyTable.ClaimKey | src/tutortwin/repositories/conversations.py:95-119 | the conditional upsert: wins on a free key or on an unfinished claim older than five minutes, and changes only that row's claim time |
| Idempotency.IdempotencyTable.LoadResponse | src/tutortwin/repositories/conversations.py:122-132 | returns a stored response only when the row is completed |
| Idempotency.IdempotencyTable.StoreResponse | src/tutortwin/repositories/conversations.py:135-162 | settles the row whoever claimed it, keeping its claim time |
| Idempotency.IdempotencyTable.Prepare | src/tutortwin/orchestration/entry_service.py:249-312 | the first transaction as one step: replay, still in flight, answered at once, or started; what it answers is what it stores, and nothing changes where it replays or waits |
| Idempotency.OutcomeByRow | src/tutortwin/repositories/conversations.py:98-119 | the outcome by the row found: a key nobody has, or one claimed more than five minutes ago and unfinished, is taken and answered as told; a completed one is replayed |
| Idempotency.AnswerIsReplayed | src/tutortwin/orchestration/entry_service.py:904-914 | every later delivery of a key that was answered at once is answered with the same response, and its row holds it with its conversation |
| Idempotency.SettledRow | src/tutortwin/repositories/conversations.py:145-162 | settling completes one row with the response and conversation given, keeps when it was claimed, and touches no other row |
| Idempotency.CompletedRowIsReplayed | src/tutortwin/orchestration/entry_service.py:253-260 | no first transaction changes a completed row, and one for its key is answered with its response |
| RequestProtocol.StepKeepsInv | src/tutortwin/orchestration/entry_service.py:197-229 | every step of claim, pay, settle, crash, redeliver and clock that takes over no live claimant keeps the protocol invariant and every completed row |
| RequestProtocol.RunKeepsInv | src/tutortwin/orchestration/entry_service.py:197-229 | the invariant holds in every state of every interleaving in which no first transaction finds an overdue live claimant of its key |
| RequestProtocol.WinnerIsAlone | src/tutortwin/repositories/conversations.py:98-103 | a claim that wins on a key without an overdue claimant finds no live claimant and no completed row of it |
| RequestProtocol.TimelyRunsAreUndisturbed | src/tutortwin/repositories/conversations.py:86-92 | where live claimants settle within the takeover age, no first transaction ever finds an overdue one |
| RequestProtocol.UndisturbedRunIsSafe | src/tutortwin/repositories/conversations.py:86-119 | at most one live claimant per key, paid executions at most one plus the claimants that died, and every replay ever sent equals the stored response |
| RequestProtocol.CompletedIsForever | src/tutortwin/repositories/conversations.py:101-103 | once completed, a key's row never changes again |
| RequestProtocol.RedeliveryReplays | src/tutortwin/orchestration/entry_service.py:253-260 | any later redelivery of a completed key returns that response and executes nothing |
| RequestProtocol.SentIsReplayed | src/tutortwin/orchestration/entry_service.py:207-229 | in every undisturbed run, whatever a step sent for a key, at once or after a paid call, every redelivery from then on replays, and executes nothing |
| RequestProtocol.CompletedWasSent | src/tutortwin/repositories/conversations.py:135-162 | in every run, disturbed or not, a completed row holds a response that some step sent for its key |
| RequestProtocol.OnlyWhatWasSentIsReplayed | src/tutortwin/repositories/conversations.py:122-132 | in every run nothing is ever replayed that was not sent for its key |
| RequestProtocol.TakeoverCollidesIffOverdue | src/tutortwin/repositories/conversations.py:86-114 | starting work puts two live claimants on a key if and only if a live claimant of it is overdue |
| RequestProtocol.ReplayCanChangeIffOverdue | src/tutortwin/repositories/conversations.py:135-162 | after work starts on a key, another live worker can settle it and then this one change the replayable response, if and only if a live claimant of the key was overdue |
| RequestProtocol.OverdueWorkerBreaksReplay | src/tutortwin/repositories/conversations.py:145-162 | without the hypothesis one interleaving pays twice with nobody dead and changes an already replayable response |
| BudgetPolicy.Snapshot.BlockedProviders | src/tutortwin/domain/budget.py:182-206 | a vendor is blocked exactly when it failed past the circuit or reached its daily budget |
| BudgetPolicy.PaidIffEveryGatePasses | src/tutortwin/policies/budget_policy.py:149-200 | a request may spend if and only if every gate passes; a rejection carries no alias and no verifier |
| BudgetPolicy.RefusedForTheFirstReason | src/tutortwin/policies/budget_policy.py:149-200 | a request is refused for the first of twelve reasons, in the order of the source and with its outcome, that stands against it, and is paid for if and only if none does |
| BudgetPolicy.TierByRequest | src/tutortwin/policies/budget_policy.py:203-255 | alias, verifier, outcome, reason and output ceiling of a permitted request, each by difficulty, subject and plan alone |
| BudgetPolicy.DecisionShape | src/tutortwin/policies/budget_policy.py:203-255 | two attempts, a fallback only below the advanced tier, a verifier only where the plan allows one |
| Gateway.CatalogEntry.CostMicros | src/tutortwin/domain/provider.py:145-155 | the least whole number of micro-dollars that does not under-report input tokens at the input rate and output tokens at the output rate |
| Gateway.Invoke | src/tutortwin/providers/gateway.py:124-213 | the nested retry and fallback loop makes exactly the attempts of the specification and returns the successful one |
| Gateway.AttemptBudget | src/tutortwin/providers/gateway.py:135-211 | for any alias list and provider: attempts within the cap, numbered from one, a success unique and last, no blocked vendor, each on record with its response, vendor and price |
| Gateway.EveryUsableAliasIsTried | src/tutortwin/providers/gateway.py:165-171 | with one attempt per alias available, every usable alias is tried unless an earlier one succeeded |
| Gateway.HardErrorIsNotRetried | src/tutortwin/providers/gateway.py:188-196 | no alias is called again after an error that is not retryable |
| Gateway.FirstOpenAliasIsCalled | src/tutortwin/providers/gateway.py:144-211 | with an attempt for each of some different aliases, the attempts are determined: each is on the first alias that is usable, has met only timeouts, rate limits and server errors, and leaves one attempt for every alias behind it; they end with a success or when no alias is left |
| Executor.CapabilityExecutor.Run | src/tutortwin/capabilities/executor.py:142-223 | the run returns the specified result and calls, and remembers the blocked vendors only when it may spend |
| Executor.CapabilityExecutor.Verify | src/tutortwin/capabilities/executor.py:225-256 | one attempt on the verifier alias, under the remembered blocks |
| Executor.ExecutionIsBounded | src/tutortwin/capabilities/executor.py:153-209 | nothing is called without a permitting decision, at most the attempts plus one verifier call are made, none on a blocked vendor |
| Executor.VerifierNeverReplacesTheAnswer | src/tutortwin/capabilities/executor.py:201-212 | the answer is the primary's own text whatever the verifier says, and disagreement lowers the band |
| Executor.VerdictMovesTheBand | src/tutortwin/capabilities/executor.py:110-212 | the verifier is asked once, always or for a STEM answer of low confidence as the decision says; disagreement leaves low confidence, agreement lifts low to medium, and nothing else changes band or signals |
| Quota.UsageLedger.RecordModelCall | src/tutortwin/repositories/catalog.py:69-96 | one ledger row for each attempt, failed ones included |
| Quota.UsageLedger.RecordExecution | src/tutortwin/orchestration/entry_service.py:499-560 | settling appends exactly the rows of the calls that were made |
| Quota.ReadingFalls | src/tutortwin/repositories/catalog.py:132-184 | a sliding window only loses weight as time passes |
| Quota.CountersAreSums | src/tutortwin/repositories/catalog.py:132-184 | for every ledger, each spend counter is the sum of the costs, and each call or failure counter the number, of the rows it names that are no older than an hour, a day, thirty days or ten minutes |
| Quota.SnapshotCounts | src/tutortwin/repositories/catalog.py:152-185 | the snapshot holds these sums, each beside the ceiling of the plan or the platform it is measured against |
| Quota.BlockedByTheLedger | src/tutortwin/repositories/catalog.py:189-204 | a vendor is blocked if and only if it was used within the day and failed too often within ten minutes or cost too much within the day |
| Quota.CountersAreOrdered | src/tutortwin/repositories/catalog.py:132-184 | for every ledger hour <= day <= month, and a subject or a vendor never above the platform |
| Quota.AdmittedHasNotSpent | src/tutortwin/policies/budget_policy.py:165-176 | whatever is let through found the sums over its subject's and everybody's rows below every ceiling |
| Quota.BlockedVendorsAreNotPaid | src/tutortwin/domain/budget.py:182-206 | a request let through is billed for no row on a vendor that the ledger blocked when it was let through |
| Quota.AdmittedBelowLimit | src/tutortwin/policies/budget_policy.py:178-189 | whatever is let through saw its counters below their ceilings |
| Quota.SettledAddsItsShare | src/tutortwin/repositories/catalog.py:141-184 | a settled request adds exactly what it was billed to the counters that count it, and nothing to the others |
| Quota.StepKeepsInv | src/tutortwin/policies/budget_policy.py:178-189 | every step keeps a counter plus the shares still in flight within the ceiling |
| Quota.LimitIsSoftByInFlight | src/tutortwin/repositories/catalog.py:117-140 | in every reachable state each gated counter is at most its limit less one plus k times the most that one of the k requests in flight adds to it |
| Quota.EveryRunIsShared | src/tutortwin/capabilities/executor.py:176-205 | in every run each request is billed for at most two rows, three where the plan allows a verifier on a subject it may use, none where it lets nothing through |
| QuotaTightness.CostlyRequestBillsItsBudget | src/tutortwin/capabilities/executor.py:139-205 | for every decision taken on a text request some behaviour of the providers bills every row of its budget |
| QuotaTightness.CallLimitIsExact | src/tutortwin/repositories/catalog.py:117-140 | for every configuration (its failure circuit at least one, as src/tutortwin/config.py:150 demands), limit and k, the daily call counter is bounded by a value in all runs with k in flight if and only if that value is at least the peak: limit - 1 plus k times the most rows |
| QuotaTightness.DocumentedBoundHoldsIff | src/tutortwin/repositories/catalog.py:135-138 | one row for each request in flight bounds the counter only where nothing is let through, and one above the limit for each only for a single request that is never verified |
| MediaStates.ProperMoveRaisesRank | src/tutortwin/domain/media.py:65-111 | every move that changes the state raises a rank between 0 and 11 |
| MediaStates.EnteredOnlyFrom | src/tutortwin/domain/media.py:65-97 | the table read backwards: from which states each state can be entered, and from no other |
| MediaStates.SinksAreTerminalButCompleted | src/tutortwin/domain/media.py:47-97 | a state has no way out if and only if it is listed as terminal and is not COMPLETED |
| MediaStates.AtMostElevenProperMoves | src/tutortwin/domain/media.py:65-97 | any history changes state at most eleven times, and one does so eleven times |
| MediaStates.NoWayAroundTheGate | src/tutortwin/domain/media.py:63-97 | any history that reaches a fetched state holds the entitlement check, the brief and the queueing before it |
| MediaPipeline.MovesAreLegal | src/tutortwin/media/pipeline.py:198-270 | whatever state a redelivery finds, every transition intake or process asks for is allowed |
| MediaPipeline.EndsAsFound | src/tutortwin/media/pipeline.py:207-400 | processing ends ready if and only if the file could be read, failed where none was found, rejected where it was invalid, of bad dimensions or a PDF that cannot be opened; intake queues, holds or rejects by entitlement, allowance and a brief of three characters |
| MediaPipeline.EveryEndHasItsCause | src/tutortwin/media/pipeline.py:306-400 | over any run of calls, each cut short anywhere, an object is ready only if some processed file could be read, failed only if one was missing, and rejected only if one was unfit or some message was refused |
| MediaPipeline.RunKeepsInv | src/tutortwin/media/pipeline.py:198-376 | the pipeline invariant holds after any run of intake and process calls, each cut short anywhere |
| MediaPipeline.AnyRunIsOrderly | src/tutortwin/media/pipeline.py:207-266 | any such run makes only allowed moves, at most eleven, and creates at most one job |
| MediaPipeline.NoBriefNoFetch | src/tutortwin/media/pipeline.py:216-254 | if anything was fetched, some delivered message was entitled, within its allowance and, unless of a type exempt from the brief, came with three characters of brief, which is the brief on record |
| MediaPipeline.FetchComesAfterTheGate | src/tutortwin/media/pipeline.py:286-310 | each fetch happens in a state whose history already passed the entitlement check and the brief |
| MediaPipeline.WholeCallsAreSteps | src/tutortwin/media/pipeline.py:198-376 | a call that is not cut short changes the row as the two methods promise |
| MediaPipeline.MediaRow.Transition | src/tutortwin/repositories/media.py:68-84 | moves the state and nothing else; its guard is its precondition |
| MediaPipeline.MediaRow.Intake | src/tutortwin/media/pipeline.py:198-270 | entitlement, allowance, brief gate, brief, queue, job, in that order, with the outcome reported for each case |
| MediaPipeline.MediaRow.Process | src/tutortwin/media/pipeline.py:286-400 | refuses any state but queued or fetched; otherwise fetches once, follows the branch of what it found and ends in the state that goes with it |
| PagePlanning.ParseRequestedPages | src/tutortwin/media/pdf.py:128-143 | strictly increasing, and exactly the existing pages that a range, given in either order, or a single number names |
| PagePlanning.PlanExtraction | src/tutortwin/media/pdf.py:203-274 | builds the specified plan for the selected pages |
| PagePlanning.PlanIsCheapestFirst | src/tutortwin/media/pdf.py:235-268 | text layer if usable, else OCR while available and within budget, vision only when OCR is unavailable or its budget is spent |
| PagePlanning.PlanIsBounded | src/tutortwin/media/pdf.py:216-233 | at most the page budget, at most the OCR budget, existing pages once each: the first named, else the best ranked, else the first of the document |
| Extraction.RunPlan | src/tutortwin/media/extractor.py:70-137 | the loop over the plan yields the specified pages, calls, OCR and vision pages |
| Extraction.SendToVision | src/tutortwin/media/extractor.py:139-187 | one gateway request with one attempt, unless capped, unavailable or not permitted |
| Extraction.RunIsWithinBudget | src/tutortwin/media/extractor.py:84-187 | provider calls at most vision pages at most their cap, OCR reads at most those planned, each planned page at most once |
| Extraction.EveryPageIsReadAsPlanned | src/tutortwin/media/extractor.py:84-187 | every planned page is read as planned: its text layer, its usable OCR text, or else the transcript of the vision model if there is a gateway, a permitting decision, room under the cap and a successful call; what is kept is that text, and a page nothing could read is left out |
| Extraction.EveryCallIsRecorded | src/tutortwin/media/extractor.py:180-181 | one call is on record for each page sent, that page's own, priced from the catalog |
| ExtractionCache.ExtractionTable.StoreExtraction | src/tutortwin/repositories/media.py:148-175 | inserts a row for the page and method, or on conflict replaces the text of that row |
| ExtractionCache.ExtractionTable.Process | src/tutortwin/media/pipeline.py:419-477 | cached pages first, the rest extracted and stored, the whole sorted by page |
| ExtractionCache.OneRun | src/tutortwin/media/pipeline.py:419-501 | cached pages are neither read nor seen again, no row changes, no page gets a second row by any method, the caps hold, and the merged pages are the rows of the plan in strictly increasing order |
| ExtractionCache.EveryPlannedPageIsServed | src/tutortwin/media/pipeline.py:419-477 | no planned page is left out: it is served from the cache, or read as planned and added to the result |
| ExtractionCache.CacheOnlyGrows | src/tutortwin/repositories/media.py:119-175 | over any sequence of runs no row of the cache is lost or changed |
| ExtractionCache.ExtractedPagesAreNeverPaidAgain | src/tutortwin/media/pipeline.py:428-475 | over any sequence of runs on one owner's document, a page extracted by one run is never put through OCR or vision by a later one |
| Audio.ProbeDuration | src/tutortwin/media/audio.py:53-79 | in bounds and terminating on every byte string, with the value of the recursive walk |
| Audio.WalkReadsChunks | src/tutortwin/media/audio.py:69-76 | walking encoded chunks, padded to even sizes, reads back what the chunk list states |
| Audio.ProbeReadsTheFile | src/tutortwin/media/audio.py:61-79 | on every file built from chunks whose fmt chunks hold 16 bytes or more, the probe equals the duration the list states |
| Audio.ProbeDividesSizeByRate | src/tutortwin/media/audio.py:72-75 | one fmt chunk with a nonzero rate before the data gives data size over byte rate, whatever other chunks stand anywhere |
| Audio.LongFilesAreRefused | src/tutortwin/media/audio.py:82-99 | within the size cap such a file is refused as too long if and only if it holds more than the allowed seconds of data |
| Audio.OnlyWavIsProbed | src/tutortwin/media/audio.py:60-99 | only a WAV file of 44 bytes or more with both marks is probed, and a file is too large if and only if it exceeds the size cap |
| Splitting.EstimateTokens | src/tutortwin/rag/chunking.py:61-62 | the least number of tokens, at least one, of four characters each that covers the text |
| Splitting.Pack | src/tutortwin/rag/chunking.py:132-145 | the greedy loop yields the greedy packing |
| Splitting.PackedFitsOrIsOnePart | src/tutortwin/rag/chunking.py:138-145 | a packed text over the target is a single part that was already over it |
| Splitting.PackingIsGreedy | src/tutortwin/rag/chunking.py:132-161 | packing joins neighbours greedily: every part once and in order, more than one only within 220 tokens, and never one fewer than fit |
| Splitting.HardCutAt | src/tutortwin/rag/chunking.py:165-173 | the cut by size yields the consecutive stretches of 1600 characters, as many as the text needs |
| Splitting.SplitOversized | src/tutortwin/rag/chunking.py:127-173 | paragraphs, then sentences, then the hard cut, as specified |
| Splitting.SplitConserves | src/tutortwin/rag/chunking.py:127-173 | splitting keeps every non-whitespace character in order and bounds each part by 1600 characters |
| Splitting.SplitRespectsStructure | src/tutortwin/rag/chunking.py:127-173 | a text of up to 1600 characters stays whole; of a longer one a part over 880 characters is a paragraph, or of a paragraph over 1600 a sentence, or of a sentence over 1600 a cut |
| Chunking.SplitPages | src/tutortwin/rag/chunking.py:72-89 | the preamble and one page per marker with text after it, with the marker's number |
| Chunking.PagesConserve | src/tutortwin/rag/chunking.py:72-89 | splitting into pages loses the markers and nothing else |
| Chunking.PagesCarryTheirNumbers | src/tutortwin/rag/chunking.py:72-89 | every page holds what stands before the first marker, or what stands after a marker and carries its number, and none with text is left out |
| Chunking.OnlyMarkersAreCut | src/tutortwin/rag/chunking.py:72-89 | cutting out the markers takes away exactly their characters |
| Chunking.BoundariesCutTheBody | src/tutortwin/rag/chunking.py:113-118 | the boundaries are exactly start, end and the positions found, sorted without repetition |
| Chunking.StructuralPieces | src/tutortwin/rag/chunking.py:111-124 | the pieces between boundaries, or the whole body when all are blank |
| Chunking.PiecesConserve | src/tutortwin/rag/chunking.py:111-124 | cutting a page at any boundaries loses nothing and stays on the page |
| Chunking.PiecesCarryTheirSections | src/tutortwin/rag/chunking.py:111-124 | the pieces with text are exactly the stripped stretches from one boundary to the next, each in the section its start falls under |
| Chunking.ChunkText | src/tutortwin/rag/chunking.py:176-203 | the three nested loops produce the numbered kept parts |
| Chunking.ChunkingConservesContent | src/tutortwin/rag/chunking.py:176-203 | kept and dropped parts together hold, in order, every non-whitespace character of the text outside its page markers |
| Chunking.ChunksAreNumberedAndBounded | src/tutortwin/rag/chunking.py:187-201 | ordinals are 0 to n-1 without a gap, chunks hold 8 to 400 tokens, every other part is under 8, and each chunk carries its part's page and section |
| Chunking.ChunksCiteTheirPlace | src/tutortwin/rag/chunking.py:183-201 | every chunk cites the page, and the section, of the stretch its text comes from |
| Normalization.CollapseIsJoinedWords | src/tutortwin/rag/chunking.py:206-212 | collapsing whitespace leaves the words with one space between neighbours |
| Normalization.SameKeyIffSameWords | src/tutortwin/rag/chunking.py:206-212 | two texts have the same canonical form if and only if they have the same words up to letter case |
| Normalization.AsciiLowersByWord | src/tutortwin/rag/chunking.py:206-212 | lower-casing of ASCII letters is one of the functions all this holds for |
| Normalization.NormalizingIsIdempotent | src/tutortwin/rag/chunking.py:206-212 | normalizing twice changes nothing |
| Embeddings.EmbeddingStore.Embed | src/tutortwin/rag/embeddings.py:118-127 | batches of 96 give what one batch would, in ceil(n/96) calls |
| Embeddings.EmbeddingStore.EmbedWithCache | src/tutortwin/rag/embeddings.py:130-201 | one row and one embedded text for each key that had none, hits plus embedded are the distinct keys, vectors come in input order |
| Embeddings.RowsAfterAre | src/tutortwin/rag/embeddings.py:158-186 | old rows stay as they were and each missing key gets the vector of its last text |
| Embeddings.EachKeyIsSentOnce | src/tutortwin/rag/embeddings.py:143-186 | over any sequence of calls the keys sent to the provider are exactly the keys asked for, each once ever |
| Embeddings.CacheAgreesIffInsensitive | src/tutortwin/rag/embeddings.py:178-179 | the cache returns the provider's own vectors for every sequence of calls if and only if the provider ignores what the key ignores |
| Embeddings.TwoCallsShareARow | src/tutortwin/rag/embeddings.py:143-160 | the second of two texts with one key is given the vector of the first |
| RankFusion.ReciprocalRankFusion | src/tutortwin/rag/vector_store.py:274-296 | the accumulating loops, the sort and the cut produce the specified list |
| RankFusion.FusionIsExact | src/tutortwin/rag/vector_store.py:283-296 | each chunk once, min(limit, distinct) of them, scored by the exact sum of 1/(k+rank), sorted by score and then id |
| RankFusion.FusedAreTheBestPlaced | src/tutortwin/rag/vector_store.py:286-296 | by the places alone: an item scores 1/(k+1) for a first place, 1/(k+2) for a second and so on, the best stand first, ties by id, and a ranked chunk is left out only when the limit is full of chunks ahead of it |
| RankFusion.FusedAreTheFirst | src/tutortwin/rag/vector_store.py:289-295 | apart from its score a fused item is the first one about its chunk |
| RankFusion.FusionIsUnique | src/tutortwin/rag/vector_store.py:292 | the scores alone determine the fused order |
| RankFusion.FusionIgnoresOrder | src/tutortwin/rag/vector_store.py:286-290 | permuting the input rankings changes no chunk, no score and no place |
| RankFusion.BetterEverywhereScoresNoLess | src/tutortwin/rag/vector_store.py:277-282 | a chunk ranked no worse than another in every ranking never scores lower |
| Knowledge.BuildVisibilityPredicate | src/tutortwin/rag/vector_store.py:86-114 | the appended clauses let through exactly the rows the scope may see |
| Knowledge.VisibleIffGranted | src/tutortwin/rag/vector_store.py:86-114 | what a scope may see, grant by grant: its own private notes, curated content if asked for, the material of its tutor, its courses and its conversation |
| Knowledge.KindsAgreeWithPredicate | src/tutortwin/domain/knowledge.py:88-104 | a visibility kind is reported if and only if the predicate could let some row of it through |
| Retrieval.DynamicTopK | src/tutortwin/policies/rag_policy.py:158-167 | at most the base and at most what the tokens pay for, and at least one when both allow it |
| Retrieval.RetrievalService.Retrieve | src/tutortwin/rag/service.py:65-112 | keyword search first, embedding only when it found fewer than three, at most one provider call, fused evidence |
| Retrieval.EmbeddedOnlyIfNeeded | src/tutortwin/rag/service.py:65-99 | a query is embedded exactly when something is to be retrieved and keywords find fewer than three; otherwise the evidence does not depend on the vector |
| Retrieval.NearestAreQuoted | src/tutortwin/rag/vector_store.py:117-188 | a vector search quotes rows of its model, nearest first, each scored one minus its distance; a comparable row is left out only when top-k rows no farther away were taken |
| Retrieval.BestRankedAreQuoted | src/tutortwin/rag/vector_store.py:228-266 | a keyword search quotes rows that match, best ranked first, each scored its rank; a match is left out only when top-k rows ranked no lower were taken |
| Retrieval.EvidenceByPlaces | src/tutortwin/rag/service.py:75-106 | nothing when nothing is to be retrieved, the keyword hits when there are three, otherwise items scored one over 60 plus their places in the two searches, the best that fit |
| Retrieval.EvidenceIsVisible | src/tutortwin/rag/vector_store.py:117-134 | every item quotes a stored chunk that the scope may see and whose source is not deleted, and the evidence fits the available tokens |
| Retrieval.HiddenEditsDoNotMatter | src/tutortwin/rag/vector_store.py:117-134 | after any sequence of inserts, removals and source updates that touch nothing the scope may see, the evidence is identical, with warm or cold caches |
| Retrieval.HiddenEditIsUnseen | src/tutortwin/rag/vector_store.py:117-134 | a row that comes or goes unseen, or a write to a source without visible chunks, leaves the candidates and their order as they were |
| RowOrder.BestIgnoresOrderIff | src/tutortwin/rag/vector_store.py:132-133 | the first top-k hits are the same in every arrangement if and only if no two different hits are tied with fewer than top-k strictly better |
| RowOrder.SearchIgnoresOrderIff | src/tutortwin/rag/vector_store.py:228-243 | a vector or keyword search gives the same evidence for every order of the rows if and only if no such tie is within its reach |
| RowOrder.RowOrderDoesNotMatter | src/tutortwin/rag/service.py:65-112 | stores that hold the same reachable rows in any order give identical evidence, with warm or cold caches, unless two rows tie within the reach of a search that is run |
| RowOrder.KeywordEvidenceIgnoresOrderIff | src/tutortwin/rag/service.py:65-112 | where keywords suffice the evidence is the same for every order of the rows if and only if no tie is within the reach of the keyword search |
| Retrieval.ReachableAreVisible | src/tutortwin/rag/vector_store.py:126-129 | a candidate is a stored row, visible, with a live source and its title |
| Retrieval.ReachableIsComplete | src/tutortwin/rag/vector_store.py:126-129 | every visible row with a live source is a candidate |
| Ingestion.Deduplicate | src/tutortwin/rag/ingestion.py:152-161 | keeps the first chunk of each normalized content and counts the others |
| Ingestion.DeduplicationIsExact | src/tutortwin/rag/ingestion.py:152-161 | what is kept are exactly the distinct normalized contents, once each |
| Ingestion.RunsAreConsistent | src/tutortwin/rag/ingestion.py:88-237 | over any run of ingest, soft delete and purge: one live source per content, owner and version, the unique constraint holds, and every source is indexed without gaps or repeats |
| Ingestion.RepeatIsFree | src/tutortwin/rag/ingestion.py:98-125 | asking again returns the same source, changes nothing and calls no provider |
| Ingestion.KeptAreTheFirst | src/tutortwin/rag/ingestion.py:144-156 | the chunks kept are those that come first under their normalized content, in their order |
| Ingestion.NewContentIsIndexed | src/tutortwin/rag/ingestion.py:144-217 | created plus duplicates are the chunks produced, and the stored rows are the distinct contents, once each without a gap, each with its cached vector |
| Ingestion.NewContentIsInOrder | src/tutortwin/rag/ingestion.py:151-200 | the stored rows stand in the order, and carry the text, of the first occurrence of each content |
| Ingestion.NewContentIsOnRecord | src/tutortwin/rag/ingestion.py:127-217 | new content is on record under a new source with its title, owner, content hash and versions, ready or empty, and every other source and row stays as it was |
| Ingestion.NewRowsAreSearchable | src/tutortwin/rag/ingestion.py:169-187 | its rows have the owner, new ids and the vectors of the model asked for, and stand among the candidates of the owner's searches |
| Ingestion.NewContentIsFound | src/tutortwin/rag/ingestion.py:169-187 | a vector search of the owner for that model quotes each of them, or as many rows as were asked for, none of them farther away |
| Ingestion.RefusedIffUnowned | src/tutortwin/rag/ingestion.py:68-81 | a request is refused as unowned if and only if its visibility names an owner that is not set |
| Ingestion.ReachableAfterwardsIffSameAudience | src/tutortwin/rag/ingestion.py:98-111 | afterwards the source's chunks are reachable from the owner's scope if and only if it is for the same course or conversation, always for private, tutor and curated content |
| Ingestion.OtherCourseSeesNothing | src/tutortwin/rag/ingestion.py:98-125 | the same content asked for under another course is answered with a source that course cannot reach |
| Ingestion.IngestCollidesIff | src/tutortwin/rag/ingestion.py:107-142 | in any state runs can reach an owned request violates the unique constraint if and only if no live copy answers it, subject and tutor are both set, and a deleted copy is still there |
| Ingestion.ReuploadAfterDeleteCollidesIff | src/tutortwin/db/knowledge_models.py:76-89 | ingesting again after a soft delete violates the unique constraint if and only if both subject and tutor are set |
| Ingestion.DeletedIsUnreachable | src/tutortwin/rag/ingestion.py:220-237 | no scope reaches a deleted source's chunks, a purge removes its rows and touches no other source |
| Ingestion.KnowledgeBase.IngestRequest | src/tutortwin/rag/ingestion.py:88-217 | refused, answered by the live copy, or indexed, with the new tables and the calls made |
| Ingestion.KnowledgeBase.SoftDeleteSource | src/tutortwin/rag/ingestion.py:220-232 | marks the source deleted and changes nothing else |
| Ingestion.KnowledgeBase.PurgeSource | src/tutortwin/rag/ingestion.py:235-237 | removes the source and its chunks |
| Decimal.DecimalReadsBack | src/tutortwin/learning/twin.py:149-178 | a printed number consists of digits and reads back as itself |
| TwinTemplates.AcceptedIffIntegerRoots | src/tutortwin/learning/twin.py:157-167 | a monic quadratic is accepted if and only if integer roots exist, the roots found are those, and recovery never fails |
| TwinRoundTrip.LinearRoundTrip | src/tutortwin/learning/twin.py:107-178 | a printed linear problem parses to itself, and to the zero-coefficient error exactly when its coefficient is zero |
| TwinRoundTrip.QuadraticRoundTrip | src/tutortwin/learning/twin.py:132-167 | a printed integer-root quadratic parses to the same roots |
| TwinRoundTrip.PrintedLinear | src/tutortwin/learning/twin.py:107-109 | 3x - 4 = 19 is printed so, behind the words that ask for x |
| TwinRoundTrip.PrintedQuadratic | src/tutortwin/learning/twin.py:132-138 | the quadratic with roots 2 and 3 is printed x^2 - 5x + 6 = 0 |
| TwinRoundTrip.StarReadsBack | src/tutortwin/learning/twin.py:83-86 | a coefficient joined to its variable by a star reads as without the star |
| TwinRoundTrip.DoubleStarReadsBack | src/tutortwin/learning/twin.py:89-93 | a square written with two stars reads as with a caret |
| TwinRoundTrip.OtherCaseReadsBack | src/tutortwin/learning/twin.py:89-93 | the variable of the middle term may be in the other letter case |
| TwinMisread.RootsSolveThePrintedIff | src/tutortwin/learning/twin.py:88-93 | a printed quadratic with any leading coefficient is accepted as the monic one, and the roots found solve it if and only if that coefficient is one or the other two are zero |
| TwinMisread.DoubledQuadraticIsMisread | src/tutortwin/learning/twin.py:147-167 | 2x^2 - 5x + 6 = 0 is given the roots 3 and 2, and neither solves it |
| TwinMisread.ShiftIsNotRead | src/tutortwin/learning/twin.py:83-86 | a constant before the term with the variable is dropped, and so is the sign between them |
| TwinMisread.ShiftIsHarmlessIff | src/tutortwin/learning/twin.py:169-178 | the root read solves what is printed if and only if the constant is zero, or after a minus twice the difference of the other two |
| TwinMisread.SquareIsNotRead | src/tutortwin/learning/twin.py:83-86 | a square before that term is dropped too, unless the right-hand side is zero |
| TwinMisread.SquareIsHarmlessIff | src/tutortwin/learning/twin.py:169-178 | the root read solves what is printed if and only if it is zero, or the square has coefficient zero, or after a minus just makes up for the lost sign |
| TwinMisread.RestIsNotRead | src/tutortwin/learning/twin.py:83-86 | what follows the last number of a linear equation and holds no power is not read |
| TwinMisread.TermRestIsHarmlessIff | src/tutortwin/learning/twin.py:169-178 | after a further term with the variable on the right the root read solves what is printed if and only if that term has coefficient zero or the root is zero |
| TwinMisread.SwappedRestIsHarmlessIff | src/tutortwin/learning/twin.py:169-178 | with the variable and a constant e behind the last number, av + b = dv + e, the root read solves what is printed if and only if d(a - d + b) = ea |
| TwinMisread.DecimalRestIsHarmlessIff | src/tutortwin/learning/twin.py:169-178 | after decimals the root read solves what is printed if and only if the decimals are zeros |
| TwinGeneration.AnswerSolves | src/tutortwin/learning/twin.py:191-224 | the answer stated for a problem satisfies the equation it prints |
| TwinGeneration.AnswersDiffer | src/tutortwin/learning/twin.py:188-224 | no attempt repeats the original answer and no two attempts agree |
| TwinGeneration.TwinsAreShifted | src/tutortwin/learning/twin.py:188-224 | the twin of each attempt in numbers: by what its constant, right-hand side, answer, roots and gap move |
| TwinGeneration.IntegerRootStaysInteger | src/tutortwin/learning/twin.py:194-203 | an integer answer stays an integer |
| TwinGeneration.FractionStaysFractionIff | src/tutortwin/learning/twin.py:204-206 | a fractional answer stays fractional if and only if the coefficient does not divide the shifted numerator |
| TwinGeneration.FractionMayBecomeInteger | src/tutortwin/learning/twin.py:204-206 | the first twin of 3x + 4 = 6 has root 1 |
| TwinGeneration.TwinRootsAreDistinct | src/tutortwin/learning/twin.py:210-224 | a twin of a quadratic has two different integer roots |
| TwinGeneration.GenerateTwin | src/tutortwin/learning/twin.py:227-279 | succeeds at the first attempt whenever the text is recognised |
| TwinGeneration.GenerateBatch | src/tutortwin/learning/twin.py:282-338 | the loop with its seen set yields the twins of the first attempts |
| TwinGeneration.BatchSizeIsExact | src/tutortwin/learning/twin.py:291-299 | as many twins as were asked for within the ceiling, one at least and eight at most |
| TwinGeneration.BatchIsSound | src/tutortwin/learning/twin.py:297-329 | twins differ from the original and from each other, each solves its printed equation, integers stay integers, quadratics keep two different integer roots |
| TwinGeneration.TwinIsAProblemAgain | src/tutortwin/learning/twin.py:107-178 | a printed twin is recognised again with the same answer |
| Practice.HalfEvenIsNearest | src/tutortwin/learning/practice.py:83 | the code rounds to a nearest day, ties to an even one, so all that is proved of such roundings holds for it |
| Practice.GradesMoveTheCard | src/tutortwin/learning/practice.py:45-91 | what each grade does to ease, interval, repetitions, lapses and due date: 20 hundredths less and a lapse, 14 less, none, 10 more, between 1.3 and 3.0 |
| Practice.HistoryIsCounted | src/tutortwin/learning/practice.py:61-91 | over any history a card counts its lapses and the passes since the last one |
| Practice.AnyHistoryIsSound | src/tutortwin/learning/practice.py:53-96 | over any history the ease stays in 1.3 to 3.0 and the card is due exactly when its interval has passed |
| Practice.PassLengthens | src/tutortwin/learning/practice.py:77-83 | every pass from the second in a row on lengthens the interval, until it is 365 days |
| Practice.EighteenPassesReachTheCap | src/tutortwin/learning/practice.py:73-91 | eighteen passes in a row, whatever their grades and whatever came before, reach the cap |
| Practice.SeventeenPassesMayNotReachTheCap | src/tutortwin/learning/practice.py:61-91 | six lapses and seventeen hard passes end at 308 days, so eighteen are needed |
| Practice.SelectDueCards | src/tutortwin/learning/practice.py:99-114 | the due cards, sorted by due date and then lapses, cut at the limit |
| Practice.QueueTakesTheMostOverdue | src/tutortwin/learning/practice.py:99-114 | only due cards, the earliest due first and among equals those that failed more often, and one is left out only when the queue is full of cards as urgent |
| Verification.Balanced | src/tutortwin/learning/verification.py:140-152 | finds the one position that closes the group opened at the start, if there is one |
| Verification.SmallResultsAreExactIff | src/tutortwin/learning/verification.py:218-242 | a folded result is within 1000 if and only if every subexpression has an exact value within 1000, and then it is the exact value |
| Verification.ValuesFoldIffArithmetic | src/tutortwin/learning/verification.py:218-241 | of what comes to a number, exactly what is made of numbers, signs and the four folded operations folds |
| Verification.LargeValuesFoldLargeIff | src/tutortwin/learning/verification.py:226-241 | what comes to a number above 1000 in size folds above 1000 if it is such arithmetic, and otherwise not at all |
| Verification.OperationsFold | src/tutortwin/learning/verification.py:195-241 | what each of the four operations folds to within 1000, and that no other folds |
| Verification.TakeOperand | src/tutortwin/learning/verification.py:163-181 | the operand after an operator is its signs with the balanced group in parentheses, or its signs with the word, or nothing |
| Verification.ExponentOperands | src/tutortwin/learning/verification.py:155-182 | exactly one operand, in order, for each `**` and `^` that has one |
| Verification.OperatorsAre | src/tutortwin/learning/verification.py:70 | every operator found ends a caret or two stars, and no caret and no first two stars of a run are missed |
| Verification.CallArguments | src/tutortwin/learning/verification.py:185-192 | exactly one argument, in order, for each factorial that is followed by a balanced group |
| Verification.AssertParseable | src/tutortwin/learning/verification.py:98-137 | rejects for the first check that fails: length, characters, the three patterns, an operand of some `**` or `^` that folds above 1000, a factorial argument that does not fold to 1000 or less |
| Verification.PassesIff | src/tutortwin/learning/verification.py:125-137 | an operand that comes to a number passes if and only if it is not plain arithmetic or all of it is within 1000, one that does not parse always passes, and a factorial argument passes if and only if it parses, is plain arithmetic and all of it is within 1000 |
| Verification.BoundIsOneThousand | src/tutortwin/learning/verification.py:125-137 | a number passes as an exponent, and as a factorial argument, if and only if it is at most 1000 in size |
| Verification.OnlyTheseCharacters | src/tutortwin/learning/verification.py:102-103 | the characters allowed: letters, digits, spaces and the signs listed |
| Verification.AccessIs | src/tutortwin/learning/verification.py:53 | with nothing between, an access is a dot behind a closing bracket or quote, or before a letter or an underscore, and nothing else |
| Verification.NamedUnlessInsideALongerName | src/tutortwin/learning/verification.py:188 | the factorials looked for are those whose name is not the end of a longer word |
| Verification.NeverAccepted | src/tutortwin/learning/verification.py:100-107 | nothing with more than 500 characters, two underscores in a row, or a dot before a letter or behind a bracket is let through |
| Exponents.WholeExponentPassesIff | src/tutortwin/learning/verification.py:115-128 | an exponent that is taken whole and comes to more than 1000 in size is let through if and only if it is not plain arithmetic |
| Exponents.PassingBoundsWholeExponents | src/tutortwin/learning/verification.py:115-128 | in a text that passes, every exponent that is taken whole and is plain arithmetic comes to at most 1000 in size |
| Exponents.NumberOutrunsWordIff | src/tutortwin/learning/verification.py:178-181 | a number reaches past the word scanned exactly where a signed scale follows a mantissa and an e |
| Exponents.NoOperandNoExponent | src/tutortwin/learning/verification.py:155-182 | where no operand is taken there is no exponent |
| Exponents.ChainIsSeenIff | src/tutortwin/learning/verification.py:71 | the chain pattern sees what follows an exponent if and only if that has no sign and holds only word characters and parentheses |
| Exponents.ChainsLetThroughAreNotSimple | src/tutortwin/learning/verification.py:112-113 | where no chain is found, an exponent that is itself raised has a sign or holds some other character |
| Exponents.OperandIsWholeIff | src/tutortwin/learning/verification.py:155-182 | the operand that is checked is the exponent by the grammar if and only if it is a group or a single number or name and no call, factorial sign or further power follows |
| Exponents.SignedChainIsCutShort | src/tutortwin/learning/verification.py:71 | 9**+9**9 passes every check, its operand +9 being less than its exponent +9**9 |
| Exponents.SignedScaleIsCutShort | src/tutortwin/learning/verification.py:178-181 | 2**9e+3 passes every check, its operand 9e being less than its exponent 9e+3 |
| Exponents.CalledPowerIsCutShort | src/tutortwin/learning/verification.py:155-182 | 2**factorial(9) passes every check, its operand factorial being less than its exponent |
| LetThrough.EveryShapeSlips | src/tutortwin/learning/verification.py:226-229 | whatever the bound, a power, a floor division and a factorial call each come to more for some number and are not folded |
| LetThrough.SlippingIsInherited | src/tutortwin/learning/verification.py:226-232 | an expression with one of these anywhere in it is not folded either |
| LetThrough.InnerPowerSlips | src/tutortwin/learning/verification.py:115-128 | 2**(1*9**9) passes every check with its exponent, 387420489, taken whole |
| LetThrough.InnerFloorSlips | src/tutortwin/learning/verification.py:115-128 | 2**(9999//1) passes every check with its exponent, 9999, taken whole |
| LetThrough.CheckedFactorialsAre | src/tutortwin/learning/verification.py:130-137 | the factorials that are checked are exactly those spelled as the name directly followed by a balanced group |
| LetThrough.PostfixFactorialSlips | src/tutortwin/learning/verification.py:130-137 | every number within the length allowed, with a factorial sign behind it, passes every check |
| LetThrough.ParenthesisedFactorialSlips | src/tutortwin/learning/verification.py:185-192 | a factorial whose name stands in parentheses passes every check with every number within the length allowed |
| Assessment.PlanGrading | src/tutortwin/learning/assessment.py:206-240 | splits the paper into what code grades and what the rubric needs, with the last response of each number |
| Assessment.ParseRubricResponse | src/tutortwin/learning/assessment.py:275-325 | one grade for each pending question from the last line of its number |
| Assessment.KeyEarnsTheMarks | src/tutortwin/learning/assessment.py:69-92 | a choice or true-or-false question of its own number earns all its marks, and is flagged correct, if and only if its last response names the key, and nothing otherwise |
| Assessment.VerdictEarnsTheMarks | src/tutortwin/learning/assessment.py:95-151 | a numeric one earns all its marks if and only if the comparison verifies its last response; with units that cannot be compared it is left for review |
| Assessment.WordsEarnTheMarks | src/tutortwin/learning/assessment.py:165-324 | a short or structured one earns all its marks when its last response has the words of the expected answer, and otherwise what the last rubric line of its number gives within its marks, flagged when clamped or missing |
| Assessment.RightPaperEarnsEverything | src/tutortwin/learning/assessment.py:206-340 | a paper answered by its key throughout earns the total of its marks, every grade is flagged correct, and no model is called |
| Assessment.PlanKeepsThePaper | src/tutortwin/learning/assessment.py:206-240 | every question is graded or pending, once, with its marks |
| Assessment.GradingConservesThePaper | src/tutortwin/learning/assessment.py:206-340 | for any responses and any reply: one grade per question in order, total possible is the sum of the marks, what is awarded is the sum of the grades to the hundredth, within that total, at most one model call |
| Assessment.ModelMarksAreKeptOrFlagged | src/tutortwin/learning/assessment.py:292-324 | a model's mark is kept as given or flagged for review, and a skipped question is flagged |
| Assessment.BuildBlueprint | src/tutortwin/learning/assessment.py:399-438 | the clamped duration and count and the split of the count; reduced if and only if a cap was exceeded, if and only if less is given than was asked |
| Assessment.SplitAddsUpIff | src/tutortwin/learning/assessment.py:421-436 | parts are positive, and add up to the count if and only if it is not negative |
| Assessment.BlueprintIsConsistent | src/tutortwin/learning/assessment.py:357-438 | within the plan's ceilings, parts positive, adding up unless a negative number was asked for |
| Assessment.PaperInNumbers | src/tutortwin/learning/assessment.py:346-438 | duration, number of questions and number of each kind for every request and plan, with the limits and shares written out |
| Conversations.Reverse | src/tutortwin/repositories/conversations.py:243 | reverses the list in place |
| Conversations.ListMessages | src/tutortwin/repositories/conversations.py:221-244 | the last messages of the conversation in chronological order |
| Conversations.NewestMirrorsChronological | src/tutortwin/repositories/conversations.py:239-243 | the descending order read backwards is the chronological order |
| Conversations.TailIsTheLatest | src/tutortwin/repositories/conversations.py:221-244 | the messages listed are of the conversation, oldest first, and one is left out only when as many no older ones as asked for are listed |

## Left out

- Floating point: scores, distances, durations and marks are reals; rounding of scores to six places and a null distance of a zero vector are not modelled, and SM-2 products are exact hundredths.
- Concurrency inside one media transaction and inside one ingestion: two intakes of one file at the same instant, or two ingestions of one text, are not interleaved.
- A crash in the middle of extraction: the cache model takes each run as one step.
- Image and voice extraction beyond their state moves: both read a single page and have no plan.
- Ledger rows of media jobs: the quota bound is about text requests.
- Splitting.Pack: what counts as a paragraph or sentence break is an input, not the regular expression.
- Chunking.ChunkText: where headings and problem numbers stand is an input, not the regular expression.
- PagePlanning.PlanExtraction: the keyword ranking of pages is an input.
- TwinTemplates.AcceptedIffIntegerRoots: digits and letters are ASCII; a square root is exact integer arithmetic.
- TwinMisread.RootsSolveThePrintedIff: what stands after the final zero of a quadratic is ignored by the search and is not part of the equation here.
- TwinGeneration.GenerateTwin: the symbolic check that sets the verified flag is not modelled; the answer line is a value, not its text.
- Verification.AssertParseable: the syntax tree of a fragment is an input, and integer constants too large for a float are not distinguished.
- Exponents.OperandIsWholeIff: attribute access and subscripts after an atom, which the filter rejects, are not part of the grammar.
- Assessment.PlanGrading: comparing quantities with units is an input; feedback and evidence texts are not modelled.
- Embeddings.EmbeddingStore.EmbedWithCache: the table of one embedding model; rows of other models and the race of two inserts are not modelled.
- Ingestion.KnowledgeBase.IngestRequest: page numbers, sections and token estimates of rows are not carried, and the count check after the insert, which could only fail if the insert did, is not modelled.
- Retrieval.RetrievalService.Retrieve: query times, candidate counts and the audit row are not modelled.
- RowOrder.RowOrderDoesNotMatter: for fused evidence the condition is sufficient only, because fusion and its cut can hide a tie.
- MediaPipeline.MediaRow.Intake: the queue notification after the job row is created is not modelled.
- HTTP, adapters of vendors, blob stores, task queues, migrations, logging, prompts and keyword routing: plumbing or word lists without a deep property.
