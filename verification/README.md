# Verified models of the document pipeline

This project models four parts of the document pipeline in Dafny and proves what they promise.

* **Chunking** (`core/src/docrunr/chunk.py`). A Markdown document is cut at headings, each section is split
  recursively on a ladder of separators and, where no separator helps, into token windows found by binary search;
  the pieces are packed greedily, trimmed, checked against the cap again and deduplicated. Every chunk records its
  offsets and its heading path. The tokenizer is an arbitrary function from texts to natural numbers. Theorems name
  what they need of it: the hard cap, the order of the chunks and the section paths need nothing, losslessness needs
  a positive count on non-empty text, optimality of the windows needs monotonicity, and the redundancy of the second
  check needs subadditivity.
* **Job delivery** (`repository.py`, `broker.py`, both `consumer.py`, `handler.py`, `app.py`). The transactional
  outbox, the jobs queue, the two kinds of workers, their result, lifecycle, follow-up and dead-letter queues and the
  projection into the job table are one labelled transition system, `Pipeline`. Its steps cover lost publishes and
  settlements, lost channels, crashed workers, a crashed publisher and duplicate deliveries, in every interleaving.
  The worker is also a class, `WorkerConsumer.Consumer`, whose methods may meet a failing call or a closed channel at
  every point. Both are tied to one automaton, `DeliveryProtocol.Next`, of what may be done with a delivery.
* **Statistics** (`job_status.py`, `job_store.py`, `health.py`). The latch that keeps replays from counting twice is
  characterised in closed form; the batching writer is proved to leave no trace of its batches; the in-memory twin is
  proved to agree with the store on exactly the histories whose events carry no padded or missing text it would keep.
* **Text repair and uploads** (`clean.py`, `uploads.py`). Fence splitting, list repair and the multipart parser.

Loops and classes of the source are methods and classes here, each proved equal to a specification function or to a
property stated outright; pure code is functions. The promises are lemmas about the specification functions.

Three statements that the code or its documentation suggest are false of the code, and are here with a concrete input
and the exact condition under which they hold, for all inputs.

* The section path is the heading ancestry. `SkippedLevels.SectionPathsAreAncestryIff`: for every document, it is
  exactly when each heading is deeper than every enclosing heading that truncation by its level keeps. Never skipping
  a level is sufficient; it is exact only for the weaker statement that path lengths are levels (`Ancestry`).
* Re-splitting a span over the cap keeps its text. `Lossless.LosslessIff`: for every document, chunking covers it
  exactly when no trimmed span over the cap lost a CR LF pair to normalisation.
* A job counts once in the statistics. `JobStatus.CountsOnceIff`: for every history, at most once exactly when no event
  ends an attempt, other than a replay, of a job that had ended before.

The docstring of `chunk_markdown` calls offsets best-effort after whitespace normalisation; `Lossless.LosslessIff` says
when they are exact, which is whenever the source holds no carriage return.

`dafny verify dfyconfig.toml` checks the whole project.

## Model

| member | source | states |
|---|---|---|
| Windows.BestTokenWindowEnd | core/src/docrunr/chunk.py:412-426 | the binary search, proved equal to its specification on every counter |
| Windows.ProbeIsLocallyMaximal | core/src/docrunr/chunk.py:412-426 | for every counter the search ends at a prefix that fits and cannot grow by one character, or finds none |
| Windows.WindowIsLongest | core/src/docrunr/chunk.py:412-426 | for a monotone counter the search finds the longest fitting prefix, and exactly the shorter ones fit |
| Windows.SplitForceTokenWindows | core/src/docrunr/chunk.py:390-409 | the forced split, proved equal to its specification |
| Windows.WindowsTile | core/src/docrunr/chunk.py:390-409 | the windows tile the text: exact offsets, no gap, no overlap |
| Windows.WindowsAreFull | core/src/docrunr/chunk.py:390-426 | for every counter each window is full, or a single character that does not fit |
| Windows.WindowsBounded | core/src/docrunr/chunk.py:390-426 | for every counter each window is within the target or one character long |
| Windows.WindowsFit | core/src/docrunr/chunk.py:390-426 | when single characters fit, every window is within the target |
| Windows.WindowsAreFewest | core/src/docrunr/chunk.py:390-426 | no cut of the text into pieces within the target has fewer pieces |
| Windows.GreedyStaysAhead | core/src/docrunr/chunk.py:390-426 | the exchange argument: windows that are ahead of a cut stay ahead |
| Splitting.SplitOnSeparator | core/src/docrunr/chunk.py:357-387 | the cut at a separator, proved equal to its specification |
| Splitting.SplitOnTiles | core/src/docrunr/chunk.py:357-387 | the pieces tile the span |
| Splitting.SplitOnCuts | core/src/docrunr/chunk.py:357-387 | each piece ends with the separator and holds it nowhere else; only the last may lack it |
| Splitting.SplitSpan | core/src/docrunr/chunk.py:305-354 | the recursion, proved equal to its specification |
| Splitting.SplitEach | core/src/docrunr/chunk.py:337-354 | the loop over the pieces, proved equal to its specification |
| Splitting.SplitRecursiveTiles | core/src/docrunr/chunk.py:305-354 | nothing is lost or moved: the pieces of the whole recursion tile the span |
| Splitting.SplitRecursiveCapped | core/src/docrunr/chunk.py:305-354 | for every counter each piece is within the maximum or a single character |
| Ladder.CutsOnlyWhereItMust | core/src/docrunr/chunk.py:305-409 | each piece is within the maximum and runs from cut to cut, a cut following a separator inside a text over the maximum that no coarser separator cuts; or it is a window, full for the target, of a stretch over the maximum that no separator cuts |
| Ladder.WindowsAreGood | core/src/docrunr/chunk.py:320-325 | where the ladder ends, what is over the maximum becomes windows full for the target, not for the maximum |
| Ladder.PiecesAreGood | core/src/docrunr/chunk.py:327-354 | cuts between pieces follow the separator, and what is inside a piece is cut only by the rungs below |
| Ladder.EnforcedWindowsAreFull | core/src/docrunr/chunk.py:518-528 | after the second check what is over the maximum becomes windows full for the target, and the rest stays as trimmed |
| Packing.PackSpans | core/src/docrunr/chunk.py:429-483 | the packing loop with its flush, proved equal to its specification |
| Packing.PackTiles | core/src/docrunr/chunk.py:429-483 | packing keeps a tiling, forced windows included |
| Packing.PackedIsJoinedOrForced | core/src/docrunr/chunk.py:429-483 | for every counter and whatever the pieces, each packed span joins pieces of at most the maximum together, or is a window, full for the target, of a piece over it |
| Packing.PackingBounds | core/src/docrunr/chunk.py:453-483 | packed spans are a greedy grouping, one span a group: each sums to at most the maximum, neighbours to more than the target, so k of them need (k div 2) * (target + 1) tokens |
| Packing.SmallGroupsAreFilled | core/src/docrunr/chunk.py:469-480 | a group below 200 tokens is closed only at the maximum, and passes the target only from below 200 |
| Packing.GroupsAreGreedy | core/src/docrunr/chunk.py:464-480 | inside a group each piece was worth adding, and the first of the next group was not |
| Sections.BuildSectionPathStates | core/src/docrunr/chunk.py:237-279 | the heading scan with its fence flags, proved equal to its specification |
| Sections.HeadingsAreHeadingLines | core/src/docrunr/chunk.py:245-277 | the headings found are exactly the heading lines outside a fence, at their offsets |
| HeadingPatterns.InsideIffOpen | core/src/docrunr/chunk.py:247-261 | the scan is inside a fence exactly when one was opened outside any and no line since has the same character at its length or more |
| LinePatterns.FenceMarkerIff | core/src/docrunr/chunk.py:28 | a fence line is at most three blanks and the whole of a run of three or more backticks or tildes |
| HeadingPatterns.TitleTextIsTitle | core/src/docrunr/chunk.py:27 | cutting from the end finds the shortest title that leaves blanks, a closing run and blanks |
| HeadingPatterns.HeadingIffMatch | core/src/docrunr/chunk.py:263-268 | a line is a heading with this indent, level and title exactly when the pattern matches so |
| Sections.SectionStatesSorted | core/src/docrunr/chunk.py:237-279 | state offsets increase strictly and lie inside the document |
| Sections.BisectFinds | core/src/docrunr/chunk.py:77-83 | the bisection splits the states at the offset |
| Sections.PathForIsLastHeading | core/src/docrunr/chunk.py:77-83 | the path at an offset is that of the last heading at or before it |
| Sections.PathForConstant | core/src/docrunr/chunk.py:77-83 | the path is constant between two headings |
| Ancestry.LengthIsLevelIffNeverSkips | core/src/docrunr/chunk.py:263-277 | path lengths equal heading levels exactly when no heading skips a level |
| Ancestry.PathIsTrueAncestry | core/src/docrunr/chunk.py:263-277 | without skips, entry k is the latest heading of level k with no shallower one since |
| Ancestry.SectionPathsAreAncestry | core/src/docrunr/chunk.py:237-279 | the same for the states of a whole document |
| SkippedLevels.EnclosingStep | core/src/docrunr/chunk.py:263-277 | a heading encloses what follows until one at its level or above: the next heading cuts the enclosing ones at its level and joins them |
| SkippedLevels.PathsAreAncestryIffSafe | core/src/docrunr/chunk.py:263-277 | every recorded path is the titles of the enclosing headings exactly when each heading is deeper than all that truncation keeps |
| SkippedLevels.SectionPathsAreAncestryIff | core/src/docrunr/chunk.py:237-279 | the same for the states of every document |
| SkippedLevels.NeverSkippingIsSafe | core/src/docrunr/chunk.py:263-277 | headings that never skip a level meet the condition |
| SkippedLevels.SiblingsNestAfterSkip | core/src/docrunr/chunk.py:269-270 | the document on which siblings nest, because truncation is by level and not by depth |
| SkippedLevels.SkippingCanBeHarmless | core/src/docrunr/chunk.py:269-270 | a document that skips a level and keeps its paths right |
| Chunker.SplitOnSectionBoundaries | core/src/docrunr/chunk.py:282-302 | the seeds, proved equal to their specification |
| ChunkOrder.SeedsAreSections | core/src/docrunr/chunk.py:282-302 | the seeds tile the document and no heading starts inside one |
| Chunker.Enforce | core/src/docrunr/chunk.py:499-530 | the second cap check, proved equal to its specification |
| Chunker.ChunkMarkdown | core/src/docrunr/chunk.py:126-175 | the whole loop, proved equal to its specification |
| Chunker.AppendChunks | core/src/docrunr/chunk.py:162-172 | appending with the set of seen texts, proved equal to its specification |
| ChunkProperties.NormalizeSpanSpec | core/src/docrunr/chunk.py:486-548 | a trimmed span is the stripped slice at its new offsets, and is dropped only when blank or of zero tokens |
| Text.NormalizeAtFirstCr | core/src/docrunr/chunk.py:551-553 | newline normalisation from the first carriage return on: a CR LF pair and a lone CR both become one LF |
| ChunkOrder.FinalSpansOrderedAndPure | core/src/docrunr/chunk.py:152-161 | final spans are in order, disjoint, in bounds and within one section each |
| ChunkOrder.ChunksCapped | core/src/docrunr/chunk.py:152-172 | for every counter each chunk has at most the maximum of tokens or is one character |
| ChunkOrder.ChunksPure | core/src/docrunr/chunk.py:162-170 | a chunk's recorded path is the path of every offset in it, carriage returns and re-splits included |
| ChunkOrder.ChunksOrdered | core/src/docrunr/chunk.py:152-172 | chunks come in order and do not overlap |
| ChunkOrder.ChunksAreMadeFromSpans | core/src/docrunr/chunk.py:190-225 | the chunks are those of the kept spans, in order |
| ChunkOrder.ChunkTellsItsSpan | core/src/docrunr/chunk.py:205-225 | chunk i is numbered i and carries the text, token and character counts, offsets and path of its span |
| ChunkOrder.DroppedSpansAreDuplicates | core/src/docrunr/chunk.py:200-203 | a span that gives no chunk repeats a chunk in text and path |
| Lossless.FinalSpansCover | core/src/docrunr/chunk.py:126-175 | without CR LF pairs the gaps between final spans are whitespace |
| Lossless.LosslessIff | core/src/docrunr/chunk.py:499-530 | for every source the final spans cover the document exactly when no span over the cap was shortened by normalisation |
| Lossless.ResplitLosesLast | core/src/docrunr/chunk.py:503-517 | when one was, its last visible character is lost |
| Lossless.ChunkingIsLossless | core/src/docrunr/chunk.py:108-175 | without carriage returns every chunk is its slice of the document and every visible character is in a chunk, or in a span that repeats one |
| GoodTokenizers.NoResplit | core/src/docrunr/chunk.py:499-501 | for a well-behaved counter the second check returns its argument throughout |
| GoodTokenizers.SplitIsWithinMax | core/src/docrunr/chunk.py:453-462 | when single characters fit, splitting leaves nothing above the maximum, so packing never takes its forced branch |
| GoodTokenizers.PackedWithinMax | core/src/docrunr/chunk.py:429-483 | for a well-behaved counter every packed span is within the maximum before trimming |
| GoodTokenizers.LosslessForEverySource | core/src/docrunr/chunk.py:108-175 | for a well-behaved positive counter no source loses visible text |
| GoodTokenizers.CrLfCanLoseText | core/src/docrunr/chunk.py:108-175 | a document and a counter on which the re-split loses the last letter, and the one chunk that is left |
| Handler.EveryJobIsAnswered | worker/src/docrunr_worker/handler.py:150-288 | whatever happens the result names the request's job, has paths exactly for ok and an error exactly otherwise |
| Handler.ApiJobsParse | runtime/src/docrunr_runtime/messages.py:96-136 | the worker reads back the job the API wrote |
| Handler.ParsesIff | worker/src/docrunr_worker/handler.py:99-134 | a body, whatever it decodes to, is accepted exactly when it is an object with visible identifiers, and options and a priority in range where given; and how each field is then read |
| Handler.FollowUpParsesBack | worker-llm/src/docrunr_worker_llm/handler.py:53-65 | the LLM worker reads back the follow-up the extraction worker wrote |
| Handler.FollowUpReachesTheSameJob | worker/src/docrunr_worker/consumer.py:187-220 | a follow-up is due exactly for a converted job with a profile, what each of its fields holds, and that its result is for the same API job |
| Handler.ConversionReachesTheRow | worker/src/docrunr_worker/handler.py:194-280 | from the conversion to the job's row: artefact paths and figures each in its column, or the reason of the failure |
| Handler.EmbeddingReachesTheRow | worker-llm/src/docrunr_worker_llm/handler.py:125-168 | the same for the embedding and the LLM columns |
| Handler.MalformedDeliveriesDiffer | worker/src/docrunr_worker/handler.py:137-147 | two deliveries of the same malformed bytes are answered for different jobs |
| DeliveryProtocol.AnswerIsForTheJob | worker/src/docrunr_worker/consumer.py:239-253 | result and follow-up are about the delivered job, and the status is ok exactly when a readable job came to something |
| DeliveryProtocol.AckOnlyAfterPublish | worker/src/docrunr_worker/consumer.py:248-278 | an acknowledgement is tried only after a result or dead-letter publish returned |
| DeliveryProtocol.NackOnlyAfterFailure | worker/src/docrunr_worker/consumer.py:343-383 | a delivery is returned only after an attempt for it failed |
| DeliveryProtocol.SettlesLast | worker/src/docrunr_worker/consumer.py:343-383 | nothing follows a successful settlement, so there is at most one |
| DeliveryProtocol.DeadLetterOnlyRedelivered | worker/src/docrunr_worker/consumer.py:357-366 | only a redelivered message is dead-lettered, unchanged and after a failure |
| DeliveryProtocol.ResultIsTheAnswer | worker/src/docrunr_worker/consumer.py:248-253 | a result is the handler's answer, and a follow-up comes right after its result |
| DeliveryProtocol.DueFollowUpIsNext | worker/src/docrunr_worker/consumer.py:248-253 | once the result is out, a due follow-up is the next thing tried |
| DeliveryProtocol.NoAckBeforeDueFollowUp | worker/src/docrunr_worker/consumer.py:248-278 | no acknowledgement is tried over a due follow-up that was not, unless something else failed |
| LegalRuns.LegalIff | worker/src/docrunr_worker/consumer.py:239-443 | the protocol written out: the legal runs are exactly the beginnings of a successful turn, or of a failure at one of four places followed by one of four remedies |
| DeliveryProtocol.PhaseRemembers | worker/src/docrunr_worker/consumer.py:239-383 | what each phase says about the run that led to it |
| WorkerConsumer.Consumer.Connect | worker/src/docrunr_worker/consumer.py:81-130 | a fresh channel keeps every delivery accounted for |
| WorkerConsumer.Consumer.PersistProcessing | worker/src/docrunr_worker/consumer.py:280-319 | announces, then notes; raises exactly when the announcement does |
| WorkerConsumer.Consumer.PassOn | worker/src/docrunr_worker/consumer.py:187-237 | a due follow-up is published, and its failure stops nothing |
| WorkerConsumer.Consumer.Complete | worker/src/docrunr_worker/consumer.py:239-278 | the attempts it makes, one by one: result, due follow-up, note, acknowledgement, or the result alone when its publish fails |
| WorkerConsumer.Consumer.HandleException | worker/src/docrunr_worker/consumer.py:343-383 | on an open channel a redelivery is offered to the dead-letter queue and a first delivery returned; it ends settled, or raised with its channel closed or its nack failed |
| WorkerConsumer.Consumer.FinishFuture | worker/src/docrunr_worker/consumer.py:393-415 | pops exactly its future, concludes its delivery and no other; a late callback does nothing |
| WorkerConsumer.Consumer.OnFutureDone | worker/src/docrunr_worker/consumer.py:417-443 | schedules exactly when not stopping and everything is open; otherwise drops exactly its own entry |
| WorkerConsumer.Consumer.OnMessage | worker/src/docrunr_worker/consumer.py:454-513 | each message ends settled, pending, or raised with a reason; nobody is forgotten |
| WorkerConsumer.Consumer.Submit | worker/src/docrunr_worker/consumer.py:489-513 | the delivery is pending once the pool took it, and otherwise handled as a failure on the spot |
| WorkerConsumer.Consumer.Drain | worker/src/docrunr_worker/consumer.py:445-452 | without an exception nothing is pending and everything that was is settled |
| WorkerConsumer.Consumer.Stop | worker/src/docrunr_worker/consumer.py:546-558 | the same for stop, which also closes the connection |
| WorkerConsumer.Consumer.TraceIsSafe | worker/src/docrunr_worker/consumer.py:343-452 | the safety theorems for every delivery in any reachable state of a worker |
| WorkerConsumer.Consumer.TraceIsATurn | worker/src/docrunr_worker/consumer.py:239-452 | in any reachable state of a worker the attempts for a delivery are those of one turn, as far as it got |
| OutboxOrder.PendingFollowsThePrefix | api/src/docrunr_api/repository.py:105-112 | while marks form a prefix the query returns the next rows in order |
| OutboxOrder.FirstPublishesInOrder | api/src/docrunr_api/broker.py:105-120 | every marked row was enqueued, and every row only after all earlier ones |
| ApiService.JobRepository.CreateJob | api/src/docrunr_api/repository.py:63-99 | job and outbox row, or neither; an existing id is refused |
| ApiService.JobRepository.MarkPublished | api/src/docrunr_api/repository.py:114-119 | marks one row and changes nothing else |
| ApiService.JobRepository.ApplyLifecycle | api/src/docrunr_api/repository.py:149-162 | the update, equal to the projection of a lifecycle message |
| ApiService.JobRepository.ApplyExtractionResult | api/src/docrunr_api/repository.py:164-190 | the update, equal to the projection of an extraction result |
| ApiService.JobRepository.ApplyLlmResult | api/src/docrunr_api/repository.py:192-216 | the update, equal to the projection of an LLM result |
| ApiService.BrokerBridge.FlushOutbox | api/src/docrunr_api/broker.py:105-120 | publishes and marks the next rows in order; a failure leaves at most one enqueued row unmarked |
| ApiService.BrokerBridge.Consume | api/src/docrunr_api/broker.py:139-146 | projects and acknowledges, or discards and changes nothing |
| ApiService.Api.WaitPublished | api/src/docrunr_api/broker.py:49-57 | an answer of true means the job's message was enqueued |
| ApiService.Api.SubmitDocument | api/src/docrunr_api/app.py:157-212 | which reply comes when, exactly; file and job are kept or dropped together, and success means that the job was enqueued and marked |
| Projection.ProjectionIsConfluent | api/src/docrunr_api/repository.py:149-216 | the row depends only on the last extraction result, the last LLM result and whether a start was seen, and holds their fields column by column |
| Projection.LlmColumnsTell | api/src/docrunr_api/repository.py:192-216 | for every history the LLM columns are those of the last LLM result, or the initial ones |
| Projection.LastResultTellsTheEnd | api/src/docrunr_api/repository.py:164-216 | for every history the completion time is that of the last result |
| Projection.FirstStartTellsTheBeginning | api/src/docrunr_api/repository.py:149-190 | for every history the start time is that of the first start, or the creation when a result came without one |
| Projection.SameFactsSameRow | api/src/docrunr_api/repository.py:149-216 | histories that agree on these leave equal rows, timestamps aside |
| Projection.ApplyAdvances | api/src/docrunr_api/repository.py:149-216 | one message touches one job, keeps terminal states and writes a start once |
| Projection.HistoryAdvances | api/src/docrunr_api/repository.py:149-216 | no history makes a row regress |
| Projection.ResultEndpointTellsTheState | api/src/docrunr_api/app.py:280-299 | with worker-built results a path is set exactly for succeeded jobs, as the result endpoint assumes |
| Projection.ResultStateRightIff | api/src/docrunr_api/app.py:297-299 | the hard-coded state is right exactly when paths come only with ok |
| Projection.ForeignResultMisleads | api/src/docrunr_api/app.py:297-299 | a result of another shape makes the endpoint call a failed job succeeded |
| Inbound.StepKeepsResults | api/src/docrunr_api/broker.py:139-146 | a published result stays queued, in flight, projected or discarded |
| Inbound.StepKeepsValid | api/src/docrunr_api/broker.py:139-146 | every step keeps the inbound invariant, acknowledged results being projected ones |
| Stages.StepKeepsMessages | worker/src/docrunr_worker/consumer.py:239-383 | a message leaves its queue only when its job has a result or a dead-letter copy |
| Stages.StepKeepsValid | worker/src/docrunr_worker/consumer.py:239-383 | a worker past its publish has left that evidence behind |
| Stages.DeadLettersGrow | worker/src/docrunr_worker/consumer.py:143-164 | dead-letter copies stay, one for each publish that reached the broker |
| Pipeline.JobsAreConserved | api/src/docrunr_api/broker.py:59-146 | in every run each committed job has an unpublished row, a queued message, a dead-letter copy or a result somewhere |
| Pipeline.FollowUpsAreConserved | worker/src/docrunr_worker/consumer.py:187-237 | the same for follow-ups, none of which comes before its extraction result |
| Pipeline.OutboxIsPublishedInOrder | api/src/docrunr_api/broker.py:105-120 | in every run, crashes included, marks are a prefix and first publishes are in creation order |
| Pipeline.EndpointIsRight | api/src/docrunr_api/app.py:280-299 | in every run a path is recorded exactly for succeeded jobs |
| Pipeline.MessagesHaveJobs | worker/src/docrunr_worker/consumer.py:133-141 | in every run a queued result or lifecycle message is about a committed job |
| Pipeline.RowsOnlyAdvance | api/src/docrunr_api/repository.py:149-216 | from any point of a run to any later one no row regresses or disappears |
| Pipeline.RunsAreValid | api/src/docrunr_api/broker.py:59-146 | every reachable state satisfies the invariant |
| Pipeline.SubmittedJobIsRead | api/src/docrunr_api/app.py:190-209 | a submission adds one row to the table and one to the outbox, and the worker reads from the latter the job of the former |
| Pipeline.AnnouncementStartsTheJob | worker/src/docrunr_worker/consumer.py:280-319 | a worker's announcement, once projected, shows a queued job as started when the worker says |
| Causality.LlmResultsComeLast | worker/src/docrunr_worker/consumer.py:187-253 | in every run an LLM delivery, dead letter or result comes only after the follow-up, that after the extraction result, that after the enqueue |
| Causality.NothingBeforeTheEnqueue | api/src/docrunr_api/broker.py:105-120 | in every run, until its outbox row is enqueued, no delivery, dead letter, message or follow-up is about a job and its row is as submitted |
| Causality.StepKeepsCaused | api/src/docrunr_api/broker.py:59-146 | every step of the system keeps causes before their effects |
| JobStatus.CountsIff | worker/src/docrunr_worker/job_status.py:16-53 | closed form of the latch for all statuses |
| JobStatus.CountsIffKnown | worker/src/docrunr_worker/job_status.py:16-53 | an event counts exactly when terminal and first, or after a processing that does not follow an ok |
| JobStatus.CountedIffEnded | worker/src/docrunr_worker/job_status.py:16-53 | a job is counted exactly when some event ended it |
| JobStatus.CountsOnceIff | worker/src/docrunr_worker/job_status.py:16-53 | for every history, a job counts at most once exactly when no event ends an attempt, other than a replay, of a job that had ended before |
| JobStatus.AgainIffKnown | worker/src/docrunr_worker/job_status.py:16-53 | for the worker's statuses that condition reads off three neighbouring events and an earlier end |
| JobStatus.RetriesCount | worker/src/docrunr_worker/job_status.py:16-53 | over whole attempts a job counts once, and once more per failed attempt that was followed by another |
| JobStatus.AttemptsCountOnceIff | worker/src/docrunr_worker/job_status.py:16-53 | so a job counts at most once over whole attempts exactly when no attempt but the last failed |
| JobStatus.RepeatedStartCountsTwice | worker/src/docrunr_worker/job_status.py:37-51 | a job whose start is repeated after an ok counts twice, its last event being one the condition excludes |
| JobStatus.FailedReplayCountsTwice | worker/src/docrunr_worker/job_status.py:37-51 | so does one whose replay fails before it succeeds |
| JobStore.StoreIsReadOffHistories | worker/src/docrunr_worker/job_store.py:264-349 | totals are the sums and the maximum over exactly the events that count; rows carry their history's status and latch |
| StoreTotals.StoreTellsItsEvents | worker/src/docrunr_worker/job_store.py:264-349 | for every list of events the totals are the numbers of counted ok and error events, the ok durations summed, and the latest finish of a counted event |
| StoreTotals.LastAtIsLatest | worker/src/docrunr_worker/job_store.py:326-337 | the last job's time is the finish of some counted event and at least that of every one, and is empty exactly when none counts |
| StoreTotals.EventIsRead | worker/src/docrunr_worker/job_store.py:564-617 | how an event's texts and times are read, defaults included |
| StoreTotals.RowShowsItsLastEvent | worker/src/docrunr_worker/job_store.py:237-268 | a row shows its last event's status, duration, details and finish, in terms of the event as it came |
| StoreTotals.RowShowsItsReceipt | worker/src/docrunr_worker/job_store.py:256-259 | and the receipt of its last start, or of its first event |
| JobStore.RowTellsItsLastEvent | worker/src/docrunr_worker/job_store.py:237-268 | a row has the status and finish of its last event |
| JobStore.RowTellsItsReceipt | worker/src/docrunr_worker/job_store.py:256-259 | a row's receipt is that of its last start, or of its first event |
| JobStore.ApplyConcat | worker/src/docrunr_worker/job_store.py:277-324 | applying two runs of events is applying their concatenation |
| JobWriter.ApplyBatch | worker/src/docrunr_worker/job_store.py:270-349 | the transaction with its local sums equals the events one at a time |
| JobWriter.SQLiteJobStore.FlushBatch | worker/src/docrunr_worker/job_store.py:233-351 | a committed batch applies its events, a failed one changes nothing |
| JobWriter.SQLiteJobStore.WriterLoop | worker/src/docrunr_worker/job_store.py:191-231 | every event queued by the end was flushed once and in order; if all batches commit, the cuts leave no trace |
| JobWriter.BatchingIsInvisible | worker/src/docrunr_worker/job_store.py:191-231 | committed batches equal their concatenation |
| WorkerMemory.WorkerStats.RecordJob | worker/src/docrunr_worker/health.py:161-201 | the memory path, equal to its specification |
| WorkerMemory.WorkerStats.UpsertMemoryJob | worker/src/docrunr_worker/health.py:203-212 | the merge of an event into its row |
| WorkerMemory.MemoryRefinesStore | worker/src/docrunr_worker/health.py:161-201 | for well-formed events memory and store agree on totals, statuses and latches after every event |
| WorkerMemory.MemoryAgreesIff | worker/src/docrunr_worker/health.py:161-212 | for every list of events memory and store agree after each one exactly when each has an unpadded or no identifier, and an unpadded status or none after an unknown one |
| WorkerMemory.StepAgreesIff | worker/src/docrunr_worker/health.py:161-212 | the same for one event on agreeing contents |
| WorkerMemory.PaddedStatusDisagrees | worker/src/docrunr_worker/health.py:179-192 | a first event with a clean identifier and a known status agrees exactly when its status has no surrounding whitespace |
| Fences.SplitLinesIntoBlocks | core/src/docrunr/clean.py:303-349 | the loop returns the lines, cut so that open blocks hold no opener and are never adjacent and fenced ones end at their first closer |
| Fences.SplitIsUnique | core/src/docrunr/clean.py:303-349 | only one cut of the lines has these properties |
| Fences.SplitFencedBlocks | core/src/docrunr/clean.py:303-342 | the block texts make up the text |
| Fences.CleanBlocks | core/src/docrunr/clean.py:16-33 | the loop over the blocks, proved equal to its specification |
| Fences.CleanMarkdown | core/src/docrunr/clean.py:12-35 | the output is that of the one way of cutting the text: fenced blocks as they are, the rest through the passes, the whole stripped |
| Fences.SplitsIntoOne | core/src/docrunr/clean.py:303-342 | a text has one cut into blocks |
| Fences.CodeSurvives | core/src/docrunr/clean.py:12-35 | every fenced block survives cleaning, to the letter unless it is at an end |
| Fences.ProseIsPassed | core/src/docrunr/clean.py:12-35 | what the passes make of every other block survives in the same way |
| Fences.WithoutFences | core/src/docrunr/clean.py:12-35 | a text without fences becomes what the passes make of it, stripped and ended by a newline |
| LinePatterns.OpenerIff | core/src/docrunr/clean.py:300 | an opener is blanks and the whole of a run of three or more backticks or tildes |
| LinePatterns.ClosesIff | core/src/docrunr/clean.py:345-349 | a closer is a run of the same character, at least as long, between whitespace |
| ListRepair.RepairLines | core/src/docrunr/clean.py:175-247 | the loop with its index helpers, proved equal to its specification |
| ListRepair.ListContinuationIndent | core/src/docrunr/clean.py:210-233 | the indent, in terms of the visible neighbours |
| ListRepair.BlankLinePrecedesListContinuation | core/src/docrunr/clean.py:196-207 | the blank-line test, in terms of the visible neighbours |
| ListRepair.RepairListContinuations | core/src/docrunr/clean.py:175-193 | the pass on texts, proved equal to its specification |
| ListRepair.RepairOfTexts | core/src/docrunr/clean.py:175-254 | for every text repairing twice is repairing once, and the visible lines keep their words and order |
| ListRepair.RepairIsIdempotent | core/src/docrunr/clean.py:175-254 | the same for lines, after any preceding line |
| ListRepair.RepairKeepsWords | core/src/docrunr/clean.py:175-193 | only indentation and blank lines change |
| ListRepair.UnchangedIff | core/src/docrunr/clean.py:175-254 | a document is left alone exactly when no line in it is torn from its list |
| ListRepair.RepairMends | core/src/docrunr/clean.py:175-254 | nothing is torn after the repair |
| ListForm.RepairedIsReference | core/src/docrunr/clean.py:175-254 | closed form of the whole pass: a line moves exactly when it continues an item, to two columns beyond that item's indentation, and the blank lines before it go |
| LinePatterns.ItemIff | core/src/docrunr/clean.py:172 | a list item is whitespace, a bullet or a number, whitespace and something more |
| LinePatterns.BoundaryIff | core/src/docrunr/clean.py:250-254 | a boundary starts with one of the five marks or is a separator |
| LinePatterns.SeparatorIff | core/src/docrunr/_clean_toc.py:44-49 | a separator is three characters wide or more and holds marks and spaces only |
| Multipart.ParseMultipartFileParts | worker/src/docrunr_worker/uploads.py:74-112 | the parser, proved equal to its specification |
| Multipart.ParseContentDispositionHeaders | worker/src/docrunr_worker/uploads.py:59-71 | the header loop, proved equal to its specification |
| MultipartRoundTrip.QuotableIff | worker/src/docrunr_worker/uploads.py:29 | exactly the names in which every quote is escaped and no backslash is left over reach to the closing quote |
| MultipartRoundTrip.UnclosedIsFound | worker/src/docrunr_worker/uploads.py:46-56 | a quoted name that ends in a lone backslash is found by the other pattern, and loses its quotes there |
| MultipartRoundTrip.PlainIsQuotable | worker/src/docrunr_worker/uploads.py:29 | names without quotes and backslashes are among them |
| MultipartRoundTrip.UploadsAreRead | worker/src/docrunr_worker/uploads.py:33-112 | any form is read back from its request, whatever its contents end with: files in order and unchanged, other fields and unnamed parts skipped, names quoted or bare, lines ended by CR LF or LF, the boundary quoted or not |
| MultipartRoundTrip.PartIsRead | worker/src/docrunr_worker/uploads.py:80-111 | one part is read back as its file, or skipped |
| MultipartRoundTrip.HeaderIsRead | worker/src/docrunr_worker/uploads.py:46-71 | the header yields its field and filename |
| MultipartRoundTrip.BoundaryIsRead | worker/src/docrunr_worker/uploads.py:33-43 | the boundary is read from the content type, in quotes or without |
| MultipartRoundTrip.BoundaryIff | worker/src/docrunr_worker/uploads.py:33-43 | a content type has a boundary exactly when it is a form's and some parameter names one, and the first such counts |
| MultipartRoundTrip.LastNameCounts | worker/src/docrunr_worker/uploads.py:59-71 | whatever other lines a header has, the last line that tells a name counts |
| MultipartRoundTrip.LastFilenameCounts | worker/src/docrunr_worker/uploads.py:59-71 | the same for the filename |
| MultipartRoundTrip.FilenameIsNoName | worker/src/docrunr_worker/uploads.py:28 | the `name=` inside a `filename=` is no field name |
| Utf8.DecodesIff | worker/src/docrunr_worker/uploads.py:94-97 | exactly the encodings of texts are decoded, each to its text |
| MultipartRoundTrip.SplitOfRender | worker/src/docrunr_worker/uploads.py:77-78 | the body falls into its parts |

## Left out

- Tokenizer, hashes, chunk ids, log statistics and the configuration's error messages: the counter is a parameter, and `Splitting.Config.Valid` stands for a configuration that was accepted.
- The regular-expression passes of `clean.py`, table cleaning and `_clean_toc.py`: `Fences.CleanMarkdown` takes them as one function.
- Agreement of the two fence recognisers: they differ on indentation and on what closes a fence, so none is claimed.
- Regular expressions are recognisers with the same matches; case-insensitive matching folds ASCII letters only, so the dotted and dotless i and the long s, which Python also folds, are not modelled.
- The classes of digits and letters outside ASCII are parameters of the list and upload models.
- pika, SQLite, FastAPI, threads and process pools: queues are multisets with a redelivered flag, a table update is atomic, and concurrency is the interleaving of steps or of method calls.
- A publish of a worker that returns is taken to be enqueued, since its channel does not use publisher confirms; settlements may be lost even when they return.
- A mandatory publish that cannot be routed, and messages that other producers put on the queues.
- `JobRepository.delete_job` is not part of the model: nothing calls it, so outbox ids are positions.
- The non-object result payload of the consumer: the handler always builds an object, so the branch that replaces it is not modelled.
- Liveness, timeouts by signal, heartbeats, wall-clock time: times are natural numbers, and the writer's idle polls are finite in number.
- Float rounding of durations: they are exact numbers. Storage backends, sessions, HTTP servers, health probes, embeddings and LiteLLM calls.
- The LLM worker's own job store, statuses and stats, and schema migrations: the same logic with other columns.
- The second set of default times in `enqueue_job`: `WorkerMemory.Stamp` has already filled them in for every event that comes through `record_job`.
- The order in which a dictionary lists its futures: the drain takes them in any order.
- Fields of a result that neither the projection nor the follow-up reads (file size, MIME type, duration), and the artefact paths beyond their suffixes.
