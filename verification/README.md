# A verified model of the market-data replay service

The service replays recorded market data (depth updates and aggregate trades) from JSONL or CSV files. It
checks that every symbol's ids and times run on without gaps, stores checkpoints while it works, and resumes
from them after a failure. This project models that core in Dafny and proves what it is for: a resumed replay
reports exactly the tail of a full one, no line is skipped whatever crashes or overlaps, and the reports built
from the stored rows add up.

Main results, by area:

- **Sequence validator** (`SequenceValidator`, `Projections`, `Resume`, `GapDetection`, `Symbols`, `Counting`). The validator
  is a class with the source's fields, proved against `Emit` (failures of one row) and `Advance` (trackers after
  one row). Trackers are the running maxima of their symbols, and each row's failures are exactly those the rows
  before it give reason for. Priming a prefix leaves exactly the positive part of
  the trackers that processing it would leave. A resume is faithful for every continuation if and only if no
  watched symbol's depth ids in the prefix are all non-positive. No gap and no ordering failure is reported if
  and only if every symbol's ids chain and its times never decrease. Symbols do not influence one another.
- **Job protocol** (`Store`, `Submissions`, `ReplayProtocol`, `NoLineSkipped`, `Completions`, `Cancellation`,
  `Overlap`, `Losses`, `Rework`, `Retry`, `CanceledRetries`, `Exhaustion`, `Frames`, `HandlerSteps`, `Handler`,
  `Deliveries`, `StoredErrors`).
  Each repository call is one atomic step. Any number of attempts, overlapping or not, interleave with cancels,
  faults and crashes. The sequential handler code is proved to perform exactly the steps of its own attempt and to
  touch no other job, so that, for deliveries of any number of jobs handled one after another, what holds of serial
  runs holds of the code (`Deliveries.ProcessTasks`).
- **Workload generator** (`Arithmetic`, `Workload`, `Breaks`, `WorkloadGaps`, `WorkloadLimits`). The output is the
  shortest prefix of the infinite repetition that reaches the byte target, and validating n = q*r + p generated
  rows finds q times the source's gaps plus those of its first p rows.
- **Data plane** (`Text`, `Parser`, `Readings`, `Kafka`, `Rejections`). An object or CSV row is parsed to an event if
  and only if it says that event, field by field. Printing and parsing an event round-trips if and only if its price
  levels are filled and a depth event's update ids are non-zero. Legacy JSON fields and CSV rows are read as the
  current JSON form that says the same. Validated messages of one symbol never overlap or run backwards, and the
  text of every rejection follows from the accepted messages before it.
- **Reports** (`Summaries`, `Reports`) and **pacing** (`Pacing`). The two-level merge of error summaries is the
  flat grouping of all errors; lineage lists each job once; the 10x replay sleeps exactly one tenth of the 1x one.

Some properties one might expect are false of the code. For each, the model keeps the code, gives an input on
which the property fails, and states exactly when it holds:

- A resume need not agree with the full run. `Prime` reads a missing tracker as 0, `Process` tests for presence;
  `docs/ARCHITECTURE.md:108` says update ids must be positive, but the shape check does not enforce it for depth
  events (`internal/parser/jsonl.go:93`). `Resume.LostTrackerShows`, `Resume.ResumeFaithfulIffPrimable`.
- A cancel need not last, because status writes are unconditional. It is never overwritten if and only if every
  attempt is at its first check or has ended (`Cancellation.CancelSticksIff`). A canceled attempt never finishes
  if and only if it has a status check ahead that nobody can spoil (`Cancellation.CancelStopsAttemptIff`). With
  redelivery, a failure recorded over the cancel is retried and the job can still be completed:
  `CanceledRetries.CanceledThenCompleted` and, exactly, `CanceledRetries.CancelHoldsIff`.
- Overlapping deliveries can complete a job more than once: `Overlap.OverlapCompletesTwice`, and exactly as often
  as there are attempts that are neither over nor failing, `Overlap.CompletionsPossible`.
- A completed job need not hold the failures of its file. A later attempt does not store failures found before its
  checkpoint (by design, `docs/OPERATIONS.md:110`); in particular, after a crash between the final checkpoint and the
  completion the retry stores none at all: `Losses.LostAll`, for every file. Every completion holds the full report
  if and only if that report is empty (`Losses.NothingEverLostIff`), or, under the queue's rule, also if a task is
  never retried (`Losses.QueueLosesIff`). `Completions.NothingLostIff` is the same for one given completion.
- An exhausted task need not leave its job settled: `Exhaustion.StuckRunning`, `Exhaustion.SettledIff`.
- A stored job need not have a task: `Submissions.JobCanBeStranded`, `Submissions.HasTaskIff`.
- Generated workloads are not always in order: sources whose ids the generator does not shift
  (`WorkloadLimits.LegacyLineTwice`, `WorkloadGaps.UnshiftedDepth`, `WorkloadGaps.LegacyDepth`,
  `WorkloadGaps.UnshiftedTrades`, and for a single legacy line among others `WorkloadGaps.LegacyLineReached`) and
  trades timed by event_time (`WorkloadLimits.TimedTradesThrice`, `WorkloadGaps.TimedTradeGaps`).
- An event with a zero update id or an empty price level does not survive being published:
  `Parser.ZeroIdIsLost`, `Parser.RoundTripIff`.
- A summary's first line is not the smallest one when zero lines occur, and then depends on how errors are spread
  over jobs: `Summaries.ZeroLineIsForgotten`, `Summaries.LevelsForgetDifferently`, `Summaries.FirstLineIsLeastIff`.

## Model

| member | source | states |
|---|---|---|
| SequenceValidator.Validator.constructor | internal/validate/validator.go:23-34 | a fresh validator has seen nothing and tracks nothing |
| SequenceValidator.Validator.AddFailure | internal/validate/validator.go:165-172 | one failure is appended and the three counters again equal the numbers of logged failures of their kinds |
| SequenceValidator.Validator.CheckTime | internal/validate/validator.go:123-133 | an ordering failure exactly when time falls below the symbol's tracker; the tracker becomes the maximum |
| SequenceValidator.Validator.CheckDepthSequence | internal/validate/validator.go:135-148 | gap and ordering failures against the symbol's last final id; the tracker becomes the maximum |
| SequenceValidator.Validator.CheckTradeSequence | internal/validate/validator.go:150-163 | the same for trade ids |
| SequenceValidator.Validator.CheckEvent | internal/validate/validator.go:82-89 | the time check comes first, then the check of the event's own kind; nothing else changes |
| SequenceValidator.Validator.ProcessEvent | internal/validate/validator.go:80-89 | a selected event is counted for its symbol and then checked |
| SequenceValidator.Validator.Process | internal/validate/validator.go:67-90 | the whole new state for malformed, filtered and selected rows, with counters equal to logged failures per kind |
| SequenceValidator.Validator.Prime | internal/validate/validator.go:92-116 | only trackers move, with a missing tracker read as zero |
| SequenceValidator.Stream | internal/validate/validator.go:53-65 | a whole stream gives the row count, selected-event count, failures and trackers of `Report`, and each watched symbol's event count is that of the run filtered to it |
| SequenceValidator.TallyCounts | internal/validate/validator.go:80-81 | a symbol's count in a run that selects it is the event count of the run filtered to it |
| Counting.SelectedAreCounted | internal/validate/validator.go:75-81 | the event count of a run is the number of decoded rows of the filtered symbol |
| Counting.KindsAreCounted | internal/validate/validator.go:67-163 | the count of a kind is the number of logged failures of that kind |
| Counting.TypesAreCounted | internal/worker/handler.go:364-376 | the count of a type is the number of stored errors of that type |
| Counting.RejectedAreCounted | internal/kafkastream/validator.go:102-124 | the count of rejections is the number of messages on the error topic |
| SequenceValidator.KindsAddUp | internal/validate/validator.go:67-163 | malformed, gap and ordering counts partition the failure log |
| SequenceValidator.AdvanceAppend | internal/validate/validator.go:67-163 | trackers after a concatenated stream are those of the second part started from the first |
| SequenceValidator.EmitAppend | internal/validate/validator.go:67-163 | failures of a concatenated stream are the first part's followed by the second's from the trackers reached |
| Projections.TrackersAreMaxima | internal/validate/validator.go:123-163 | in every run each tracker is the largest id or time among its symbol's events, absent exactly when there is none |
| Projections.RowIsDiagnosed | internal/validate/validator.go:67-163 | in every run each row gets exactly the failures the rows before give reason for, with its line, symbol, kind and text: malformed, late, gap, stalled |
| Projections.HiddenSymbolsUntracked | internal/validate/validator.go:75-80 | a filtered-out symbol never enters a tracker |
| Resume.PrimeIsPositivePart | internal/validate/validator.go:92-116 | priming any stream leaves exactly the positive entries of the trackers that processing it leaves |
| Resume.PrimableIsPositive | internal/validate/validator.go:92-148 | priming and processing leave the same trackers if and only if each watched symbol's ids and times include a positive one |
| Resume.ResumeEquivalence | internal/validate/validator.go:67-163 | priming a primable prefix and processing the rest gives the full run's trackers, and exactly the full run's failures and counts minus the prefix's |
| Resume.ShapedPrimable | internal/parser/jsonl.go:77-117 | for shape-checked rows only depth ids can make a prefix not primable |
| Resume.LostTrackerShows | internal/validate/validator.go:92-116 | counterexample: a lost non-positive depth tracker hides a gap that the full run reports |
| Resume.ResumeFaithfulIffPrimable | internal/validate/validator.go:92-148 | a resume agrees with the full run on every continuation if and only if every watched symbol with depth updates in the prefix has a positive final id among them |
| GapDetection.CleanIffOrdered | internal/validate/validator.go:67-163 | no gap and no ordering failure if and only if depth updates chain, trade ids are consecutive and times never decrease, per watched symbol |
| GapDetection.ChainTiles | internal/validate/validator.go:135-148 | chained ranges cover each id from first start to last end exactly once and nothing else |
| GapDetection.CleanRunTiles | internal/validate/validator.go:135-148 | after a clean run a symbol's depth ranges have no hole and no overlap |
| Symbols.SymbolIsolation | internal/validate/validator.go:75-90 | failures attributed to a symbol are those of a run over its events alone |
| Symbols.FilterAgrees | internal/validate/validator.go:75-90 | the unfiltered and the filtered validator log the same failures about the symbol, lines included, and the unfiltered count for it is the filtered event count |
| Symbols.EventsAddUp | internal/validate/validator.go:80-81 | the per-symbol event counts add up to the event count |
| Symbols.TotalsAddUp | internal/validate/validator.go:123-163 | gap and ordering totals are sums over the symbols' separate runs |
| Symbols.InterleavingIrrelevant | internal/validate/validator.go:123-163 | totals do not depend on how symbols and malformed rows are interleaved |
| Text.CanonicalIdempotent | internal/parser/jsonl.go:45 | storing a stored symbol changes nothing |
| Text.CanonicalCapitalizes | internal/parser/jsonl.go:45 | a stored symbol has no small letter and no blank at its ends, is the given text between its outer blanks up to the case of letters, and is the given text itself if that has neither |
| Text.CapitalizedIsCanonical | internal/parser/csv.go:19 | nothing else is such a form of the given text |
| Parser.ParseLevels | internal/event/types.go:21-45 | a level list decodes if and only if each level does, element by element |
| Parser.ValidateShape | internal/parser/jsonl.go:77-117 | the check passes if and only if the event is shaped and its ids were given |
| Parser.ParseObject | internal/parser/jsonl.go:29-75 | a decoded event is shaped, its symbol has no small letter and no outer blank, and it carries the line number; `Readings.ObjectReads` states every field |
| Parser.ParseCsv | internal/parser/csv.go:11-79 | the same for CSV rows; `Readings.RowReads` states every field |
| Parser.LegacyAliases | internal/parser/jsonl.go:38-67 | an object with legacy fields is read exactly as its current form, legacy numbers winning when both are given |
| Parser.CsvAgreesWithJson | internal/parser/csv.go:11-79 | every CSV row is read as the JSON object that says the same, and accepted exactly when that is and a depth row's first id is not zero |
| Parser.LevelsRoundTrip | internal/event/types.go:21-45 | printed levels decode to the same levels if all parts are filled, and are refused otherwise |
| Parser.RoundTripIff | internal/event/types.go:47-61 | parsing a printed event gives the event up to its line if and only if levels are filled and depth ids non-zero; otherwise it is refused; the printed form names the type "depth" or "aggTrade" and omits exactly the zero numbers |
| Parser.ZeroIdIsLost | internal/event/types.go:52-53 | counterexample: a depth object with first id 0 is accepted and its printed form is refused |
| Parser.Decode | internal/parser/parser.go:120-152 | every record carries its line, and a good one holds a shaped event with that line |
| Parser.RecordsNumberedAndShaped | internal/parser/parser.go:120-152 | streams are numbered consecutively after the header and hold only shaped events |
| Parser.Stream.constructor | internal/parser/parser.go:64-82 | a CSV stream starts on line 2, a JSONL stream on line 1, with all records remaining |
| Parser.Stream.Next | internal/parser/parser.go:91-152 | takes the first remaining record and numbers it; end of stream exactly when none remains |
| Readings.LevelsRead | internal/event/types.go:21-45 | levels are read if and only if each is a pair or an object with both parts filled, and then price and quantity are its own |
| Readings.TypeReads | internal/parser/csv.go:81-90 | a type is depth if its trimmed text is "depth" in any case, a trade if it is "aggtrade" or "trade" |
| Readings.ObjectReads | internal/parser/jsonl.go:29-117 | an object is parsed to an event if and only if the event is what the object says, field by field, and acceptable; an object that says none is refused |
| Readings.RowReads | internal/parser/csv.go:11-79 | the same for CSV rows, column by column |
| Readings.SourceReads | internal/parser/parser.go:120-152 | a row of a source becomes a good record if and only if it says that event; blank, unreadable and refused rows become malformed records |
| Kafka.PublishStream | internal/kafkastream/publish.go:37-84 | one message per row, in order, up to the first malformed row, each the printed event on its type's topic under its symbol; the error is that row's reason |
| Kafka.GoodPrefix | internal/kafkastream/publish.go:47-53 | the number of rows before the first malformed one |
| Kafka.StreamValidator.constructor | internal/kafkastream/validator.go:40-54 | starts with an unfiltered validator that has seen nothing |
| Kafka.StreamValidator.RouteError | internal/kafkastream/validator.go:102-124 | exactly one envelope, keyed by the symbol or else by the message key |
| Kafka.StreamValidator.Check | internal/kafkastream/validator.go:84-100 | an accepted event yields one output and trackers advance; if no failure was added the event itself is passed on, otherwise the output is a rejection with the message of the last failure in the validator |
| Kafka.StreamValidator.Process | internal/kafkastream/validator.go:71-100 | each message yields exactly one output, and only accepted ones move the trackers |
| Kafka.RouteCases | internal/kafkastream/validator.go:71-100 | the three ways a message can go: unparsed, on the wrong topic, or validated |
| Kafka.Accept | internal/kafkastream/validator.go:72-83 | an accepted event is parsed and numbered by offset + 1 |
| Kafka.Consume | internal/kafkastream/validator.go:56-69 | a batch yields one output per message, each decided by the messages before it |
| Kafka.ReachedLater | internal/kafkastream/validator.go:84-100 | after an accepted event the trackers never fall below it again |
| Kafka.ValidatedEventsAdvance | internal/kafkastream/validator.go:71-100 | any two validated messages of one symbol have non-decreasing times, disjoint increasing depth ranges and increasing trade ids, whatever came between |
| Kafka.AcceptPublished | internal/kafkastream/publish.go:54-66 | a published event that can be printed is accepted as the same event |
| Kafka.RowOutcome | internal/kafkastream/validator.go:71-100 | a published row that does not survive printing is rejected and moves no tracker; any other is treated as the validator treats it |
| Kafka.ErrorTopicCountsFlaggedRows | internal/kafkastream/validator.go:71-124 | consuming a published file rejects one message per row that does not survive printing and one per surviving row with a failure, and ends with the trackers of the surviving rows |
| Kafka.ErrorTopicCountsFile | internal/kafkastream/validator.go:71-124 | when every row survives printing, the error topic counts exactly the rows of the file with a failure |
| Rejections.AcceptsIff | internal/kafkastream/validator.go:72-83 | a message is accepted as an event if and only if its object says that event and it is on "market.depth.raw" or "market.trade.raw" as the type asks, or on no topic |
| Rejections.UnacceptedRouted | internal/kafkastream/validator.go:72-83 | any other message is rejected with the parser's error under its key, or as on the wrong topic under its symbol |
| Rejections.DepthRouted | internal/kafkastream/validator.go:84-124 | by the trackers: a depth event that does not pass the last id is rejected as stalled, else one that does not continue it as a gap, else a late one for its time, each in an envelope with topic, offset, symbol and payload; any other is passed on |
| Rejections.TradeRouted | internal/kafkastream/validator.go:84-124 | the same for trades |
| Rejections.RejectionIsExplained | internal/kafkastream/validator.go:71-124 | over every run the same in terms of the accepted messages before: their ids and times of that symbol decide the text |
| Workload.NewJsonNormalizer | internal/workload/generator.go:94-120 | enabled if and only if every line is a depth object with integer ids and time; then spans the first to the last line |
| Workload.NewCsvNormalizer | internal/workload/generator.go:229-260 | the same for trade ids and times of CSV rows |
| Workload.Repeat | internal/workload/generator.go:68-81 | terminates; row k is source row k mod r as emitted at k; the output is the shortest that reaches the target |
| Workload.OneCycle | internal/workload/generator.go:69-80 | one pass keeps that and either reaches the target or ends at a cycle boundary |
| Workload.TotalAdds | internal/workload/generator.go:68-81 | the bytes counted are the sum of the sizes of the rows |
| Workload.GenerateJsonl | internal/workload/generator.go:44-83 | fails only for an empty source; otherwise row k is line k mod r with its ids and time moved by k div r whole spans of the source and nothing else changed, or unchanged if the source cannot be shifted, stopping at the target |
| Workload.GenerateCsv | internal/workload/generator.go:165-216 | the same for CSV rows after the header's bytes |
| Breaks.GapsAreBreaks | internal/validate/validator.go:135-163 | for one symbol with increasing ids the validator's gaps are the breaks between neighbouring ranges, whatever the times, and ordering failures occur if and only if a time falls |
| Breaks.RepeatBreaks | internal/workload/generator.go:122-152 | the breaks of a shifted repetition: whole cycles times the source's plus those of the partial cycle |
| Breaks.GapsMultiply | internal/workload/generator.go:122-152 | any stream whose ids cycle through an increasing source has q times its gaps plus those of its first p rows, and ordering failures if and only if its times fall |
| Breaks.RecurringTimesClimbIff | internal/workload/generator.go:262-276 | times repeated unshifted never fall if and only if they stop within the first cycle or never move |
| Breaks.RecurringIff | internal/workload/generator.go:122-152 | ids repeated unshifted give no ordering failure if and only if the stream stops within the first cycle; past it every row is a gap |
| Breaks.StalledRow | internal/validate/validator.go:135-163 | whatever comes between, a range that does not end after an earlier one of its symbol is out of order |
| WorkloadGaps.GeneratedDepthGaps | internal/workload/generator.go:122-152 | for generated depth workloads of any length: gaps multiply exactly and no ordering failure occurs |
| WorkloadGaps.VerbatimRepetition | internal/workload/generator.go:122-130 | rows repeated as they are stay in order if and only if the repetition stops within the source, with the exact gap count |
| WorkloadGaps.UnshiftedDepth | internal/workload/generator.go:94-125 | so do generated lines when the normalizer is off, as for legacy lines |
| WorkloadGaps.LegacyDepth | internal/workload/generator.go:122-152 | and when it is on but every line's ids are legacy numbers |
| WorkloadGaps.LegacyLineReached | internal/workload/generator.go:122-152 | one line with a legacy sequence number in any shifted source is malformed or out of order once reached in the second cycle, and out of order if it has both numbers |
| WorkloadGaps.GeneratedTrades | internal/workload/generator.go:262-276 | for every one-symbol trade source that is shifted, gaps multiply exactly and ordering failures occur if and only if the generated times fall |
| WorkloadGaps.GeneratedTradeGaps | internal/workload/generator.go:262-276 | sources timed by trade_time with non-decreasing times: gaps multiply and no ordering failure occurs at any length |
| WorkloadGaps.TimedTradeGaps | internal/workload/generator.go:262-276 | sources timed by event_time: gaps multiply, and no ordering failure if and only if the output stops within the source or its time never moves |
| WorkloadGaps.UnshiftedTrades | internal/workload/generator.go:229-266 | CSV rows with the normalizer off stay in order if and only if the output stops within the source |
| WorkloadLimits.LegacyLineTwice | internal/workload/generator.go:94-125 | counterexample: a legacy depth line written twice is a gap and out of order |
| WorkloadLimits.TimedTradesThrice | internal/parser/csv.go:25-32 | counterexample: the third row generated from two trades timed by event_time runs backwards |
| Store.ApplyKeepsConsistent | internal/store/memory.go:33-300 | every repository operation keeps the key index exact and every reference resolvable |
| Store.ReachableConsistent | internal/store/memory.go:33-300 | so does every trace of operations |
| Store.LookupEqualsScan | internal/store/memory.go:176-184 | in every reachable state a key lookup finds exactly the job a scan of all jobs finds, or none if there is none |
| Store.OriginIsKept | internal/store/memory.go:198-282 | over every trace a job keeps its id, dataset, file, key, symbol and speed |
| Store.CreatedJob | internal/store/memory.go:133-164 | a created job has its parameters' dataset, file, key, symbol and speed, is queued and untouched, and keeps the five over every later trace |
| Store.StampAll | internal/store/memory.go:271-280 | every stored error keeps line, symbol, type and message, and carries the job id and, if it had no time, the time of storing |
| Store.MemoryRepository.constructor | internal/store/memory.go:22-31 | an empty, consistent store |
| Store.MemoryRepository.CreateDataset | internal/store/memory.go:33-41 | stores the dataset under its id with its name and keeps consistency |
| Store.MemoryRepository.CreateEventFile | internal/store/memory.go:65-85 | refused without its dataset; otherwise the file is stored under its id and consistency kept |
| Store.MemoryRepository.UpdateEventFileStats | internal/store/memory.go:113-131 | rows and bytes if not negative and the hash if not empty are replaced, nothing else changes; refused for an unknown file |
| Store.MemoryRepository.CreateReplayJob | internal/store/memory.go:133-164 | refused for missing references or a taken key, returning the job that has it; otherwise a queued job with the submitted dataset, file, key, symbol and speed, no attempt, no error and checkpoint 0 |
| Store.MemoryRepository.GetReplayJob | internal/store/memory.go:166-174 | the stored job, whose file exists, or not found |
| Store.MemoryRepository.GetReplayJobByIdempotencyKey | internal/store/memory.go:176-184 | found exactly when some job has the key, and then that job |
| Store.MemoryRepository.UpdateReplayJobStatus | internal/store/memory.go:198-220 | status and error are overwritten whatever they were, the attempts grow by one, nothing else changes |
| Store.MemoryRepository.UpdateReplayCheckpoint | internal/store/memory.go:222-234 | the checkpoint becomes the larger of the old and the new line, nothing else changes |
| Store.MemoryRepository.UpdateReplayManifest | internal/store/memory.go:236-246 | the manifest is replaced, nothing else changes |
| Store.MemoryRepository.CompleteReplayJob | internal/store/memory.go:248-282 | status, one metric and the stamped errors are written in one step, nothing else changes |
| Store.MemoryRepository.CancelReplayJob | internal/store/memory.go:298-300 | the status becomes canceled whatever it was |
| Frames.ApplyFrames | internal/store/memory.go:113-282 | an operation on one job leaves other jobs, keys, metrics, errors and other files as they are |
| Submissions.SameKeySameJob | internal/queue/replay.go:73-94 | over every interleaving, all successful submissions made with one key return the same job, and no job is enqueued twice |
| Submissions.LookupNeverFails | internal/queue/replay.go:76-81 | the lookup after a refused creation always finds the job |
| Submissions.NewJobIsAsSubmitted | internal/queue/replay.go:73-94 | over every interleaving a call that created its job returns it, unless the queue fails, with the submitted dataset, file, key, symbol and speed, and the stored job keeps them whatever follows |
| Submissions.JobCanBeStranded | internal/queue/replay.go:86-92 | counterexample: after a failed enqueue the job never gets a task whatever follows, and every later submission with its key returns it |
| Submissions.HasTaskIff | internal/queue/replay.go:86-92 | a stored job has or can still get a task if and only if it has one or a call is about to enqueue it |
| Submissions.StrandedForever | internal/queue/replay.go:73-94 | a job without a task that no call is enqueueing stays so over every continuation |
| Submissions.SubmitRepeated | internal/queue/replay.go:76-81 | an uninterrupted submission with a taken key returns the existing job and changes nothing in store or queue |
| Submissions.SubmitNew | internal/queue/replay.go:73-94 | an uninterrupted submission with a free key stores its job, enqueues it if accepted, and returns it unless the queue fails |
| Submissions.ReplayEnqueuer.EnqueueReplayJob | internal/queue/replay.go:96-103 | one task for the job if the queue accepts it |
| Submissions.ReplayEnqueuer.SubmitReplay | internal/queue/replay.go:73-94 | one call performs exactly the events of its own submission in the interleaved model; a job is stored if and only if dataset and file exist and the key is free, with the submitted fields, and is returned unless the queue fails |
| NoLineSkipped.StepKeepsOk | internal/worker/handler.go:63-299 | every action of any attempt or of the environment keeps the protocol invariant |
| NoLineSkipped.RunMovesForward | internal/store/memory.go:222-234 | over every run the stored checkpoint never decreases and processed lines stay processed |
| NoLineSkipped.NoLineIsSkipped | internal/worker/handler.go:105-134 | over every interleaving each line at or below the checkpoint was processed by some attempt, and a completed job had every line processed |
| NoLineSkipped.ProcessedByReading | internal/worker/handler.go:275-280 | a line counts as processed only when some attempt's validator processes its row |
| Rework.ReworkIsBounded | internal/worker/handler.go:275-291 | over every run an attempt inside the file is fewer than CheckpointEvery rows past the stored checkpoint, or exactly that many when about to write the next one, so that no more is read again |
| Completions.RunKeepsReports | internal/worker/handler.go:105-171 | over every run each attempt's validator is exactly the scan from its resume line, and stored metrics and errors are those of the completions |
| Completions.ScanResumes | internal/worker/handler.go:275-280 | scanning past the resume line is priming the rows up to it and processing the rest |
| Completions.FullRunSplits | internal/worker/handler.go:229-281 | a resumed scan of the whole file reports the full run's failures above its resume line |
| Completions.CompletionIsExact | internal/worker/handler.go:127-171 | over every run metric rows, manifest rows, manifest checkpoint, job checkpoint and the file's row count are the last line, header included; metric and manifest count the stored errors of type "malformed" and "sequence_gap" and the rest are of type "ordering"; each error has line, symbol and message of its failure; with a primable prefix these are the full run's failures above the resume line |
| Completions.NothingLostIff | internal/worker/handler.go:275-280 | of one given completion: it never holds the full report if the full run fails at or below its resume line, and holds it otherwise when the rows up to that line are primable |
| Completions.FinalManifest | internal/worker/handler.go:142-161 | whatever overlaps, a completed job's manifest describes a scan of the whole file |
| Losses.LostAll | internal/worker/handler.go:132-168 | counterexample for every file: a crash after the final checkpoint, and the retry completes the job with no error |
| Losses.CleanStaysClean | internal/worker/handler.go:275-280 | if the full run finds nothing, no resumed scan finds anything, primable or not |
| Losses.NothingEverLostIff | internal/worker/handler.go:105-171 | every completion of every run holds the full run's report if and only if that report is empty |
| Losses.QueueLosesIff | internal/worker/handler.go:105-171 | under the queue's redelivery rule, if and only if it is empty or a task is never retried |
| Cancellation.AtMostOneCompletion | internal/worker/handler.go:74-103 | with non-overlapping deliveries at most one metric is stored, and then the job stays completed or canceled |
| Cancellation.IdleCancelFreezes | internal/worker/handler.go:79-86 | a cancel while every attempt is at its first check or ended freezes status, checkpoint, manifest, metrics, errors and file rows against every later action |
| Cancellation.CancelSticksIff | internal/worker/handler.go:79-101 | a cancel is never overwritten, over all continuations, if and only if every attempt is at its first check or has ended |
| Cancellation.SeenCancelIsOverwritten | internal/worker/handler.go:289-291 | an attempt that sees the cancel ends it as failed or dlq, never canceled, and is not retried |
| Cancellation.CancelBoundsRows | internal/worker/handler.go:276-291 | a cancel after the running write, nobody else being past the first check, lets that attempt process at most CheckpointEvery more rows over every continuation |
| Cancellation.StoppingRun | internal/worker/handler.go:281-291 | an attempt that must stop never finishes, over every continuation with deliveries and overlapping attempts |
| Cancellation.RunsToCompletion | internal/worker/handler.go:229-299 | an attempt that will see no cancel, left alone, completes the job |
| Cancellation.CancelStopsAttemptIff | internal/worker/handler.go:79-171 | after a cancel an attempt never finishes, over all continuations, if and only if it is over or has a status check ahead that no other attempt can spoil |
| Overlap.RunSpends | internal/worker/handler.go:105-171 | without a further delivery each attempt that is neither over nor failing stores at most one metric |
| Overlap.CompletionsPossible | internal/worker/handler.go:79-171 | that bound is reached, unless the job is canceled, or settled with an attempt still at its first check |
| Overlap.AtMostOneMoreIff | internal/worker/handler.go:79-171 | in such states the attempts in flight complete the job at most once more if and only if at most one of them is neither over nor failing |
| Overlap.OverlapCompletesTwice | internal/worker/handler.go:74-103 | counterexample for every file and configuration: two overlapping deliveries complete the job twice |
| Retry.RetriesTerminate | internal/worker/handler.go:378-405 | at most maxRetry + 1 deliveries, delivery k has retry count k, and dlq only after the last one |
| Retry.QueueIsRun | internal/worker/handler.go:378-405 | every run of the queue is a run of the step machine, so that its theorems apply |
| Retry.DeadLetterExactlyAtLimit | internal/worker/handler.go:378-405 | after a recorded failure the status is dlq if and only if the retry count is maxRetry, failed before it, and a failure other than a canceled context below the limit is redelivered |
| Retry.FailingReachesDeadLetter | internal/worker/handler.go:378-405 | if every delivery recorded a failure other than a canceled context, nothing is pending if and only if there were maxRetry + 1 deliveries, if and only if the job is in dlq |
| Exhaustion.SettledIff | internal/worker/handler.go:83-103 | without cancels, an exhausted task leaves its job settled if and only if its last delivery completed it or recorded a failure at the retry limit |
| Exhaustion.StuckRunning | internal/worker/handler.go:91-101 | counterexample for every configuration: a job left running with nothing running and nothing pending |
| CanceledRetries.CancelHoldsIff | internal/worker/handler.go:378-405 | in every state of the queue a cancel prevents every further metric if and only if the last attempt lets it stand: idle, or with a status check ahead and no retry to come |
| CanceledRetries.RetryCompletes | internal/worker/handler.go:383-404 | a failure recorded over a cancel, when retried, ends in a completed job |
| CanceledRetries.CanceledThenCompleted | internal/worker/handler.go:383-404 | counterexample: cancel, fault, retry, completed, from an attempt with a status check ahead |
| Handler.CheckpointAndCheck | internal/worker/handler.go:281-291 | the checkpoint write and status read are two steps of the machine; the checkpoint becomes the larger line and the answer is whether the job is canceled |
| Handler.ProcessRow | internal/worker/handler.go:275-297 | a row is primed or processed, with checkpoint and cancel check at boundaries, as steps of this attempt alone |
| Handler.ScanOne | internal/worker/handler.go:275-297 | one row of the scan keeps the run, the frame and the validator in step |
| Handler.ScanRows | internal/worker/handler.go:229-298 | the loop is a run of this attempt's own steps; at the end the validator holds the scan from the resume line |
| Handler.ProcessFile | internal/worker/handler.go:208-299 | a fresh validator scans the file from the resume line, or the attempt stops with its cause, by its own steps only |
| Handler.ReplayFile | internal/worker/handler.go:117-168 | scanning and saving are a run of this attempt's own steps that ends in an error exactly if interrupted |
| Handler.ToValidationErrors | internal/worker/handler.go:364-376 | one stored error per failure, in order, with its line, symbol, message and type "malformed", "sequence_gap" or "ordering" |
| Handler.SaveCheckpoint | internal/worker/handler.go:132-134 | the final checkpoint is one step of the machine and raises the checkpoint to that line |
| Handler.SaveStats | internal/worker/handler.go:135-141 | so is the update of the file statistics, after which the file has the given row count, hash and size |
| Handler.SaveManifest | internal/worker/handler.go:142-161 | so is the manifest, filled from the validator and the resume line |
| Handler.Complete | internal/worker/handler.go:162-168 | so is storing metric and errors |
| Handler.Finish | internal/worker/handler.go:132-168 | the four writes after the scan are exactly four steps of this attempt and leave a completed job whose checkpoint, manifest, metric and file give the last line, with one error per failure |
| Handler.FailJob | internal/worker/handler.go:378-405 | the failure status and retry decision are the machine's: dlq from the retry limit on, failed below it, retried only below it and not for a canceled context; the error text is stored |
| Handler.RunJob | internal/worker/handler.go:105-171 | one attempt from its second read of the job on is a run of its own steps; it completes the job or, if interrupted, moves nothing but its checkpoint |
| Handler.Attempted | internal/worker/handler.go:91-101 | so is marking the job running, replaying it and recording an error |
| Handler.ProcessTask | internal/worker/handler.go:63-103 | a delivery for an unknown job changes nothing; any other is a delivery followed by steps of that attempt alone, and leaves every other job and file as it was; a settled job stays as it is, an uninterrupted one is completed by a replay from its checkpoint with the file's row count the header and every row, an interrupted one has its failure recorded and no metric |
| Deliveries.DeliverOnce | internal/worker/handler.go:63-103 | a cancel, if one arrives, and then a delivery form one serial run, leave nothing running and touch no other job; without the cancel the store is as the outcome says, after it the job stays canceled and nothing is done |
| Deliveries.ProcessTasks | internal/worker/handler.go:63-103 | deliveries of any number of jobs, with cancels, from any consistent store: each job goes through a serial run of the machine, no job gets a second metric, and exactly the deliveries of unknown jobs are dropped |
| Deliveries.FollowedOnce | internal/worker/handler.go:74-103 | at most one metric per job, and with one the job is completed or canceled, is kept by all of that |
| Deliveries.StoredIsExact | internal/worker/handler.go:127-168 | a fresh job given a metric by the code has exactly one, its checkpoint is the last line, its manifest describes a scan of the file, its errors are those of a scan resumed at some line and its metric counts them by type |
| StoredErrors.CompletionErrorsPlain | internal/worker/handler.go:364-376 | every error of every completion has a NUL-free type and a non-negative line |
| StoredErrors.StoredErrorsPlain | internal/worker/handler.go:364-376 | and so has every error the code leaves in the store for a fresh job |
| Summaries.Join4Injective | internal/store/reports.go:175 | four-part keys collide only for equal groups, whatever the symbols contain |
| Summaries.Join3Injective | internal/store/reports.go:223 | three-part keys of one file collide only for equal groups |
| Summaries.MergeDescribes | internal/store/reports.go:181-193 | merging two correct summaries of a group gives the correct summary of both parts |
| Summaries.OpenedDescribes | internal/store/reports.go:224-252 | the first error of a group opens a correct summary |
| Summaries.AddedOk | internal/store/reports.go:175-194 | adding a chunk's summary to the map accounts for exactly that chunk |
| Summaries.FirstLineIsLeastIff | internal/store/reports.go:182-184 | in every summary the code builds a row's first line is its group's smallest if and only if no error of the group has line 0 or its last one has |
| Summaries.ZeroLineIsForgotten | internal/store/reports.go:240-242 | counterexample: errors on lines 0 and 5 are summarized with first line 5 |
| Summaries.LevelsForgetDifferently | internal/store/reports.go:181-184 | counterexample: lines 3 and then 0, 5 of two jobs merge to first line 3, one pass gives 5 |
| Summaries.CountsAddUp | internal/store/reports.go:155-196 | counts of a correct summary add up to the number of errors |
| Summaries.SummaryIsUnique | internal/store/reports.go:155-196 | two correct summaries of the same errors agree on every group |
| Reports.Summarize | internal/store/reports.go:216-254 | one job's errors are grouped by type, symbol and day, each group once, with count, line and time ranges, labelled with the job's dataset and file |
| Reports.MergeRows | internal/store/reports.go:174-195 | merging a job's rows accounts for all its errors |
| Reports.BuildErrorSummary | internal/store/reports.go:155-196 | the merged summary is the flat grouping of all errors, each row with its file's path, first lines of groups with a zero line excepted; refused only if a job's dataset or file is missing |
| Reports.BuildGlobalSummary | internal/store/reports.go:155-196 | the summary of a reachable store is never refused and its counts add up to all stored errors |
| Reports.NoErrorLost | internal/store/reports.go:155-196 | its counts add up to the errors stored for the listed jobs |
| Reports.TagAllFields | internal/store/reports.go:216-252 | what is grouped is each stored error under its own type, symbol and day and its job's file, with its own line and time |
| Reports.RowsCountStored | internal/store/reports.go:155-196 | each row counts the stored errors of its type, symbol, file and day over the listed jobs |
| Reports.SummaryIsTotal | internal/store/reports.go:161-169 | in every reachable state every job's dataset and file are found, so that the builder's condition for refusing never arises |
| Reports.QualityIsTotal | internal/store/reports.go:123-153 | in every reachable state a report exists exactly for existing jobs and joins the job with its own dataset, file, metrics and errors |
| Reports.BuildQualityReport | internal/store/reports.go:123-153 | the report of an existing job together with the exact summary of its errors |
| Reports.ErrorTypes | internal/store/reports.go:106-121 | a type is listed if and only if it is not empty and some error has it |
| Reports.BuildLineage | internal/store/reports.go:52-104 | refused only for an unknown dataset; otherwise each file with its jobs, the numbers of their metrics and errors and exactly their non-empty error types |
| Reports.LineageIsExact | internal/store/reports.go:52-104 | in every reachable state each job whose dataset and file's dataset are the requested one has exactly one place, others none |
| Pacing.Replay | internal/replay/replay.go:55-108 | the replay validates every row and sleeps the total of the matching events' steps |
| Pacing.OneXIsForwardSteps | internal/replay/replay.go:84-108 | for positive times the 1x total is the sum of positive steps |
| Pacing.Telescopes | internal/replay/replay.go:84-108 | for non-decreasing times that sum is last minus first |
| Pacing.FallingCostsNothing | internal/replay/replay.go:84-108 | for times that never rise the sum is 0 |
| Pacing.StepsSplit | internal/replay/replay.go:84-108 | the sum over a time line is the sum up to any point plus the sum from it on |
| Pacing.TenXIsOneTenth | internal/replay/replay.go:100-107 | the 10x total is exactly one tenth of the 1x total, for any times |
| Pacing.PacingIsExact | internal/replay/replay.go:55-108 | all of this for every parsed stream; malformed and filtered rows add nothing |

## Left out

- 64-bit wrap-around: ids, times and line numbers are mathematical integers, also in `last+1` and `cycle*span`.
- Numbers as JSON text: the generator reads and rewrites integers through 64-bit floats, which loses precision above 2^53.
- Text below the level of JSON objects and CSV cells, SHA-256, and byte encodings; a formatted decimal is represented by its value.
- Wording of error messages that embed values; each message is represented by its fixed part.
- Wall-clock, throughput, allocation and timestamp fields of metrics, jobs and manifests; paths, formats and hashes in manifests.
- Row order of reports, lineage and listings: the model states contents, not order.
- Postgres, asynq, Redis and Kafka clients: the in-memory repository gives the semantics, and the queue is reduced to its redelivery rule.
- How a job's symbol filter and file format are chosen; they are part of the protocol's configuration.
- HTTP API, dashboard, observability, command-line programs and benchmarks.
- The package-level `processFile` and `storeMetric` helpers of the worker, which no job path uses.
- Depth sources in which only some lines carry legacy sequence numbers while the normalizer is on: beyond `WorkloadGaps.LegacyLineReached` there is no exact count.
- Text.CanonicalIdempotent: white space and case of ASCII only, not Unicode case folding.
- Parser.Stream.constructor: an unreadable CSV header, which is an I/O failure, is not modelled.
- Parser.Stream.Next: reader failures other than the end of the stream are not modelled.
- Kafka.PublishStream: a failing producer is not modelled; the error is the malformed row's reason without its line prefix.
- Kafka.StreamValidator.RouteError: partition and time of the envelope are not modelled.
- Submissions.ReplayEnqueuer.EnqueueReplayJob: task ids, uniqueness windows and payload encoding are not modelled; the queue's answer is a parameter.
- Workload.NewCsvNormalizer: a cell is represented by its trimmed text, what that reads as, and whether it was padded; a padded number is unreadable to the generator.
- WorkloadGaps.GeneratedDepthGaps: lines in the current field format; the other sources have theorems of their own.
- WorkloadGaps.GeneratedTrades: asks that shifted trade times do not decrease from cycle to cycle unless every row is timed by event_time, because a row shifted to a non-positive time is malformed.
- Handler.ProcessTask: one delivery without interleaved calls of others; interleavings are covered by the step machine that it is proved to follow.
- Overlap.CompletionsPossible: for a canceled job, or a settled one with an attempt still at its first check, only the upper bound `Overlap.RunSpends` is stated, because how many attempts get past the checks then depends on what the others write.
- Overlap.AtMostOneMoreIff: the same states are left to the upper bound.
- Handler.RunJob: an unreadable file and a done context are one interrupt parameter; the store calls of the in-memory repository do not fail for an existing job.
- Reports.BuildErrorSummary: asks that stored types and file ids contain no NUL character and lines are not negative; `StoredErrors` proves this of the errors the handler stores, and file ids come from a generator outside the model.
- Reports.BuildGlobalSummary: the same condition on the store.
- Reports.BuildQualityReport: the same condition on the store.
- Reports.BuildLineage: the error types of a job are a set; the source lists them sorted.
