# Verification model of the packet and dead-letter triage service

A Dafny 4.11 model of the service's stateful core and of its text algorithms, with proofs. `dafny verify
dfyconfig.toml` checks all of it. Paths below are relative to the repository root.

| module | models |
|---|---|
| `OffsetTracking`, `MessageHandlers` | the consumer's offset tracker (a class over two dictionaries), the message handlers and the rebalance listener |
| `AbandonedOffsets` | histories of one tracker with and without an offset that is abandoned in the end |
| `CommitProtocol`, `StrayCompletions` | a consumer group as a state machine: members, ownership periods, jobs, commits in flight, the broker; safety over every run, exactly when it fails, and runs in which it does |
| `Casebooks`, `TerminalProtocol` | the two status-bearing files of a case, and fetch, investigation, timeout handler and shutdown drain as concurrent actors, one file access a step |
| `DltFindings`, `DltGroups`, `DltLane`, `DltServed` | the dead-letter decision lane: ceilings, fixed treatments, the per-fingerprint group, the replay gate, one analysis, runs of many, and where a served finding comes from |
| `ContextSelector`, `LineStream` | the grep-style context selector and the chunk-to-line reader |
| `TraceLines`, `StackTrace`, `Fingerprint` | the line grammars of a Java stack trace, the chain parser and its inverse layout, the pre-hash text |
| `RedactionPatterns`, `Redaction`, `RedactionCoverage`, `RedactionSegments`, `RedactionTheorems` | substitution of the default patterns, stash / scrub / restore, that nothing any pattern stands for is left, and when the result is the segment-wise one |
| `BreadthFirst`, `RefIdSearch` | breadth-first search in general, and the bounded correlation-id search |
| `PodMerge` | the round-robin merge of several services' pods |
| `RateLimiter` | the sliding-window limiter with eviction |
| `EpochHeaders` | decimal-or-hexadecimal epoch headers |
| `Text`, `Numerals`, `Extrema`, `Collections`, `Options` | Python string operations, numerals, least and greatest elements, laws of sequences and maps, optional values |

## Modelling choices

- Storage, Kafka, HTTP, the cluster and the model are arbitrary outcomes: each is an argument of the operation
  or a choice of the step. Threads are interleaved atomic steps; a method that holds one lock throughout is
  one step. Times and confidences are reals.
- A log is an arbitrary predicate on (partition, offset), so offsets may have gaps. An offset is *settled* when
  its message was forwarded, deliberately skipped, or had its dead-letter publish return.
  `publish_to_dlq` returns normally even when the send failed (`src/utils/dlq_publisher.py:32-54`), so nothing
  here says that a message *is* in the dead-letter queue.
- `NoLossExactly` takes no hypothesis: a run loses no message exactly when no commit of it hands over a position
  with an unsettled message between the period's frontier (the first offset it has not dispatched, 0 where the
  partition is not owned) and that position. `AtLeastOnce` gives a condition on the workers instead of the
  commits: each completion told to the tracker has everything from the frontier up to it settled, as it always
  has when no worker outlives its ownership period (`TimelyIsCovering`). `StrayCompletionLosesExactly` is about
  the next drain only. The source does not ensure the condition: `LateWorkerLosesMessage` and
  `ReturningPartitionLosesMessage` are runs that break it.
- In the file protocol the outcome of an agent run is one of the terminal statuses, the staleness test on an
  IN_PROGRESS file is an arbitrary choice, and any storage call may fault.
- Regular expressions are recognisers over characters. `beyond` stands for the word characters past ASCII.

## Where the code and its documentation disagree

- `take_committable` says that a failed commit leaves its offsets to be retried
  (`src/utils/kafkaConsumer.py:247-248`); it retires them before the broker is called. The model does the same,
  and `PositionsIncrease` shows what saves the day: a later commit covers the lost one.
- Forgetting a revoked partition is documented as keeping this consumer from committing for its next owner
  (`src/utils/kafkaConsumer.py:202-209`). A worker that reports after the revocation makes the entry again:
  `LateWorkerLosesMessage` and `ReturningPartitionLosesMessage`.
- `apply_dlt_confidence_policy` says every ceiling that binds is named (`src/models/dlt_synthesis.py:96-97`);
  it names every ceiling that applies, and so does the model.
- An allowlisted value "must survive" redaction (`src/log_pipeline/redaction.py:108-112`). A text can defeat the
  restoration: `LookalikeIsCorrupted` gives a family of texts with nothing to redact that come back corrupted,
  `RedactionIsSegmentWise` the exact condition, and `PlainTextIsSegmentWise` a check on the text alone.
  The theorems take allowlists whose values hold no NUL and do not occur inside an earlier value's sentinel;
  `UnsoundAllowlistLosesValue` shows what happens to others.
- A Java exception with an empty message is printed `Class: `; the parser then finds no class name
  (`NameSurvivesExactly`). The layout of `ParseInvertsLayout` prints such an exception without the colon.
- The group count is documented as the number of distinct cases; a case that comes back after the member cap
  has pushed it out is counted again (`CountIsDistinctPlusRecounts`).
- A late result is documented as never replacing a protected verdict (`src/api/routes.py:850-855`). It can: when
  the shutdown drain's status file shadows the timeout's casebook (`ShadowedVerdictIsReplaced`), and when the
  timeout's two writes land between the guard and the run's own (`TimeoutBehindTheGuardIsReplaced`).
  `LateResultIsDiscardedExactly` gives the condition for every interleaving: what the guard's reads find, at the
  moment of each read. Nothing written after the last read counts.

## Model

| member | source | states |
|---|---|---|
| OffsetTracking.OffsetTracker.Dispatched | src/utils/kafkaConsumer.py:162-164 | the tracker's value becomes the old one with the offset dispatched |
| OffsetTracking.OffsetTracker.Completed | src/utils/kafkaConsumer.py:166-168 | the offset is marked finished, whether or not it was dispatched |
| OffsetTracking.OffsetTracker.Abandoned | src/utils/kafkaConsumer.py:219-237 | the offset leaves both sets |
| OffsetTracking.OffsetTracker.ForgetPartitions | src/utils/kafkaConsumer.py:202-213 | all entries of the partitions go, all others stay |
| OffsetTracking.OffsetTracker.TakeCommittable | src/utils/kafkaConsumer.py:244-272 | per partition, one past the greatest finished offset below everything running; exactly those offsets are retired |
| OffsetTracking.OffsetTracker.CommittableFor | src/utils/kafkaConsumer.py:170-200 | is the full drain restricted to the partitions; the others keep their entries |
| OffsetTracking.RestrictedDrain | src/utils/kafkaConsumer.py:170-200 | a restricted drain commits what the full drain would for those partitions and leaves the rest untouched |
| AbandonedOffsets.AbandonUndoesDispatch | src/utils/kafkaConsumer.py:219-237 | whatever was dispatched, completed and abandoned in between, abandoning an offset gives the book, and the committable offsets, there would be had it never been dispatched |
| AbandonedOffsets.AbandonedOffsetLeavesNoTrace | src/utils/kafkaConsumer.py:219-272 | drains in between or not, once the offset is abandoned and its partition drained, the greatest position handed over and the offsets tracked are, for every partition, those of the history without it |
| AbandonedOffsets.HandedOverIsRetired | src/utils/kafkaConsumer.py:244-272 | the greatest position the drains hand over is one past the greatest offset they retired |
| MessageHandlers.DlqAndAbandon | src/utils/kafkaConsumer.py:328-339 | the offset is abandoned only after the publish returned; if it raised, the offset keeps holding the floor |
| MessageHandlers.ProcessAndCommit | src/utils/kafkaConsumer.py:342-417 | on every path the tracker records what became of the message: only a held one (its publish raised) stays running, a finished one is completed, an abandoned one gone, nothing else changes; the queue slot is released exactly once |
| MessageHandlers.HandleOneMessage | src/utils/kafkaConsumer.py:420-490 | the offset is dispatched; poison and skip complete it, a failure abandons it once its publish returned, a submitted or held one stays running; no other offset changes; the slot is kept only by a submitted message |
| MessageHandlers.OnPartitionsRevoked | src/utils/kafkaConsumer.py:506-520 | commits the safe floor of the revoked partitions, then forgets them even when the commit fails |
| MessageHandlers.OnPartitionsAssigned | src/utils/kafkaConsumer.py:522-531 | stale entries of gained partitions are dropped, the others stay |
| CommitProtocol.NoLossExactly | src/utils/kafkaConsumer.py:143-272 | for every run: no position at the broker or on its way there ever has an unsettled message below it, if and only if no commit oversteps (leaves an unsettled message between its period's frontier and its position) |
| CommitProtocol.StepSafe | src/utils/kafkaConsumer.py:143-272 | every step of the group keeps the safety invariant, unless it is a commit that oversteps |
| CommitProtocol.CommitPassesExactly | src/utils/kafkaConsumer.py:244-272 | whatever completions were told: everything below a drained position is settled if and only if everything between the frontier and it is |
| CommitProtocol.AtLeastOnce | src/utils/kafkaConsumer.py:244-272 | in every run whose completions have everything from the frontier up to them settled, every message below the broker's position, or below any commit in flight, is settled |
| CommitProtocol.TimelyIsCovering | src/utils/kafkaConsumer.py:202-213 | they always have when workers report within their ownership period |
| CommitProtocol.CommitsAreSettled | src/utils/kafkaConsumer.py:534-543 | whatever a drain hands over, everything below it is settled, when the completions are covered |
| CommitProtocol.PositionsIncrease | src/utils/kafkaConsumer.py:244-272 | within an ownership period the positions handed over strictly increase, so a later commit covers a lost one |
| CommitProtocol.HeldForever | src/utils/kafkaConsumer.py:328-339 | a message whose dead-letter publish raised is never passed by a commit of its ownership period |
| CommitProtocol.ReportedIsCommitted | src/utils/kafkaConsumer.py:244-272 | in every run: once each started message of a partition was forwarded, skipped or dead-lettered and reported, the next drain hands over one past the greatest completed offset and leaves nothing of it tracked |
| CommitProtocol.RunningIsUnreported | src/utils/kafkaConsumer.py:143-168 | while workers report within their period, the tracker's running offsets are exactly the messages started and not reported |
| CommitProtocol.CommittedIsNotFetchedAgain | src/utils/kafkaConsumer.py:522-531 | in every run, an ownership period fetches nothing below the position the broker held at its assignment |
| CommitProtocol.HandleMessage | src/utils/kafkaConsumer.py:342-490 | the poll thread's handler and then the worker's take the tracker where the protocol's run of start, decision and record with the reported fate ends; one slot back; finished only after an answer, a skip or a returned publish |
| StrayCompletions.StrayCompletionOverruns | src/utils/kafkaConsumer.py:166-168 | a completion past the frontier makes the next drain pass it exactly when nothing of the partition is running |
| StrayCompletions.StrayCompletionLosesExactly | src/utils/kafkaConsumer.py:166-168 | the drain straight after a completion passes an unsettled message exactly when nothing is running and a message between the frontier and the completed one is unsettled |
| StrayCompletions.LateWorkerLosesMessage | src/utils/kafkaConsumer.py:202-213 | a run in which a worker reporting after the revocation loses a message |
| StrayCompletions.ReturningPartitionLosesMessage | src/utils/kafkaConsumer.py:522-531 | a run in which a partition comes back to its old owner, an old worker reports behind the floor, and a later drain loses a message |
| Casebooks.CasebookStorage.Save | src/storage/local.py:49-62 | one atomic replacement of one file of one case |
| Casebooks.CasebookStorage.SaveTerminal | src/storage/local.py:64-81 | both files get the status, the casebook first |
| Casebooks.CasebookStorage.TerminalStatus | src/storage/local.py:83-92 | the status of status.json if terminal, else that of casebook.json if terminal, else nothing |
| TerminalProtocol.TerminalIsAbsorbing | src/api/routes.py:505-531 | in every interleaving with stops anywhere, a terminal status.json has a terminal casebook behind it, and once the casebook is terminal a verdict is always visible |
| TerminalProtocol.RunSound | src/api/routes.py:595-637 | every step of every actor keeps that invariant |
| TerminalProtocol.LateStartersWriteNothing | src/api/routes.py:92-118 | a fetch, investigation or drain that begins its checks on a terminal casebook changes neither file |
| TerminalProtocol.GuardEndsRunExactly | src/api/routes.py:856-864 | for every interleaving, the guard ends the run if and only if status.json was protected at the first read, or was not terminal then and casebook.json is protected at the second |
| TerminalProtocol.GuardGivesWay | src/api/routes.py:850-864 | in the words the files use: it gives way to FAILED_TIMEOUT and DLQ alone, in status.json, or in casebook.json behind a status.json without a verdict |
| TerminalProtocol.LateResultIsDiscardedExactly | src/api/routes.py:850-868 | with others acting between any two of its steps, a late run leaves the files alone if and only if the guard's reads find a protected verdict; if not, each file holds its result right after its write |
| TerminalProtocol.PastTheGuardOverwrites | src/api/routes.py:866-868 | whatever others wrote since the guard's last read, the run's two writes replace it |
| TerminalProtocol.GuardDiscardsExactly | src/api/routes.py:850-868 | when nobody else moves, a late result is discarded exactly when the visible verdict is a protected one; else both files end with it |
| TerminalProtocol.ProtectedVerdictIsNeverReplaced | src/api/routes.py:856-868 | a run whose guard found a protected verdict never writes again, whatever others do |
| TerminalProtocol.ShadowedVerdictIsReplaced | src/api/routes.py:856-868 | a run in which a FAILED_TIMEOUT casebook is overwritten because the drain's status.json shadows it |
| TerminalProtocol.TimeoutBehindTheGuardIsReplaced | src/api/routes.py:856-868 | a run in which both files say FAILED_TIMEOUT, written behind the guard, and end with the late result |
| TerminalProtocol.FailedRunRecords | src/api/routes.py:667-698 | with others acting between any two steps, an agent run over its budget writes FAILED_TIMEOUT to each file, one that raises writes DLQ |
| TerminalProtocol.FaultInTimeoutRecordsDlq | src/api/routes.py:667-698 | a fault in either save of the timeout's verdict ends with DLQ in each file |
| TerminalProtocol.InvestigationStartsExactly | src/api/routes.py:595-637 | a run marks the case IN_PROGRESS if and only if the casebook it read was not terminal and the status it read was not IN_PROGRESS, or stale without a checkpoint; otherwise it writes nothing |
| TerminalProtocol.FetchMarksExactly | src/api/routes.py:505-531 | a fetch writes LOGS_FETCHED if and only if neither file was terminal at its first reads and status.json was absent or LOGS_FETCHED at its last |
| TerminalProtocol.DrainRecordsExactly | src/api/routes.py:92-118 | a drain writes FAILED_SHUTDOWN to each file if and only if it read no terminal status |
| TerminalProtocol.TimeoutRecords | src/utils/kafkaConsumer.py:342-417 | the consumer's timeout handler writes FAILED_TIMEOUT to each file, whatever they hold |
| DltFindings.ApplyConfidencePolicy | src/models/dlt_synthesis.py:88-147 | the confidence is the least of its decayed value and every applicable ceiling, all of which are named; the action is forced for routed classes |
| DltFindings.PolicyPromises | src/models/dlt_synthesis.py:88-147 | for every finding and setting: bounded by each applicable ceiling, missing only if it was missing, routed classes only ever routed, a forced action being NEEDS_MANUAL_REVIEW |
| DltFindings.BoundedIsUnique | src/models/dlt_synthesis.py:104-139 | being a lower bound that is attained determines the capped confidence |
| DltFindings.CapsAreCalled | src/models/dlt_synthesis.py:112-127 | each ceiling is applied, once and with its own value, if and only if the evidence calls for it |
| DltFindings.CeilingsAreNamed | src/models/dlt_synthesis.py:104-139 | a finding's labels name exactly those ceilings, and the decay of a reused confidence |
| DltFindings.TreatmentStands | src/dlt/canned.py:64-129 | after the policy a class C case is to be redriven, a class B case routed, an unclassified one for a human, without a confidence |
| DltFindings.MaybeReplay | src/dlt/auto_replay.py:211-223 | the tool is called once if and only if every gate is passed |
| DltGroups.GroupStore.RecordOccurrence | src/dlt/groups.py:93-128 | the stored group becomes the old one with the case recorded |
| DltGroups.GroupStore.AttachRecommendation | src/dlt/groups.py:131-139 | the finding is stored in draft, counts and members kept |
| DltGroups.GroupConservation | src/dlt/groups.py:93-128 | over any calls: members distinct, within the cap and the count; verdict history adds up to the count |
| DltGroups.CountIsDistinctPlusRecounts | src/dlt/groups.py:93-128 | the count is the number of distinct cases plus the cases counted again after the cap dropped them |
| DltGroups.HistoryIsPerVerdict | src/dlt/groups.py:121-124 | verdict by verdict, the history is the number of counted calls with that verdict |
| DltGroups.SeenFirstAndLast | src/dlt/groups.py:115-119 | first seen is the first call's time, last seen and class are the last call's |
| DltGroups.LatestNameStands | src/dlt/groups.py:115-117 | signature and business code are the latest that a call named |
| DltGroups.ConservationAcrossFailedLoads | src/dlt/groups.py:93-139 | the same over any calls with loads that fail and findings attached in between; the count and the history are those of the calls since the last failed load |
| DltGroups.CountIsExactWithinCap | src/dlt/groups.py:93-128 | while the distinct cases fit the cap, the count is exact and the members are the cases |
| DltGroups.RedeliveryBeyondCapIsCountedTwice | src/dlt/groups.py:93-128 | with a cap of one, a case redelivered after another is counted twice |
| DltLane.AnalyzeDlt | src/api/dlt_routes.py:336-441 | a decided case is untouched; else the occurrence is recorded, the model runs only if the reuse decision asks, a raise of the model or of a reuse leaves the case open, only an agent's finding is stored, the gate sees the capped finding, both files end terminal; the model runs if and only if the class is A and the verdict CONTRADICTED or PARTIAL, reuse off, or no finding stored; the stored finding is served, or the fixed treatment built, exactly in the other cases |
| DltLane.ReplayGate | src/dlt/auto_replay.py:146-179 | for any model output and settings, a replay needs class A and a capped confidence at the threshold; with the defaults also a registry hit and a verifiable trace |
| DltLane.ModelCost | src/dlt/reuse.py:51-96 | over any run on several workers, model runs are at most one per worker, plus discrepancies, plus runs that stored nothing, plus one per worker and unreadable record |
| DltLane.BeginAsksExactly | src/dlt/reuse.py:51-96 | in a run on several workers, a case asks the model exactly then |
| DltLane.ModelCostOfRun | src/dlt/reuse.py:51-96 | in terms of the run's steps alone: each class A case in doubt has its own model run, and the bound above holds |
| DltLane.SequentialModelCost | src/dlt/reuse.py:51-96 | one worker, readable records: at most one run plus discrepancies plus failures |
| DltServed.RecommendationWasStored | src/dlt/groups.py:131-139 | in every run, a group's recommendation is what the latest store put there: the model's last answer to that worker under its case's ceilings, never decayed |
| DltServed.ServedIsDecayedOnce | src/models/dlt_synthesis.py:129-139 | in every run, however many cases were served before, the next is served that stored confidence, decayed once and capped, for any decay |
| DltServed.ServedIsMultipliedOnce | src/models/dlt_synthesis.py:129-139 | with the source's multiplication, the served value is that product once, or the least ceiling below it |
| DltServed.ReuseRaisesExactly | src/api/dlt_routes.py:391-393 | in every run, rebuilding the stored finding for reuse raises exactly when the model's answer behind it had a confidence and a ceiling that applied to it was negative |
| DltServed.AnalysisIsALaneRun | src/api/dlt_routes.py:336-441 | an undisturbed analysis is the lane's run of begin, answer and store: the same group, the same number of model runs |
| ContextSelector.ContextWindowSelector.Feed | src/log_pipeline/sources/k8s/filtering.py:121-135 | after any lines the output is exactly the lines near a match so far, in order and once each; the held buffer is at most `before` long |
| ContextSelector.ContextWindowSelector.Reset | src/log_pipeline/sources/k8s/filtering.py:137-139 | nothing held leaks into the next stream |
| ContextSelector.FeedMatch | src/log_pipeline/sources/k8s/filtering.py:121-135 | a match emits the held context and itself, and this agrees with the declarative selection |
| ContextSelector.FeedOutside | src/log_pipeline/sources/k8s/filtering.py:121-135 | a line outside every window is held back, the oldest held one dropped for good |
| LineStream.IterLines | src/log_pipeline/sources/k8s/retrieval.py:124-152 | the lines yielded are the newline split of the text read, without an empty last piece |
| LineStream.ChunkingDoesNotMatter | src/log_pipeline/sources/k8s/retrieval.py:124-152 | two chunkings of one text that stay below the cap yield the same lines |
| LineStream.WholeTextRead | src/log_pipeline/sources/k8s/retrieval.py:124-152 | below the byte cap the text read is the whole text |
| LineStream.StopsExactly | src/log_pipeline/sources/k8s/retrieval.py:124-152 | reading stops behind the first non-empty chunk with which the bytes reach the cap, and only there |
| LineStream.ByteLenIsEncoded | src/log_pipeline/sources/k8s/retrieval.py:124-152 | the bytes counted are those of the text in UTF-8 |
| LineStream.NonBlankExactly | src/log_pipeline/sources/k8s/retrieval.py:197-239 | a line is passed over exactly when it is white space; the others stay in order |
| LineStream.SplitLinesIsSplit | src/log_pipeline/sources/k8s/retrieval.py:124-152 | the pieces hold no newline and rejoin to the text |
| LineStream.SplitLinesIsTextSplit | src/log_pipeline/sources/k8s/retrieval.py:124-152 | they are the pieces of the general split at newlines |
| LineStream.ReadInstance | src/log_pipeline/sources/k8s/retrieval.py:197-239 | the records are what grep with context selects from the non-blank lines of the text read, whatever the selector held before; truncated exactly when the cap cut a line |
| TraceLines.FrameTargetIff | src/dlt/stacktrace.py:48-50 | the frame recogniser accepts exactly the grammar of the frame pattern, and the target is unique |
| TraceLines.ElidedCountIff | src/dlt/stacktrace.py:52-53 | the same for the elision pattern and its count |
| StackTrace.ParseLink | src/dlt/stacktrace.py:160-200 | the flag-driven loop yields the lines before the first frame, all frames and the last elision of the block |
| StackTrace.ParseInvertsLayout | src/dlt/stacktrace.py:155-219 | every laid-out chain parses back to its classes, messages, module-stripped frames and elisions; truncated exactly when the last link has neither frames nor elision |
| StackTrace.NameSurvivesExactly | src/dlt/stacktrace.py:187-197 | a header's class name is found exactly when its message is not blank |
| StackTrace.FullTargetStrips | src/dlt/stacktrace.py:155-157 | stripping the module gives the target back |
| StackTrace.ClassNameExactly | src/dlt/stacktrace.py:55-56 | the accepted class names are exactly the texts of name characters whose first, and every one behind a dot, starts a name |
| StackTrace.LastElisionCounts | src/dlt/stacktrace.py:160-200 | an elision counts when no other comes after it, wherever frames stand |
| StackTrace.HeaderEnds | src/dlt/stacktrace.py:160-200 | the header ends before the first frame or elision |
| Fingerprint.PreHashIsInjective | src/dlt/stacktrace.py:256-274 | two pre-hash texts are equal exactly when class, code and first frames are |
| Fingerprint.TraceHashIsInjective | src/dlt/stacktrace.py:231-274 | the same for any two trace texts whatsoever and codes of the code shape |
| Fingerprint.FingerprintIsStable | src/dlt/stacktrace.py:231-274 | traces with the same root class and signal frames have the same pre-hash text, whatever their other links, messages, locations and module prefixes |
| Fingerprint.NoiseIsSameSignal | src/dlt/stacktrace.py:231-253 | noise frames may be inserted anywhere |
| Fingerprint.SignalExactly | src/dlt/stacktrace.py:225-254 | the filter drops exactly the frames outside the packages, with one of the four generated marks or a numbered mark and a digit in them, or with a boilerplate prefix |
| Fingerprint.FrameIsKeptExactly | src/dlt/stacktrace.py:231-254 | any other frame is kept, in its place |
| Fingerprint.NoiseChangesNothing | src/dlt/stacktrace.py:231-274 | such frames inserted anywhere into the root's frames leave the pre-hash text alone |
| Fingerprint.SignalChangesHash | src/dlt/stacktrace.py:257-274 | any other frame inserted changes it, while the limit lets all frames in |
| Fingerprint.RelocationIsSameSignal | src/dlt/stacktrace.py:231-253 | locations and module prefixes may change in every frame |
| RedactionPatterns.MatchStops | src/log_pipeline/redaction.py:35-41 | no pattern looks past a character foreign to it: a match before one is the match of the text cut there |
| RedactionPatterns.ScrubAcross | src/log_pipeline/redaction.py:125-128 | a substitution, and its hit count, treat the two sides of a foreign character, such as a NUL, separately |
| RedactionPatterns.WordIsUntouched | src/log_pipeline/redaction.py:35-41 | one word that does not start with a digit has no hit |
| RedactionPatterns.ScrubShows | src/log_pipeline/redaction.py:125-128 | a changed text shows a placeholder, and no placeholder is scrubbed away |
| RedactionCoverage.MatchIsLongest | src/log_pipeline/redaction.py:35-41 | the matcher finds the longest number or address at its place between word boundaries, and misses none |
| RedactionCoverage.HitsExactly | src/log_pipeline/redaction.py:125-128 | a pattern hits a text if and only if the text holds what it stands for |
| RedactionCoverage.DigitsExactly | src/log_pipeline/redaction.py:36-39 | the patterns of digits are there exactly where sixteen digits, twelve, or ten from six up stand between non-word characters |
| RedactionCoverage.GroupsExactly | src/log_pipeline/redaction.py:37 | that of groups exactly where 4-4-4 digits stand, parted by spaces or dashes |
| RedactionCoverage.ScrubLeaves | src/log_pipeline/redaction.py:125-128 | a scrubbed text holds nothing of its pattern, and of any other only what it held before |
| RedactionCoverage.NothingIsLeft | src/log_pipeline/redaction.py:125-128 | after all patterns a text holds nothing that any of them stands for |
| RedactionCoverage.NothingShipsThrough | src/log_pipeline/redaction.py:105-134 | without an allowlist the result holds no standing run of sixteen or twelve digits, none of ten from six up, no groups of 4-4-4 and no address |
| RedactionCoverage.SetOffIsRedacted | src/log_pipeline/redaction.py:125-128 | what a pattern stands for, set off by foreign characters, becomes its placeholder and is counted once in any text |
| RedactionCoverage.VidIsRedacted | src/log_pipeline/redaction.py:36 | sixteen digits between non-word characters become [REDACTED:VID] |
| RedactionCoverage.GroupsAreRedacted | src/log_pipeline/redaction.py:37 | 4-4-4 digits become [REDACTED:AADHAAR] |
| RedactionCoverage.AadhaarIsRedacted | src/log_pipeline/redaction.py:38 | twelve digits do too |
| RedactionCoverage.MobileIsRedacted | src/log_pipeline/redaction.py:39 | ten digits from six up become [REDACTED:MOBILE] |
| RedactionCoverage.AddressIsRedacted | src/log_pipeline/redaction.py:40 | an address becomes [REDACTED:EMAIL] |
| RedactionCoverage.EmptyCountsExactly | src/log_pipeline/redaction.py:125-128 | the counts are empty if and only if the text held nothing that any pattern stands for |
| RedactionCoverage.SegmentsHoldNothing | src/log_pipeline/redaction.py:105-134 | with an allowlist, no scrubbed segment between the values holds anything |
| Redaction.RedactText | src/log_pipeline/redaction.py:105-134 | the three loops compute stash, scrub and restore; the counts hold exactly the patterns that hit, with their hits |
| Redaction.RedactRecords | src/log_pipeline/redaction.py:137-158 | every message redacted in place, totals the sums over the records; nothing at all when disabled |
| RedactionSegments.StashRenders | src/log_pipeline/redaction.py:119-123 | stashing writes the cut of the text at the allowlisted values with sentinels between |
| RedactionSegments.HitsAreTheSegments | src/log_pipeline/redaction.py:125-128 | the hits of a text with sentinels are those of its segments alone |
| RedactionTheorems.SegmentsAreTheText | src/log_pipeline/redaction.py:119-123 | the segments and values rejoin to the text, and no segment holds an allowlisted value |
| RedactionTheorems.ReplaceIsMerge | src/log_pipeline/redaction.py:130-131 | replacing a sentinel merges exactly the pieces around its interior, from the left |
| RedactionTheorems.RedactionIsSegmentWise | src/log_pipeline/redaction.py:105-134 | the result is the segments scrubbed alone and rejoined with the values, exactly when no segment between sentinels can be taken for one |
| RedactionTheorems.PlainTextIsSegmentWise | src/log_pipeline/redaction.py:105-134 | it always is when the text does not hold the word ALLOW |
| RedactionTheorems.DefaultRedaction | src/log_pipeline/redaction.py:35-41 | the shipped patterns meet the hypothesis of both: segment-wise exactly when nothing is tangled, never tangled without the word ALLOW |
| RedactionTheorems.NoHitsIsIdentity | src/log_pipeline/redaction.py:105-134 | without hits redaction is the identity, under the same exact condition |
| RedactionTheorems.CountsAreTheSegments | src/log_pipeline/redaction.py:125-128 | reported counts are the sums over the segments |
| RedactionTheorems.LookalikeIsCorrupted | src/log_pipeline/redaction.py:130-131 | for any two characters x, y outside ALLOW0 and both allowlisted, the text yALLOW0yx comes back changed |
| RedactionTheorems.UnsoundAllowlistLosesValue | src/log_pipeline/redaction.py:119-131 | with any x and then 0 allowlisted, the text x loses its allowlisted value |
| BreadthFirst.LevelIsDepth | src/dlt/payload.py:162-180 | the level the queue walks at depth d is exactly the nodes reached in d steps |
| BreadthFirst.Step | src/dlt/payload.py:162-180 | one pop keeps the queue equal to the rest of a level and the children of the part done, or ends the search with its answer |
| RefIdSearch.RefIdKeys | src/dlt/payload.py:75-99 | the configured keys without blanks and denied ones, or the defaults; never empty, never a denied key |
| RefIdSearch.AllowedExactly | src/dlt/payload.py:86-99 | each configured key counts, trimmed and in its place, unless blank or denied |
| RefIdSearch.ExtractBySearch | src/dlt/payload.py:145-182 | the first hit in level order within the depth and node caps |
| RefIdSearch.SearchIsComplete | src/dlt/payload.py:145-182 | when the containers fit the node cap, something is found exactly when some dictionary in depth has a usable wanted key |
| RefIdSearch.SearchIsShallowest | src/dlt/payload.py:145-182 | what is found is the first usable wanted key of a dictionary of least depth |
| RefIdSearch.WithinIsAtDepth | src/dlt/payload.py:171-180 | the search's depth counts steps into lists and dictionaries held by lists and dictionaries |
| RefIdSearch.ChildrenIn | src/dlt/payload.py:171-180 | a node's children are the containers among a list's items or a dictionary's values |
| RefIdSearch.FirstWantedMeaning | src/dlt/payload.py:102-114 | nothing exactly when no wanted key is usable, else what the value of the first usable one says |
| RefIdSearch.ScalarExactly | src/dlt/payload.py:102-114 | an identifier is an integer's decimal or a non-blank text, trimmed; no boolean, fraction or container is one |
| RefIdSearch.UsableExactly | src/dlt/payload.py:168-173 | a key's value is that of its entry in the dictionary |
| PodMerge.GroupByPod | src/log_pipeline/sources/k8s/discovery.py:528-533 | one group per pod in order of first appearance, with all its targets in order |
| PodMerge.MergeRoundRobin | src/log_pipeline/sources/k8s/discovery.py:516-558 | the first group of every pod in round-robin order, up to the cap; duplicates counted; stops exactly at the first pod without room |
| PodMerge.UncappedConserves | src/log_pipeline/sources/k8s/discovery.py:516-558 | uncapped, every pod of every service is kept, and groups are pods plus duplicates |
| PodMerge.CappedExactlyWhenDropped | src/log_pipeline/sources/k8s/discovery.py:549-551 | the flag is up exactly when some pod was dropped, and exactly the cap's number of pods is kept then |
| PodMerge.MergeCoversRows | src/log_pipeline/sources/k8s/discovery.py:535-556 | every service's pods before the stopping row are covered |
| PodMerge.MergeStaysInRows | src/log_pipeline/sources/k8s/discovery.py:535-556 | no service contributes a pod from beyond the stopping row |
| PodMerge.KeptPodIsWhole | src/log_pipeline/sources/k8s/discovery.py:516-533 | a kept pod comes with all targets of its service's view, in order, at least one |
| PodMerge.KeptPodsAreDistinct | src/log_pipeline/sources/k8s/discovery.py:544-548 | no pod is kept twice |
| RateLimiter.Limiter.Admit | src/api/routes.py:297-322 | accepts exactly when fewer than the limit were accepted within the window; evicts, prunes and records accordingly; an exempt client leaves no trace |
| RateLimiter.DecisionsNeedNoMemoryLost | src/api/routes.py:305-322 | on a clock that does not go back, every decision is that of a limiter that forgets nothing |
| RateLimiter.AcceptedExactly | src/api/routes.py:313-322 | on such a clock a request is accepted if and only if fewer than the limit of its client's were accepted in the window ending with it |
| RateLimiter.EvictedExactly | src/api/routes.py:306-311 | above the threshold exactly the clients with a time no older than a window are kept |
| RateLimiter.EvictionChangesNothing | src/api/routes.py:306-311 | the eviction threshold never changes which requests are accepted |
| RateLimiter.WindowBound | src/api/routes.py:317-322 | in every window, wherever it ends, at most the limit is accepted per client |
| RateLimiter.ClockGoingBackBreaksBound | src/api/routes.py:297-322 | with a limit of two and any window, a clock that jumps a window ahead and back lets three requests through in one instant |
| EpochHeaders.DecodeEpochMs | src/dlt/headers.py:64-95 | the one plausible reading of the text, decimal or hexadecimal, if there is one |
| EpochHeaders.OneReading | src/dlt/headers.py:27-28 | no text has two plausible readings, so the order of the candidates does not matter |
| EpochHeaders.HexExactly | src/dlt/headers.py:85-88 | the hexadecimal readings are exactly sign, prefix and groups of digits with single underscores, with the digits' value |
| EpochHeaders.DecimalRoundTrip | src/dlt/headers.py:64-95 | every plausible time comes back from its decimal form |
| EpochHeaders.HexRoundTrip | src/dlt/headers.py:64-95 | and from its hexadecimal form with any zero padding and any mix of cases |
| EpochHeaders.ParseHeaders | src/dlt/headers.py:157-180 | each of the two timestamp headers is decoded on its own |
| EpochHeaders.FallbackIsANoneTest | src/dlt/headers.py:140-154 | `or` falls back exactly when the backoff header did not decode, as `anchor_is_fallback` says |

## Left out

- The offset tracker's `in_flight` gauge, heartbeats, health endpoints, signal handling, and the poll loop's back-pressure: no effect on what is committed.
- The agent graphs and prompts, the Drain3 clustering, corroboration matching, log-level parsing, case-id construction, metrics, configuration parsing and the operator command lines: opaque, or only easy members.
- The S3 backend, file locks and temporary files: a file replacement is one atomic step, as the local backend makes it.
- SHA-256: fingerprint properties are about the text that is hashed.
- Python's decimal digits past ASCII in `\d`, `isdigit` and `int`, and the limit on the length of integer literals: digits are ASCII.
- Custom redaction patterns from the environment: the theorems hold for any list of patterns of the modelled kinds.
- UTF-8 decoding of byte chunks, which does not commute with splitting a character: chunks are text, `ByteLen` counts encoded bytes.
- The rounding of floating-point times and confidences, and NaN.
- LineStream.ReadInstance: a record is the emitted line; the per-line record parser, the statistics and the oldest timestamp are not modelled, nor the selector that keeps everything.
- Redaction.RedactRecords: the records of the list are distinct values in an array, so one record listed twice is not modelled.
- PodMerge.MergeRoundRobin: targets carry only their pod and container, the fields the merge reads; a pod's group carries its key, which the source reads from the group's first target.
- RefIdSearch.RefIdKeys: the warning it logs about denied keys.
- DltLane.AnalyzeDlt: the casebook's free text and the replay tool's arguments; the log evidence enters as the corroboration verdict and the gap banner.
- Casebooks.CasebookStorage.Save: only the recorded status of each file.
