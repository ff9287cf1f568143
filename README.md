# Checkpoint attribution for an IDE plugin, in Dafny

This project models the core of an IntelliJ plugin. The plugin records which
edits an AI coding agent (Amazon Q) made and which a human made, by asking a
command-line tool to write attributed checkpoints.

- **Coordinator** (`coordinator.dfy`, `coordinator_properties.dfy`). The
  checkpoint correlation coordinator of `CheckpointManager.kt`. It keeps two
  timestamps, at most one pending debounced human task, and a single-threaded
  scheduler queue of AI jobs.
  - Every decision is a threshold test on 2000 ms (AI signal window),
    5000 ms (grace period after an AI checkpoint) or 1500 ms (human debounce).
  - The state is an `Engine` value with one pure step function per entry
    point. The class `CheckpointManager` holds the source's fields, and each
    method is proved to perform its step.
  - Time is the explicit, never-decreasing parameter `now`.
  - The scheduler runs one job per `Tick`, earliest trigger time first.
  - Dispatched checkpoints go to a ghost log.
- **Producers.** The rules that decide what reaches the coordinator:
  - `awsq_detector.dfy`: the log-line signature, the quoted-path regex, the
    helper-command predicate, the 30-frame stack test, and the routing
    helper.
  - `human_activity_listener.dfy`: the command filter chain.
  - `probe_bulk_file_listener.dfy`: the loop that forwards every file event
    of a batch, in order.
- **Service helpers** (`git_ai_service.dfy`). The self-contained logic of
  `GitAiService.kt`, with process and file results passed in as parameters:
  - the recursive-config check and the platform binary table
  - the idempotent shell rc update
  - the choice of the real git
  - the `edited_filepaths` rule and the agent payload
  - Kotlin's `toIntOrNull` and 32-bit `Int` addition
  - the `git log` line parser and the per-field aggregation of
    `getRecentStats`
- **Shared modules.**
  - `text.dfy`: Kotlin string operations (`contains`, `startsWith`, `trim`,
    `split`, `lines`, `isBlank`, case-insensitive `contains`) with their
    properties.
  - `wrappers.dfy`: `Option` and `Result`.

Beyond the source's own promises, the model proves some facts about the code:

- A burst of human requests within 1500 ms coalesces into one checkpoint.
- An AI request cancels the pending human task for good.
- Queued AI jobs are always dispatched before a pending human task, in
  submission order.
- No human checkpoint is dispatched within 5000 ms of an AI checkpoint, over
  any run.

It also proves a mismatch between two of the service's checks:

- `findRealGitPath` excludes `.local/bin` only under the home directory.
- `isShimInstalled` rejects a config that mentions `.local/bin` anywhere.
- So a system git under `/opt/.local/bin` is found, but its config is then
  rejected (`GitAiService.LocalBinOutsideHomeIsFound`,
  `GitAiService.LocalBinOutsideHomeIsRejectedLater`).

## Model

All sources are under `src/main/kotlin/com/gitai/`.

| member | source | states |
|---|---|---|
| Coordinator.CheckpointManager.constructor | src/main/kotlin/com/gitai/CheckpointManager.kt:15-25 | both timestamps start at 0, nothing is pending or queued, and the invariant holds |
| Coordinator.CheckpointManager.SignalAiActivity | src/main/kotlin/com/gitai/CheckpointManager.kt:34-37 | sets only `lastAiSignalTime`, to `now`; no task is scheduled or cancelled, and nothing is dispatched |
| Coordinator.CheckpointManager.HandleFileChange | src/main/kotlin/com/gitai/CheckpointManager.kt:42-54 | within 2000 ms of the signal (strict `<`), cancels the human task and queues exactly one AI job with the path; otherwise acts as requestHumanCheckpoint; the invariant is kept |
| Coordinator.CheckpointManager.RequestHumanCheckpoint | src/main/kotlin/com/gitai/CheckpointManager.kt:56-73 | within 5000 ms of the last AI checkpoint, leaves the pending task untouched; otherwise replaces it with one due at `now + 1500`; the AI state is unchanged |
| Coordinator.CheckpointManager.RequestAwsQCheckpoint | src/main/kotlin/com/gitai/CheckpointManager.kt:75-90 | leaves no pending human task and appends exactly one AI job carrying the given (possibly absent) path |
| Coordinator.CheckpointManager.Tick | src/main/kotlin/com/gitai/CheckpointManager.kt:69-71 | runs the due job with the earliest trigger time; a queued AI job always goes first; `lastAiCheckpointTime` changes only when an AI job runs |
| Coordinator.CheckpointManager.RunNextAiJob | src/main/kotlin/com/gitai/CheckpointManager.kt:86-89 | dispatches the first queued job's checkpoint with its path, then sets `lastAiCheckpointTime` to the completion time |
| Coordinator.CheckpointManager.ExecuteHumanCheckpoint | src/main/kotlin/com/gitai/CheckpointManager.kt:92-104 | the fired task appends a human checkpoint only when 5000 ms have passed since the last AI checkpoint; otherwise it records nothing |
| Coordinator.InitConsistent | src/main/kotlin/com/gitai/CheckpointManager.kt:15-25 | the initial state satisfies the coordinator invariant |
| Coordinator.StepKeepsConsistent | src/main/kotlin/com/gitai/CheckpointManager.kt:34-104 | every entry point and every scheduler step keeps the invariant: timestamps and submits not in the future, a pending human task due after every queued job, and a chronological log that respects the grace period |
| Coordinator.AiJobKeepsConsistent | src/main/kotlin/com/gitai/CheckpointManager.kt:86-89 | running the next AI job keeps the invariant |
| Coordinator.HumanTaskKeepsConsistent | src/main/kotlin/com/gitai/CheckpointManager.kt:92-104 | firing the human task keeps the invariant |
| Coordinator.AiJobsRunFirst | src/main/kotlin/com/gitai/CheckpointManager.kt:69-71 | while an AI job is queued, the scheduler's next job is that AI job, never the human task |
| CoordinatorProperties.RunKeepsConsistent | src/main/kotlin/com/gitai/CheckpointManager.kt:34-104 | any run with non-decreasing times keeps the invariant |
| CoordinatorProperties.GraceAlwaysRespected | src/main/kotlin/com/gitai/CheckpointManager.kt:58-61 | from the initial state, every human checkpoint comes at least 5000 ms after every earlier AI checkpoint, and the log is in time order |
| CoordinatorProperties.LogOnlyGrows | src/main/kotlin/com/gitai/CheckpointManager.kt:92-114 | dispatched checkpoints are never withdrawn: every run extends the log |
| CoordinatorProperties.AiCheckpointTimeGrows | src/main/kotlin/com/gitai/CheckpointManager.kt:86-89 | `lastAiCheckpointTime` never goes back over a run |
| CoordinatorProperties.NoHumanCheckpointWithinGrace | src/main/kotlin/com/gitai/CheckpointManager.kt:92-96 | every human checkpoint that a later run dispatches is at least 5000 ms after the current last AI checkpoint |
| CoordinatorProperties.BurstCoalesces | src/main/kotlin/com/gitai/CheckpointManager.kt:64-72 | a burst of human requests outside the grace period, with no task due in between, dispatches nothing and leaves one task due 1500 ms after the last request |
| CoordinatorProperties.BurstFiresOnce | src/main/kotlin/com/gitai/CheckpointManager.kt:64-72 | when that task's time comes, exactly one human checkpoint is dispatched |
| CoordinatorProperties.CancelledTaskNeverFires | src/main/kotlin/com/gitai/CheckpointManager.kt:78-83 | after an AI request, a run without human events dispatches only AI checkpoints |
| CoordinatorProperties.AiRequestsNeverCoalesce | src/main/kotlin/com/gitai/CheckpointManager.kt:85-89 | each AI request queues its own job, in order, and none is debounced |
| CoordinatorProperties.TicksDrainAiQueue | src/main/kotlin/com/gitai/CheckpointManager.kt:86-89 | scheduler steps dispatch the queued AI jobs in submission order, each with its path, and leave `lastAiCheckpointTime` at the last completion |
| CoordinatorProperties.NextTickRunsAiJob | src/main/kotlin/com/gitai/CheckpointManager.kt:86-89 | after any valid run, a tick with AI jobs queued runs the first of them |
| CoordinatorProperties.WindowBoundaryIsHuman | src/main/kotlin/com/gitai/CheckpointManager.kt:46 | a file change exactly 2000 ms after the signal is human; 1999 ms is AI |
| CoordinatorProperties.CorrelatedEditIsAi | src/main/kotlin/com/gitai/CheckpointManager.kt:42-48 | a signal, then a file change 500 ms later, gives one AI checkpoint for that path |
| CoordinatorProperties.HumanBurstFiresOnce | src/main/kotlin/com/gitai/CheckpointManager.kt:56-72 | two human changes 800 ms apart give a single human checkpoint 1500 ms after the second |
| CoordinatorProperties.HumanWithinGraceDropped | src/main/kotlin/com/gitai/CheckpointManager.kt:58-61 | a human request 3000 ms after an AI checkpoint is dropped |
| CoordinatorProperties.AiPreemptsPendingHuman | src/main/kotlin/com/gitai/CheckpointManager.kt:78-83 | a correlated file change 1000 ms after a human request cancels the human task, so only the AI checkpoint is dispatched |
| AwsQDetector.SignalsAiActivity | src/main/kotlin/com/gitai/AwsQDetector.kt:49-53 | true iff the message is present, contains `ToolUseEvent`, and contains one of `fsReplace`, `fsWrite` or `fsDelete` |
| AwsQDetector.NullOrVerblessLogIsIgnored | src/main/kotlin/com/gitai/AwsQDetector.kt:50-53 | a null message, or one with none of the three verbs (`ToolUseEvent` alone included), gives no signal |
| AwsQDetector.LogMatchIsCaseSensitive | src/main/kotlin/com/gitai/AwsQDetector.kt:53 | the markers match case-sensitively: a lower-case `tooluseevent` is not a signal |
| AwsQDetector.CheckLog | src/main/kotlin/com/gitai/AwsQDetector.kt:49-57 | signals the coordinator exactly when the message matches, and otherwise changes nothing |
| AwsQDetector.MatchAtIsRegex | src/main/kotlin/com/gitai/AwsQDetector.kt:63 | the anchored matcher returns `v` iff the regex `"path":\s*"([^"]+)"` matches at that position with group `v` |
| AwsQDetector.MatchAtSound | src/main/kotlin/com/gitai/AwsQDetector.kt:63 | whatever the matcher returns is a regex match with that group |
| AwsQDetector.MatchAtComplete | src/main/kotlin/com/gitai/AwsQDetector.kt:63 | every regex match at a position is what the matcher returns there |
| AwsQDetector.FindMatch | src/main/kotlin/com/gitai/AwsQDetector.kt:63 | finds the leftmost position with a match, or reports that there is none |
| AwsQDetector.ExtractPathFromLog | src/main/kotlin/com/gitai/AwsQDetector.kt:62-65 | returns the group of the leftmost match, which is non-empty and quote-free; none iff nothing matches |
| AwsQDetector.ExtractPathFound | src/main/kotlin/com/gitai/AwsQDetector.kt:62-65 | allows whitespace after the colon: `{"path":  "src/a.kt"}` yields `src/a.kt` |
| AwsQDetector.ExtractPathNeedsNonEmptyValue | src/main/kotlin/com/gitai/AwsQDetector.kt:63 | an empty quoted value is no match |
| AwsQDetector.IsAwsQHelperCommand | src/main/kotlin/com/gitai/AwsQDetector.kt:72-78 | true iff the name is empty or contains `Insert`, `Choose Lookup Item` or `Typing`, in any case |
| AwsQDetector.HelperCommandIgnoresCase | src/main/kotlin/com/gitai/AwsQDetector.kt:72-78 | `EDITOR TYPING` and the empty name are helper commands; `Reformat Code` is not |
| AwsQDetector.TriggerCheckpoint | src/main/kotlin/com/gitai/AwsQDetector.kt:80-87 | routes `isHuman` to the human request, and otherwise to the AI request with the path |
| AwsQDetector.IsAwsQStackTrace | src/main/kotlin/com/gitai/AwsQDetector.kt:90-99 | true iff one of the first 30 frames names `software.aws.toolkits` or `jetbrains.services.amazonq`, in any case |
| AwsQDetector.DeepFramesIgnored | src/main/kotlin/com/gitai/AwsQDetector.kt:93 | frames past index 29 never change the answer |
| AwsQDetector.Take | src/main/kotlin/com/gitai/AwsQDetector.kt:93 | `take(n)` keeps the first `min(n, size)` frames unchanged |
| AwsQDetector.AnyAwsQFrame | src/main/kotlin/com/gitai/AwsQDetector.kt:94-98 | true iff some frame is an agent frame |
| HumanActivityListener.IsNoiseCommand | src/main/kotlin/com/gitai/HumanActivityListener.kt:18-20 | true iff the name is empty, exactly `Reload From Disk`, or contains `git-ai` in any case |
| HumanActivityListener.RequestsCheckpoint | src/main/kotlin/com/gitai/HumanActivityListener.kt:13-27 | true iff a name is present, it is not noise, and none of the first 30 frames is an agent frame; nothing else is consulted |
| HumanActivityListener.CommandFinished | src/main/kotlin/com/gitai/HumanActivityListener.kt:13-37 | makes exactly one human checkpoint request when `RequestsCheckpoint` holds, and otherwise changes nothing |
| HumanActivityListener.TriggerCheckpointHuman | src/main/kotlin/com/gitai/HumanActivityListener.kt:39-42 | is one `requestHumanCheckpoint` step |
| HumanActivityListener.NoiseIsDropped | src/main/kotlin/com/gitai/HumanActivityListener.kt:14-21 | a null or empty name, `Reload From Disk`, and `Run GIT-AI Checkpoint` request nothing, whatever the stack |
| HumanActivityListener.ReloadMatchIsExact | src/main/kotlin/com/gitai/HumanActivityListener.kt:19 | the reload test is exact: `reload from disk` requests a checkpoint |
| HumanActivityListener.AgentStackIsDropped | src/main/kotlin/com/gitai/HumanActivityListener.kt:25-27 | an agent frame among the first 30 vetoes the request |
| HumanActivityListener.DeepAgentFrameIsMissed | src/main/kotlin/com/gitai/HumanActivityListener.kt:25-27 | an agent frame at index 30 does not |
| ProbeBulkFileListener.EveryEventIsForwarded | src/main/kotlin/com/gitai/ProbeBulkFileListener.kt:11-41 | one coordinator call per event, in list order, with the event's path unchanged; an empty batch makes none |
| ProbeBulkFileListener.After | src/main/kotlin/com/gitai/ProbeBulkFileListener.kt:10-31 | the loop leaves the coordinator in the state the forwarded calls produce, with the invariant kept |
| ProbeBulkFileListener.TriggerCheckpointHuman | src/main/kotlin/com/gitai/ProbeBulkFileListener.kt:43-46 | is one `handleFileChange` step with the path |
| ProbeBulkFileListener.CorrelatedBatchQueuesEveryFile | src/main/kotlin/com/gitai/ProbeBulkFileListener.kt:10-31 | a batch inside the AI window queues one AI job per file, in order, and cancels the human task |
| ProbeBulkFileListener.UncorrelatedBatchSchedulesHuman | src/main/kotlin/com/gitai/ProbeBulkFileListener.kt:10-31 | a batch outside the AI window, whose last event is outside the grace period, queues nothing and leaves one human task, due 1500 ms after the last event |
| ProbeBulkFileListener.UncorrelatedPrefixKeepsQueue | src/main/kotlin/com/gitai/ProbeBulkFileListener.kt:10-31 | outside the AI window, the queue and the log are unchanged |
| GitAiService.IsRecursiveConfig | src/main/kotlin/com/gitai/GitAiService.kt:58 | true iff the config text contains `.git-ai` or `.local/bin` |
| GitAiService.IsShimInstalled | src/main/kotlin/com/gitai/GitAiService.kt:43-69 | installed iff both shims and the config exist, the config is readable, and it is not recursive |
| GitAiService.ConfigRecursiveOnlyThroughPath | src/main/kotlin/com/gitai/GitAiService.kt:128-134 | the written config is recursive exactly when the git path is |
| GitAiService.FoundGitConfigAccepted | src/main/kotlin/com/gitai/GitAiService.kt:201-205 | the config written for an accepted git passes the check iff the path does not mention `.local/bin` |
| GitAiService.LocalBinOutsideHomeIsFound | src/main/kotlin/com/gitai/GitAiService.kt:201-216 | a lookup that prints `/opt/.local/bin/git`, resolving to `git`, finds that path |
| GitAiService.SingleAcceptedLineIsFound | src/main/kotlin/com/gitai/GitAiService.kt:196-216 | a one-line output whose line is accepted, and neither starts nor ends with whitespace, finds exactly that line |
| GitAiService.LocalBinOutsideHomeIsRejectedLater | src/main/kotlin/com/gitai/GitAiService.kt:58-61 | the config written for `/opt/.local/bin/git` fails the installed check |
| GitAiService.BinaryName | src/main/kotlin/com/gitai/GitAiService.kt:76-82 | mac on `aarch64` gives `macos-arm64/git-ai`, mac on any other architecture `macos-intel/git-ai`, windows `windows-x64/git-ai.exe`, and any other OS an error |
| GitAiService.ResourceMatchesDestination | src/main/kotlin/com/gitai/GitAiService.kt:85-86 | every resource path ends in `/` plus the installed binary's name |
| GitAiService.UpdatedRc | src/main/kotlin/com/gitai/GitAiService.kt:179-186 | the result contains the export line and extends the old content; content that already has the line is unchanged |
| GitAiService.UpdateRcIdempotent | src/main/kotlin/com/gitai/GitAiService.kt:183-184 | updating twice equals updating once |
| GitAiService.UpdateRcAppends | src/main/kotlin/com/gitai/GitAiService.kt:183-184 | an update appends exactly the comment and the export line, or nothing |
| GitAiService.RcFile.constructor | src/main/kotlin/com/gitai/GitAiService.kt:177-178 | the file holds the given content |
| GitAiService.UpdateRcFile | src/main/kotlin/com/gitai/GitAiService.kt:177-190 | the file's new content is the updated content; a failing read leaves it unchanged |
| GitAiService.RcFilesToUpdate | src/main/kotlin/com/gitai/GitAiService.kt:157-175 | nothing on windows; otherwise every existing candidate file, and only those, or the OS default when none exists |
| GitAiService.ExistingRcFiles | src/main/kotlin/com/gitai/GitAiService.kt:165 | keeps exactly the candidates that exist |
| GitAiService.ExistingRcFilesAppend | src/main/kotlin/com/gitai/GitAiService.kt:165 | the filter keeps the candidates' order: it maps concatenation to concatenation |
| GitAiService.Candidates | src/main/kotlin/com/gitai/GitAiService.kt:197-204 | one candidate per non-blank output line; a path is a candidate iff it is the trim of some non-blank line of the output |
| GitAiService.CandidatesAtBreak | src/main/kotlin/com/gitai/GitAiService.kt:197-204 | candidates keep output order: the first line, when not blank, gives the first candidate, and the rest come from the rest of the output |
| GitAiService.CandidatesOfJoin | src/main/kotlin/com/gitai/GitAiService.kt:197-204 | lines joined by a newline give the trims of the non-blank ones among them, in order |
| GitAiService.SingleLineCandidates | src/main/kotlin/com/gitai/GitAiService.kt:197-204 | a single line followed by a newline, with no surrounding whitespace, is the only candidate |
| GitAiService.TrimAll | src/main/kotlin/com/gitai/GitAiService.kt:203-204 | trims each line, position by position |
| GitAiService.StartsWithAny | src/main/kotlin/com/gitai/GitAiService.kt:205 | true iff the path starts with one of the patterns |
| GitAiService.FirstAcceptedIndex | src/main/kotlin/com/gitai/GitAiService.kt:203-220 | the first candidate at or after `from` that passes every filter, or none |
| GitAiService.RealGitPathIsFirstAccepted | src/main/kotlin/com/gitai/GitAiService.kt:192-225 | the result is the first output line that passes every filter; none when no line does or the command fails |
| GitAiService.RealGitPathNeverTheTool | src/main/kotlin/com/gitai/GitAiService.kt:201-214 | the result never contains `git-ai`, is not under the home `.git-ai` or `.local/bin`, resolves, and its real name is not the tool's binary |
| GitAiService.FindRealGitPath | src/main/kotlin/com/gitai/GitAiService.kt:192-225 | the loop returns the first accepted candidate |
| GitAiService.EditedFilePathsAsWritten | src/main/kotlin/com/gitai/GitAiService.kt:238-243 | as written, the rule throws exactly when the file path equals the base path |
| GitAiService.ProjectRootCrashesAsWritten | src/main/kotlin/com/gitai/GitAiService.kt:239 | the project directory itself makes the rule throw |
| GitAiService.EditedFilePaths | src/main/kotlin/com/gitai/GitAiService.kt:238-243 | one entry iff the file is present, starts with the base path and is longer; the entry is what follows the base path and one separator |
| GitAiService.EditedFilePathsAgree | src/main/kotlin/com/gitai/GitAiService.kt:238-243 | the corrected rule equals the written one wherever that one does not throw |
| GitAiService.EditedPathRoundTrip | src/main/kotlin/com/gitai/GitAiService.kt:238-240 | `basePath + "/" + rel` is reported as `[rel]` |
| GitAiService.PrefixIgnoresComponents | src/main/kotlin/com/gitai/GitAiService.kt:238 | the prefix test is on characters: `/project/a.kt` under `/proj` is reported as `ct/a.kt` |
| GitAiService.CheckpointAwsQ | src/main/kotlin/com/gitai/GitAiService.kt:233-261 | no command without a base path; otherwise `checkpoint agent-v1 --hook-input`, with `ai_agent`, `aws-q`, `amazon-q`, the base path, the edited paths of the corrected rule, and the id `intellij-` followed by the timestamp in decimal |
| GitAiService.ConversationIdsDistinct | src/main/kotlin/com/gitai/GitAiService.kt:253 | checkpoints at different times carry different conversation ids |
| GitAiService.PayloadNamesEditedFile | src/main/kotlin/com/gitai/GitAiService.kt:238-250 | a file under the project appears in the payload by its relative path |
| GitAiService.ParseInt32 | src/main/kotlin/com/gitai/GitAiService.kt:391 | a value is read only from an optional sign followed by one or more ASCII digits and nothing else; such a text gives its signed value when that fits an `Int`, and none when it does not |
| GitAiService.ParseInt32RoundTrip | src/main/kotlin/com/gitai/GitAiService.kt:391 | the decimal rendering of every `Int` reads back to it |
| GitAiService.ParseInt32Overflow | src/main/kotlin/com/gitai/GitAiService.kt:391 | `2147483648` is out of range and gives none |
| GitAiService.ParseInt32Signs | src/main/kotlin/com/gitai/GitAiService.kt:391 | `12a` gives none; `+7` gives 7 |
| GitAiService.Wrap32 | src/main/kotlin/com/gitai/GitAiService.kt:359-367 | the result is in `Int` range and congruent to the input mod 2^32; values in range are unchanged |
| GitAiService.Add32 | src/main/kotlin/com/gitai/GitAiService.kt:359-367 | `Int` addition: in range, congruent to the true sum mod 2^32, and exact when the true sum fits |
| GitAiService.Int32Overflows | src/main/kotlin/com/gitai/GitAiService.kt:359 | `Int.MAX_VALUE + 1` wraps to `Int.MIN_VALUE` |
| GitAiService.Sum32Exact | src/main/kotlin/com/gitai/GitAiService.kt:358-368 | the wrapped sum of non-negative counts equals the true sum when that fits an `Int` |
| GitAiService.FieldOrZero | src/main/kotlin/com/gitai/GitAiService.kt:391-394 | a missing key reads 0; a primitive value reads as its `toIntOrNull`, or 0 when that is null; any other value throws |
| GitAiService.ReadFields | src/main/kotlin/com/gitai/GitAiService.kt:391-397 | reads the keys in order; once one throws, it and every later field keep 0 |
| GitAiService.StatsRoot | src/main/kotlin/com/gitai/GitAiService.kt:382-389 | a root is found iff the text is a JSON object whose `range_stats`, when present, is an object too; the root is the `range_stats` object when that key is present, and the top-level object otherwise |
| GitAiService.ParseCommitStats | src/main/kotlin/com/gitai/GitAiService.kt:379-401 | text that is not an object, or whose `range_stats` is not one, gives all zeros; otherwise the four counts are the fields read in order from the stats root, and every other count is 0 |
| GitAiService.NestedStatsReadAlike | src/main/kotlin/com/gitai/GitAiService.kt:385-389 | an object nested under `range_stats` reads the same as at the top level |
| GitAiService.ParseCommitStatsExample | src/main/kotlin/com/gitai/GitAiService.kt:391-394 | a present integer is read, absent keys are 0, and a non-integer text is 0 |
| GitAiService.NonPrimitiveFieldStopsParse | src/main/kotlin/com/gitai/GitAiService.kt:391-399 | a non-primitive `mixed_additions` leaves it and every later count at 0 |
| GitAiService.ParseLogLine | src/main/kotlin/com/gitai/GitAiService.kt:339-345 | a line gives a header iff it splits into at least 4 parts on the three-bar separator; the header's hash, short hash, author and subject are the first four parts |
| GitAiService.LogLineRoundTrip | src/main/kotlin/com/gitai/GitAiService.kt:330-345 | a header whose fields contain no bar character is read back from its log line |
| GitAiService.SubjectWithSeparatorTruncated | src/main/kotlin/com/gitai/GitAiService.kt:339-345 | a subject containing the three-bar separator is cut at its first separator |
| GitAiService.CollectCommits | src/main/kotlin/com/gitai/GitAiService.kt:338-352 | at most one commit per line, each with the stats parsed from its own command output; a single line contributes what `KeptFor` keeps |
| GitAiService.CollectCommitsAppend | src/main/kotlin/com/gitai/GitAiService.kt:338-352 | the collection maps concatenation of lines to concatenation of commits, so line order is kept |
| GitAiService.UnusableLineSkipped | src/main/kotlin/com/gitai/GitAiService.kt:340-348 | a line that does not split into 4 parts, or whose stats command fails, is skipped and changes nothing else |
| GitAiService.KeptFor | src/main/kotlin/com/gitai/GitAiService.kt:339-351 | a line contributes nothing iff it has fewer than 4 parts or its stats command fails; otherwise one commit with the line's hash, short hash, author and subject and its own parsed stats |
| GitAiService.CollectKeepsEveryLine | src/main/kotlin/com/gitai/GitAiService.kt:338-352 | when every line parses and every stats command succeeds, every line gives its commit, in order |
| GitAiService.Sum32 | src/main/kotlin/com/gitai/GitAiService.kt:359-367 | a running `+=` total stays in `Int` range and is congruent to the true sum mod 2^32 |
| GitAiService.AddStats | src/main/kotlin/com/gitai/GitAiService.kt:359-367 | every field of the sum is in `Int` range and congruent mod 2^32 to the true sum of that field |
| GitAiService.AggregateIsFieldwiseSum | src/main/kotlin/com/gitai/GitAiService.kt:357-368 | each aggregated field is the wrapped sum of that field over the commits |
| GitAiService.AggregateExact | src/main/kotlin/com/gitai/GitAiService.kt:357-368 | without overflow, each aggregated count is the exact sum |
| GitAiService.RecentStats | src/main/kotlin/com/gitai/GitAiService.kt:324-371 | none for depth below 1, without a base path, or when the log fails; otherwise some iff the commits collected from the non-blank log lines are non-empty, with those commits and their aggregate |
| GitAiService.GetRecentStats | src/main/kotlin/com/gitai/GitAiService.kt:324-371 | the two loops compute `RecentStats` |
| GitAiService.CollectLoop | src/main/kotlin/com/gitai/GitAiService.kt:336-352 | the line loop collects `CollectCommits` |
| GitAiService.AggregateLoop | src/main/kotlin/com/gitai/GitAiService.kt:357-368 | the summing loop computes `Aggregate` |
| Text.Split | src/main/kotlin/com/gitai/GitAiService.kt:339 | `split` gives at least one part, no part contains the delimiter, and each cut is at the leftmost occurrence, so no occurrence starts inside a part |
| Text.SplitJoin | src/main/kotlin/com/gitai/GitAiService.kt:339 | splitting a join gives the parts back when the delimiter's first character occurs in none of them |
| Text.JoinSplit | src/main/kotlin/com/gitai/GitAiService.kt:339 | joining the parts of a split gives the text back |
| Text.Lines | src/main/kotlin/com/gitai/GitAiService.kt:333 | `lines()` gives at least one line, no line contains a line break, and for text without `\r` the lines joined by a newline are the text |
| Text.LinesOfLine | src/main/kotlin/com/gitai/GitAiService.kt:333 | a text without line breaks is one line |
| Text.LinesAtBreak | src/main/kotlin/com/gitai/GitAiService.kt:333 | a line ends at the first `\n`, `\r\n` (one break, not two) or `\r` not followed by `\n`, and the following lines are those of the rest |
| Text.LinesOfJoin | src/main/kotlin/com/gitai/GitAiService.kt:333 | lines without breaks joined by a newline are read back unchanged |
| Text.Trim | src/main/kotlin/com/gitai/GitAiService.kt:204 | the result is a slice of the input with only whitespace before and after it, and it neither starts nor ends with whitespace; so it is empty only for a blank input |
| Text.TrimStart | src/main/kotlin/com/gitai/GitAiService.kt:204 | the suffix left after removing only leading whitespace, which does not start with whitespace |
| Text.TrimEnd | src/main/kotlin/com/gitai/GitAiService.kt:204 | the prefix left after removing only trailing whitespace, which does not end with whitespace |
| Text.TrimUnpadded | src/main/kotlin/com/gitai/GitAiService.kt:204 | a text that neither starts nor ends with whitespace is its own trim |
| Text.NonBlank | src/main/kotlin/com/gitai/GitAiService.kt:333 | keeps exactly the non-blank lines: every kept line is a non-blank input line, and every non-blank input line is kept |
| Text.NonBlankAppend | src/main/kotlin/com/gitai/GitAiService.kt:333 | the filter maps concatenation to concatenation, so it keeps order |

## Left out

- I/O is not modelled. Files, processes and the network become parameters:
  - the `which -a git` output
  - the real names `toRealPath` resolves, as a map whose missing keys are the paths that throw
  - which rc files exist
  - the stats command's parsed output per hash
  - the current time
- Not modelled: `runCommand`, `runCommandWithType`, `gitAiPath`, `checkpointHuman`, and the effects of `installGlobalShim`. The effects are the copies, the symlinks, the `git-og` scripts, the notification and the restart.
- `Coordinator.CheckpointManager.Tick`: scheduler steps are explicit events, so a tick may come late. When no tick comes before the next human request, an overdue human task is replaced without firing, which an idle executor would not do. The invariant and grace-period lemmas hold for every order of ticks. `CoordinatorProperties.BurstCoalesces` then also joins requests more than 1500 ms apart.
- Concurrency is not modelled. The executor, `synchronized`, `AtomicLong` and `cancel(false)` become one sequential owner. Each job runs atomically within a `Tick`.
- The two clock reads of `handleFileChange` and `requestHumanCheckpoint` are one `now`.
- `Long` times are unbounded integers.
- The clock is taken as never going back: every coordinator step requires `now` to be at least the last time seen. A wall clock (`System.currentTimeMillis()`, CheckpointManager.kt:35-94) that steps back is not modelled, and `CoordinatorProperties.GraceAlwaysRespected` and the time order of the log depend on that assumption.
- JSON text parsing is replaced: the stats output arrives already parsed as a `JsonValue`, or as none when it is not JSON. A JSON `null` is the primitive `"null"`.
- `time_waiting_for_ai` is a `Double` and is left out of `CommitStats` and its sum.
- Per-project fan-out and widget refresh become one log entry per dispatch:
  - `ProjectManager.openProjects`
  - `updateWidgets`
- Not modelled: the log interceptor setup of `AwsQDetector.kt`, `ProbeListener.kt`, `AwsQStartupActivity.kt`, and the status bar widget and its factory.
- The unused fields are not modelled: `lastFsReplaceTime` and `lastDetectedPath` in `AwsQDetector.kt`, and `DEBOUNCE_TIME` and `lastHumanAction` in `HumanActivityListener.kt`.
- `extractPathFromLog`, `isAwsQHelperCommand` and `triggerCheckpoint` are modelled even though nothing in the source calls them.
- `Text.ToLowerAscii`: case-insensitive matching folds only ASCII letters; Kotlin also folds other letters.
- `GitAiService.ParseInt32`: accepts only ASCII digits; Kotlin's `toIntOrNull` also accepts other Unicode decimal digits.
- `Text.IsWhitespace`: covers the ASCII and common Unicode space characters, not every character Kotlin's `isWhitespace` accepts.
- `GitAiService.CheckpointAwsQ`: the payload is a record of its fields, not JSON text. The source builds the JSON by string interpolation without escaping (GitAiService.kt:240 and 246-258), so a `"` or `\` in the base path or in an edited path gives malformed JSON. The model does not capture that. It also uses the corrected `edited_filepaths` rule, so a file path equal to the base path gives a command with no edited path, where the source throws (see Findings).
- `Coordinator.CheckpointManager.RunNextAiJob` and `Coordinator.AiJobStep`: an AI job always completes, because the model takes the agent checkpoint with the corrected `edited_filepaths` rule (see Findings). As written, a file event for the project directory itself makes `checkpointAwsQ` throw. `executeAwsQCheckpoint` does not catch it (CheckpointManager.kt:106-113), so the job skips the later projects, their `updateWidgets`, and the update of `lastAiCheckpointTime` (CheckpointManager.kt:86-89). A human checkpoint requested within 5000 ms after such a job would then be recorded, where the model drops it.
- The pending task is stored as its fire time. A task that has already run is stored as none, where the source keeps a completed future; no entry point can tell the two apart.

## Findings

| source | as written | input that shows it | evidently intended | confidence | as-written member | corrected member |
|---|---|---|---|---|---|---|
| src/main/kotlin/com/gitai/GitAiService.kt:238-239 | when `filePath.startsWith(basePath)`, takes `substring(basePath.length + 1)` | `filePath == basePath`, e.g. an event for the project directory itself: the start index is one past the end, so `substring` throws and the AI checkpoint is lost | the project directory names no edited file, and `edited_filepaths` is `[]` | not executed | GitAiService.EditedFilePathsAsWritten | GitAiService.EditedFilePaths |
