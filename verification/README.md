# sandbar: a verified model

This project models the part of sandbar, a coding agent, that keeps a conversation well formed while
it is edited from many sides, and proves properties of that model. The files are listed by
`dfyconfig.toml`; the modules, by part of the program:

- **The provider-payload protocol** (`Payload`, `Groups`, `Indexed`): every assistant tool-call group
  is followed at once by exactly one result per call ID. The protocol is a one-pass scan that composes
  over concatenation, and it is proved equal to a description without a scan.
- **Repair, truncation and compression** (`Sanitize`, `SanitizedViews`, `SanitizeLoops`, `SanitizeKeeps`, `Truncate`,
  `TruncationCut`, `Compress`, `PrunedOutputs`, `TurnStart`, `ActiveTurn`, `FoldLimits`, `Compressor`, `RequestLoss`): the
  functions that delete, insert, merge and re-index messages, what they must not lose, and the promise that every
  compressor exit is flagged or fit to send.
- **The turn loop** (`Turn`, `TurnLoop`, `TurnContents`, `StreamTurn`, `TextCalls`, `Restart`): what is durable when a turn
  ends, whatever the event sink, the store and the user do.
- **The Anthropic translation** (`Anthropic`, `AnthropicContents`): a flat list as strictly alternating turns, and what
  they say.
- **The thread store** (`Store`, `BuiltViews`, `Fork`): numbered messages, compression records, the views built from
  them, undo and forking.
- **A thread over its life** (`Session`, `SessionTruth`, `SessionSync`, `StaleSummary`): rows, records and all
  views in use, under every run of builds, appends, compressions and undos in any order; when a record speaks
  of what is stored, and what the next turn loads.
- **Task plans** (`Plan`, `PlanStore`, `PlanContents`, `PlanEdits`, with `Decimal` and `Text`): allocation
  of IDs, what becomes of every item, and plan edits as transactions.
- **The line diff** (`Diff`, `Hunks`, `HunkContext`, `UnifiedDiff`, `DiffReader`, `DiffCounts`): optimality, patching both
  ways, reading the printed text back, counting.
- **The streaming `<think>` splitter** (`ThinkParser`): equal to a batch reading for every chunking.
- **Steering and tool batches** (`Steering`, `ToolBatch`): two small concurrent protocols as steps that
  may interleave in any order.
- **The print wrapper** (`Wrap`, `WrapSlices`, `WrapCuts`): a greedy packer with hanging indent, where everything goes, and
  which words it cuts.

Loops and mutable objects of the source are methods and classes here; each is proved equal to a
function on values, and the laws are lemmas about those functions. Outside facts enter as
parameters or as arbitrary choices: token counts (a non-negative cost per message plus a fixed primer),
summarizer replies, redaction, model lookup, rune widths, fresh IDs, clock readings, store and sink
failures, and cancellation. Ratios of the configuration enter as the integers they are truncated to.

## Where the code and its documentation differ

The model follows the code.

- The validator's separate error for a repeated ID inside one group cannot occur: the check for reused
  IDs fires first (`internal/agent/compression.go:509-525`).
- `alignCompressionBoundary` guards the last message whose role is user, which may be a synthetic
  reminder, not the latest request. A mid-turn compression that escalates then loses the request if it
  aims past it (`Compressor.SummaryKeepsRequestIff`, `RequestLoss.CompressNudged`).
- The truncator's last fallback and the second validation in `compressActiveTurn` are unreachable
  (`Truncate.DropToFitIsValid`).
- `unifiedDiff` returns an empty body not only for identical contents but also when they differ in the
  final newline (`UnifiedDiff.BodyEmptyIff`).
- `countAddsRemoves` skips changed lines that begin with the doubled marker and counts marked lines that a
  newline in the path puts into the file headers (`DiffCounts.CountsAreExactIff`,
  `DiffCounts.DoubledLineIsMissed`, `DiffCounts.PathLinesAreCounted`).
- `WrapPrint` cuts words that are not wider than the width: behind a hanging indent, up to the first cut,
  those wider than the room beside it (`WrapCuts.WordCutIff`, `WrapCuts.NoWiderThanWidthCanBeCut`).
  White-space-only lines may exceed the width (`WrapCuts.BlanksOverflow`).
- The streaming path's branch for calls that are not of function type is unreachable: the parsers produce
  none (`StreamTurn.ParsedHistoryIsValid`).
- Generated call IDs differ across messages within one process (`TextCalls.ProcessNeverRepeats`). The ticket
  counter starts at zero in every process, so they repeat after a restart and the store refuses them
  (`TextCalls.IdsEqualIff`, `Restart.RepeatAfterRestart`).
- The lock of a thread is taken by turns and by its deletion only (`internal/agent/agent.go:147`,
  `internal/agent/agent.go:625-632`), not by the compress command (`internal/agent/compression.go:554-567`) and
  not by undo (`internal/backend/backend.go:202-204`). A summary that is saved after an undo reached down to its
  boundary speaks of deleted messages, and hides new ones once its number is in use again
  (`SessionTruth.CommandTrueIff`, `StaleSummary.StaleRun`).
- Undo deletes messages and records in two statements; between them, or if the second fails, records can point
  at deleted messages (`SessionTruth.RunTruthIff`).
- Only a direct call of the store can write an empty call ID: the agent rejects such calls and its parsers
  generate IDs. A fork repairs them all the same (`Fork.ForkRepairsEmptyId`).
- Nothing flushes the `<think>` splitter, so text held back at the end of a stream is never shown
  (`ThinkParser.AllIsShownIff`).
- A steering message is lost when storing it fails, and so is the rest of a drained batch
  (`Steering.FailureLosesBatch`).

## Model

| member | source | states |
|---|---|---|
| Payload.ValidateProviderPayload | internal/agent/compression.go:463-530 | A payload is accepted exactly when every call group is followed at once by one result per call with usable IDs; a rejection names the first message whose prefix is no longer acceptable, with a fault that is true of it |
| Payload.RegisterCalls | internal/agent/compression.go:509-525 | The calls of one assistant message are registered exactly when their IDs are non-empty and new, within the group and against all earlier groups |
| Payload.ValidIsBlocks | internal/agent/compression.go:463-530 | The one-pass scan accepts exactly the lists that are a concatenation of plain messages and of call groups with one result per call |
| Payload.ScannablePrefix | internal/agent/compression.go:463-530 | Every prefix of an acceptable list is acceptable so far: faults never heal |
| Groups.GroupMessagesForCompression | internal/agent/compression.go:399-431 | The loop computes the partition into groups |
| Groups.GroupFacts | internal/agent/compression.go:399-431 | Groups are non-empty, lie end to end over the whole list, and each is the group that starts at its first message |
| Groups.BoundaryNeverSplits | internal/agent/compression.go:399-431 | No group boundary separates a call group from one of its results, valid list or not |
| Groups.BoundaryCutsValid | internal/agent/compression.go:436-459 | Cutting a valid list at any group boundary leaves two valid lists |
| Groups.CutBefore | internal/agent/compression.go:399-431 | Before any message that is not a tool result there is a group boundary |
| Groups.AlignCompressionBoundary | internal/agent/compression.go:436-459 | The result is the least group boundary at or above the target (or the last user-role message, whichever is first), never past that message, and it cuts a valid list into two valid ones |
| Indexed.ToRawMessages | internal/agent/compression.go:1577-1596 | The loop renders a view: a checkpoint merges into a directly preceding user message |
| Indexed.RawIsValid | internal/agent/compression.go:1577-1596 | Merging checkpoints is invisible to the pairing protocol: the rendered payload validates exactly when the stripped messages do |
| Indexed.RawOfCheckpointFree | internal/agent/compression.go:1577-1596 | Without checkpoints, raw and indexed positions agree |
| Indexed.RawLosesNothing | internal/agent/compression.go:1577-1596 | Merging joins texts but neither drops nor reorders any, and every message that is not the user's stays as it is |
| Indexed.CountMessages | internal/llm/tokens.go:36-46 | The loop computes the list total: the per-message counts plus the fixed primer |
| Indexed.LatestPersistedUserIndex | internal/agent/compression.go:1354-1361 | The backward loop finds the last persisted user message, or -1 |
| Truncate.TruncateIndexedToBudget | internal/agent/compression.go:1613-1691 | The truncator with its keep array and two candidate lists computes the specified truncation |
| Truncate.DropUntilFits | internal/agent/compression.go:1673-1680 | The inner loop drops candidates oldest first and stops at the first fit |
| Truncate.MinimalSafeIndexedPayload | internal/agent/compression.go:1693-1706 | The minimal payload: system prompt, latest persisted user message and its checkpoint |
| Truncate.MinimalIsValid | internal/agent/compression.go:1693-1706 | The minimal payload is valid whatever the input looked like |
| Truncate.DroppingGroupsKeepsValid | internal/agent/compression.go:1613-1691 | Validity is closed under removing whole groups |
| Truncate.DropToFitIsValid | internal/agent/compression.go:1687-1690 | Truncating a valid view leaves a valid view, so the final fallback branch is unreachable |
| Truncate.TruncatedKeepsAnchors | internal/agent/compression.go:1613-1691 | The result is a valid selection of whole groups that keeps the leading system message and the latest persisted user message |
| Truncate.TruncatedDropsShortestPrefix | internal/agent/compression.go:1673-1686 | Over budget, exactly the shortest prefix of (groups before the latest persisted user message, then those after it) that meets the budget is dropped, or all of them and then the checkpoint |
| Truncate.OverBudgetMeansNothingLeft | internal/agent/compression.go:1673-1686 | A result over budget means that nothing droppable and no checkpoint is left |
| TruncationCut.TruncatedIsCut | internal/agent/compression.go:1613-1691 | A view over budget becomes its anchors (system prompt, latest persisted user message, checkpoint) and all entries from a group boundary on, the earliest boundary that fits; if even the end does not fit, the prompt and the request are left |
| TruncationCut.OverBudgetIsPromptAndRequest | internal/agent/compression.go:1673-1686 | A result over budget is the prompt and the request, and nothing else |
| TruncationCut.MinimalIsAnchors | internal/agent/compression.go:1693-1706 | The fallback payload is exactly the anchors of the view |
| Compress.FinalizeCompressionFallback | internal/agent/compression.go:343-362 | The shared fallback returns the truncation and is flagged unsafe exactly when it was already or the result is invalid or over budget |
| Compress.PruneOldToolOutputs | internal/agent/compression.go:1513-1571 | Exactly the long tool outputs between the first message and the last user-role message are shortened and counted; nothing else changes |
| PrunedOutputs.PrunedEntries | internal/agent/compression.go:1513-1571 | Entry by entry: a tool result of more than 2000 characters with a user-role message behind it keeps its first 2000 characters and gets a note with its tool's name, its length and its lines; every other entry stays as it is |
| PrunedOutputs.PrunedCount | internal/agent/compression.go:1536-1568 | The reported count is the number of such results |
| Compress.SameShapeValid | internal/agent/compression.go:1513-1571 | Changing texts of tool messages does not change validity |
| TurnStartCompression.FindBatchTarget | internal/agent/compression.go:684-711 | The loop finds the least batch that brings the rest down to the target budget |
| TurnStartCompression.ReachTargetIsLeast | internal/agent/compression.go:697-711 | No shorter batch reaches the target, and this one does unless history runs out |
| TurnStartCompression.FindBatchEnd | internal/agent/compression.go:684-719 | The batch is the least run of whole groups from the second message that reaches the target without passing the last user-role message |
| TurnStartCompression.FindFirstKeptSeq | internal/agent/compression.go:798-805 | The recorded boundary is the number of the first retained persisted entry, 0 if none |
| TurnStartCompression.SummarizedViewIsValid | internal/agent/compression.go:807-838 | On views without checkpoints the compressed view is always valid: the defensive validation cannot fail |
| TurnStartCompression.CompressTurnStart | internal/agent/compression.go:684-902 | Every turn-start exit is sendable or flagged; a compressed result is the prompt, the summary and the exact kept suffix with fewer tokens, and it is returned exactly when the summarizer's answer allows one that may be sent; every other exit is the truncation |
| TurnStartCompression.SummarizerReads | internal/agent/compression.go:720-760 | The summarizer reads exactly the messages between the first one and the kept suffix, each prepared |
| ActiveTurnCompression.ActiveTurnRawTailTokens | internal/agent/compression.go:1002-1015 | The loop counts the persisted tokens after the latest persisted user message, synthetic entries left out |
| ActiveTurnCompression.FindProtectedGroup | internal/agent/compression.go:1180-1190 | The backward loop finds the protected suffix: a group is outside it exactly when the groups after it hold the required tail |
| ActiveTurnCompression.FindBatchEnd | internal/agent/compression.go:1192-1205 | The fewest groups are folded: before each of them the rest was over the limit and the group not protected, and behind the last one the rest is within the limit, or protected, or nothing |
| ActiveTurnCompression.Summarize | internal/agent/compression.go:1227-1299 | The batch is sent again exactly if the first summary is implausibly short; the last reply decides, a failed one is an error and an unusable one a fallback, with the reason for each |
| ActiveTurnCompression.CheckFolded | internal/agent/compression.go:1312-1333 | The folded view is accepted only if valid, smaller than the unpruned view, within budget and with the required raw tail; each of the four rejection reasons is true when given |
| ActiveTurnCompression.CompressActiveTurn | internal/agent/compression.go:1067-1352 | Every mid-loop exit is sendable or flagged; a compressed result is the prefix through the latest persisted user message verbatim, one checkpoint made by a summarizer that saw the request and every folded entry, and the suffix left by folding the fewest unprotected groups that meet the limit, smaller than the given total; valid views never end in a payload-validation fallback; and there is no old prefix to fold exactly when the recent tail protects the whole turn |
| ActiveTurnCompression.CheckpointedFolds | internal/agent/compression.go:1192-1312 | The same for every result that counts as a mid-loop compression: the fold is the least one, and the summarizer saw the request, every folded entry and an earlier checkpoint announced as one |
| FoldLimits.KeptWorkIsRecent | internal/agent/compression.go:1160-1205 | In the view's own entries: from every earlier group boundary on the work exceeds the limit; the kept work is within it unless every later boundary leaves less than the required tail, and it always holds that tail |
| FoldLimits.NothingToFoldIff | internal/agent/compression.go:1192-1208 | There is no old prefix to fold exactly when the whole work is within the limit or what follows its first group is less than the required tail |
| FoldLimits.LimitLeavesRoom | internal/agent/compression.go:1152-1174 | The limit leaves room in the budget for what is fixed and for the summary, beyond the recent tail also in the target budget, and gives the recent tail what the budget allows |
| FoldLimits.FoldedPayload | internal/agent/compression.go:1301-1312 | The payload of a folded view: everything before the request, the request followed by the delimited summary, and the kept work as it is |
| ActiveTurnCompression.CheckpointedViewIsValid | internal/agent/compression.go:1301-1314 | Folding whole work groups of a valid view leaves a valid view |
| ActiveTurnCompression.FloorIsGuaranteed | internal/agent/compression.go:1180-1208 | Without synthetic work entries the protected suffix alone holds the required raw tail, so the later floor check cannot fail |
| ActiveTurnCompression.FoldedTail | internal/agent/compression.go:1002-1015 | Folding keeps the latest user message, and the raw tail of the result is that of the kept suffix |
| Compressor.PreCompressionSnapshot | internal/agent/compression.go:1469-1495 | The announcement and its token counts: given exactly when enabled, with a positive context length and over budget |
| Compressor.CompressIfNeeded | internal/agent/compression.go:572-902 | For a positive context length and a valid view every exit is flagged unsafe or returns a valid view within budget; enabled and not forced, nothing changes exactly when the gate announces nothing; each outcome says where its view comes from; and when the mid-loop path escalates, the result is a durable summary exactly when there is one that may be sent |
| Compressor.CheckpointKeepsRequest | internal/agent/compression.go:1301-1310 | A mid-loop checkpoint keeps the request and everything before it verbatim |
| Compressor.SummaryKeepsRequestIff | internal/agent/compression.go:684-719 | A durable summary keeps the latest persisted user message exactly when that message is the last of role user or the batch target does not lie past it; otherwise no persisted user message is left |
| RequestLoss.CompressNudged | internal/agent/compression.go:627-666 | A whole call on a concrete view, unforced, in the middle of a turn with a reminder last: the compressor escalates and the durable summary takes the place of the request |
| SanitizeLoops.SanitizeProviderMessages | internal/agent/sanitize.go:21-60 | The repair loops over provider messages compute the specified repair |
| SanitizeLoops.SanitizeIndexedMessages | internal/agent/sanitize.go:66-108 | The indexed repair loops compute the specified repair, entry by entry |
| SanitizedViews.SanitizedViewStrips | internal/agent/sanitize.go:62-108 | Repairing a view and repairing its messages is the same |
| SanitizedViews.SanitizedKeepsNumbers | internal/agent/sanitize.go:62-108 | The persisted entries that stay are a subsequence of the view's, at most with filled contents, so their numbers stay in order and none is invented or repeated |
| SanitizedViews.SettledViewIsKept | internal/agent/sanitize.go:66-108 | A settled view is left alone, entry by entry |
| SanitizeLoops.UnansweredCallSet | internal/agent/sanitize.go:112-125 | The unique non-empty call IDs in call order, all unanswered |
| SanitizeLoops.ChooseResults | internal/agent/sanitize.go:29-37 | The walk over a tool run keeps the first result of each pending call and records which calls are answered |
| Sanitize.SanitizedIsSettled | internal/agent/sanitize.go:21-60 | Every list becomes settled: each group sealed by one result per unique non-empty ID, nothing stray, nothing empty |
| Sanitize.SanitizedFixpoints | internal/agent/sanitize.go:21-60 | Repairing is idempotent, and the identity exactly on settled lists |
| Sanitize.SanitizedIsValid | internal/agent/sanitize.go:21-60 | With non-empty, distinct assistant call IDs the repaired list always validates |
| Sanitize.SanitizedIdentity | internal/agent/sanitize.go:21-60 | With usable call IDs, repairing is the identity exactly on valid lists without empty contents |
| Sanitize.RepairedCallIds | internal/agent/sanitize.go:21-60 | No call is added, lost or reordered |
| SanitizeKeeps.SanitizedConserves | internal/agent/sanitize.go:66-108 | Nothing real is lost: in every group the first result of each call stays, verbatim and in order, an interrupted result stands exactly for each call without a result, in call order, and every other entry that is no stray result and no empty assistant message stays, at most filled |
| SanitizeKeeps.ConservesIff | internal/agent/sanitize.go:66-108 | A view is such a repair of another exactly when the repairer makes it |
| SanitizeKeeps.MessagesConserve | internal/agent/sanitize.go:21-60 | The repair of provider messages is that of a view with these messages, and no other list is |
| SanitizeKeeps.StandingStays | internal/agent/sanitize.go:21-60 | Prompts, questions, replies and call groups all stay, in order, at most with filled contents |
| Turn.Thread.AppendAssistantMessageWithToolCalls | internal/memory/thread.go:206-318 | One transaction: the whole group is stored, or a repeated call ID or failure leaves the thread as it was |
| Turn.ValidateNewToolCallGroup | internal/agent/agent.go:1287-1302 | A provider's group is accepted exactly when the history with it and a result per call validates |
| Turn.PersistInterruptedToolResults | internal/agent/agent.go:1309-1321 | Remaining calls get interrupted results in call order, up to the first store failure |
| Turn.ClosePending | internal/agent/agent.go:881-889 | Closing from call k on leaves the group with one result per call, in call order |
| Turn.ToolRound | internal/agent/agent.go:859-959 | Whatever the sink, store or cancellation does: nothing persisted, or a group whose results are the first k outputs and then interrupted ones, provided the closing appends succeed |
| Turn.OrderKeepsValid | internal/agent/agent.go:859-966 | Extending a valid history by complete groups in provider order, with usable IDs, keeps it valid |
| TurnLoop.DrainSteering | internal/agent/steering.go:145-169 | A drained batch is stored in order; the first failure drops the rest |
| TurnLoop.EndSteering | internal/agent/steering.go:181-187 | Leftover messages are stored in order, each failure dropping only that message |
| TurnLoop.ToolPass | internal/agent/agent.go:859-1075 | One tool-call response leaves nothing or its sealed group, and steering only after a complete group |
| TurnLoop.StreamPass | internal/agent/agent.go:1158-1248 | The turn of a model without tools leaves nothing, its text, or the sealed group of the calls found in its text |
| TurnLoop.Chat | internal/agent/agent.go:603-1120 | When a turn ends with its closing appends done, it has added the request, one sealed block per response it got to and the leftover steering, and a valid history stays valid; responses may be tool calls, a reply sent back for verification, a final reply, a streamed reply or a failure |
| TurnContents.TurnSays | internal/agent/agent.go:603-1120 | What a turn adds, message by message: the request first, then for each response its text, its calls with name and arguments, and its results, each call with its own output or interrupted, then steering messages introduced as such, in order |
| TurnLoop.TrailingUnansweredToolCalls | internal/agent/sanitize.go:139-160 | The backward loop finds the unanswered calls of the final persisted group, in call order |
| TurnContents.MissingAre | internal/agent/sanitize.go:139-160 | The reported calls are those of the group without a result, unchanged and in call order |
| TurnLoop.HealedIsValid | internal/agent/agent.go:1526-1552 | Self-heal: a fault-free history cut off inside a group becomes valid once the reported calls get interrupted results |
| StreamTurn.StreamToolRound | internal/agent/agent.go:1187-1236 | The streaming path stores results of function-type calls and seals the rest on an early return |
| StreamTurn.StreamHistoryValidIff | internal/agent/agent.go:1187-1236 | For arbitrary calls, the history it leaves is valid exactly when no call it went past is of another type and no call ID is empty |
| StreamTurn.ParsedHistoryIsValid | internal/agent/agent.go:1187-1236 | For the calls the parsers produce it is always valid: the branch that passes calls over is unreachable |
| TextCalls.Itoa | internal/agent/text_tool_parser.go:493-503 | The loop prints the decimal text |
| TextCalls.TicketCounter.NameCalls | internal/agent/text_tool_parser.go:458-512 | Every parser gives its calls the function type, positions in order and the next tickets of the shared counter, whoever else draws from it |
| TextCalls.IdsEqualIff | internal/agent/text_tool_parser.go:505-512 | Two generated IDs are equal exactly when tool name, position and ticket are, whatever the names look like |
| TextCalls.ParsedAreUsable | internal/agent/text_tool_parser.go:458-512 | The calls of one parse are of function type with distinct, non-empty IDs |
| TextCalls.ParsesShareNoId | internal/agent/text_tool_parser.go:505-512 | Two parses with different tickets share no ID |
| TextCalls.ProcessNeverRepeats | internal/agent/text_tool_parser.go:505-512 | Within one process no call gets the ID of an earlier one |
| Restart.RepeatAfterRestart | internal/agent/text_tool_parser.go:14-17 | After a restart the same calls get the same IDs, and the store refuses them in every thread |
| TurnLoop.ParsedIsWellFormed | internal/agent/agent.go:1187-1196 | What the parsers find in a streamed reply meets the demands of the turn loop |
| Anthropic.SplitMessages | internal/llm/anthropic.go:383-437 | The merging loop computes the turns and the system parts |
| Anthropic.SplitAlternates | internal/llm/anthropic.go:383-437 | Turns alternate strictly from a user turn and hold the blocks of the messages in order |
| AnthropicContents.TurnsShowMessages | internal/llm/anthropic.go:383-437 | Message by message, in order: a user or assistant text that is not empty, an assistant's function calls behind its text, a result that names a call, each on its side, and nothing else; a user text comes first exactly when the turns would begin with the assistant |
| AnthropicContents.TurnsKeepContents | internal/llm/anthropic.go:383-437 | The texts, the calls with name and arguments, and the results with their content, each sequence as in the messages |
| AnthropicContents.SystemPartsAre | internal/llm/anthropic.go:395-399 | The system parts are the texts of the system messages that have one, in order |
| Anthropic.SplitAnswersCalls | internal/llm/anthropic.go:383-437 | For a valid list of function calls, each turn's tool_use blocks are answered one-for-one by tool_result blocks at the head of the very next turn |
| Diff.FillTable | internal/tools/diff.go:94-110 | The table holds the longest-common-subsequence length of every pair of suffixes |
| Diff.LcsMiddle | internal/tools/diff.go:92-133 | Reading the table back gives the specified script |
| Diff.TraceIsOptimal | internal/tools/diff.go:112-132 | That script turns one side into the other and keeps as many lines as the table's corner says |
| Diff.LcsIsLength | internal/tools/diff.go:92-110 | The recurrence is the length of a longest common subsequence, and the only number that is |
| Diff.LcsOps | internal/tools/diff.go:50-88 | Trimming, middle and coarse path compute the specified operations, which always turn the old lines into the new ones |
| Diff.DiffedIsScript | internal/tools/diff.go:50-88 | Also on the coarse path the operations are an edit script; the kept lines are the trimmed ends plus the table's |
| Diff.LcsOfTrimmed | internal/tools/diff.go:50-61 | Stripping a common prefix and suffix keeps optimality: the whole length is the ends plus the middle's |
| Diff.KeepsLongestCommonSubsequence | internal/tools/diff.go:50-88 | The kept lines are a longest common subsequence of the whole files exactly when the middle fits the table or its sides share no line |
| Diff.NoShorterScript | internal/tools/diff.go:50-88 | When the middle fits, no other edit script is shorter |
| Hunks.CollectRuns | internal/tools/diff.go:148-160 | The scan finds the maximal runs of changed operations |
| Hunks.MergeRuns | internal/tools/diff.go:165-174 | Runs at most twice the context apart are merged |
| Hunks.RangesCover | internal/tools/diff.go:145-188 | Merged ranges cover every change, begin and end in changes, skip at most twice the context inside and more between; the widened ones stay apart |
| Hunks.MakeHunk | internal/tools/diff.go:191-225 | Line numbers and counts are the sizes of the two files before and inside the range |
| Hunks.BuildHunks | internal/tools/diff.go:145-188 | The whole builder computes the specified hunks |
| Hunks.HunksPatchBothWays | internal/tools/diff.go:145-225 | Splicing hunks into the old file at their old positions gives the new file, and in reverse the old one; hunks find their lines, in order and without overlap in both files |
| Hunks.DiffPatches | internal/tools/diff.go:244-262 | The same for any two files, and there is no hunk exactly when the lines are equal, on the coarse path too |
| HunkContext.HunksShowContext | internal/tools/diff.go:163-188 | Every hunk skips at most twice the context between its changes and shows exactly the context before and after them, less only where the file begins or ends |
| UnifiedDiff.SplitLines | internal/tools/diff.go:27-45 | The splitting loop computes the lines |
| UnifiedDiff.SameLinesIff | internal/tools/diff.go:27-45 | Two texts have the same lines exactly when they agree up to a missing final newline |
| UnifiedDiff.UnlinesOfLines | internal/tools/diff.go:27-45 | Joining the lines gives the text back, with its final newline |
| UnifiedDiff.UnifiedDiff | internal/tools/diff.go:244-262 | The printing loops compute the body text; it is empty exactly when the texts agree up to a final newline |
| UnifiedDiff.BodyEmptyIff | internal/tools/diff.go:244-262 | The same as a law about the printed body |
| UnifiedDiff.FinalNewlineIsInvisible | internal/tools/diff.go:242-262 | Two different texts with an empty diff |
| DiffReader.RangeReadsBack | internal/tools/diff.go:227-239 | A printed range is read back as its start and count by the conventions of the unified format |
| DiffReader.HunksReadBack | internal/tools/diff.go:252-261 | Every list of hunks is read back from its printed headers and lines, whatever the lines say |
| DiffReader.BodyReadsBack | internal/tools/diff.go:244-262 | For a path without newlines, the path and the hunks are read back from the whole text |
| DiffReader.PrintedDiffApplies | internal/tools/diff.go:244-262 | What is read from the printed text, applied to the old lines, gives the new ones, and backwards the old ones |
| DiffCounts.CountAddsRemoves | internal/tools/diff.go:266-278 | The loop splits the body text at newlines and counts marked lines that do not look like file headers |
| DiffCounts.CountsOfBody | internal/tools/diff.go:244-278 | The counts read from the body are those of the added or removed lines that do not begin with the doubled marker, plus twice the marked lines that newlines in the path give rise to |
| DiffCounts.CountsAreExactIff | internal/tools/diff.go:283-306 | The summary's count is right exactly when the changed lines that begin with the doubled marker are as many as the marked lines of the path, counted twice |
| DiffCounts.CountsForOneLinePath | internal/tools/diff.go:283-306 | For a path without newlines: exactly when no changed line begins with the doubled marker |
| DiffCounts.DoubledLineIsMissed | internal/tools/diff.go:283-294 | A file that gains the line of two plus signs is counted as unchanged |
| DiffCounts.PathLinesAreCounted | internal/tools/diff.go:244-278 | A path with a newline and a plus sign makes the count two too large |
| ThinkParser.FindTag | internal/llm/stream.go:158-165 | The leftmost occurrence of the tag, or none |
| ThinkParser.SplitPartial | internal/llm/stream.go:168-175 | The safe prefix and the held suffix |
| ThinkParser.Parser.Feed | internal/llm/stream.go:116-156 | Feeding leaves the state and, after joining neighbours, shows the characters of the batch specification on what was held plus the new text; no empty event |
| ThinkParser.StartIsLeftmostTag | internal/llm/stream.go:158-165 | The batch specification cuts at the leftmost tag, if there is one |
| ThinkParser.HeldIsLongest | internal/llm/stream.go:168-175 | What is held is the longest end of the text that begins the tag without completing it |
| ThinkParser.ParseInTwo | internal/llm/stream.go:116-156 | Reading a text and then another is reading what the first held, followed by the other |
| ThinkParser.ChunkingIsIrrelevant | internal/llm/stream.go:116-156 | Any chunking leaves the same state and shows the same characters in the same modes as feeding all at once |
| ThinkParser.AlwaysWaiting | internal/llm/stream.go:116-156 | The held buffer is always a proper prefix of the awaited tag |
| ThinkParser.NothingIsLost | internal/llm/stream.go:116-156 | Shown characters, tags in their places and the held buffer make up the input, each character in the mode the tags before it set |
| ThinkParser.AllIsShownIff | internal/llm/client.go:508-521 | At the end of a stream, however it was cut, the text has been shown in full exactly when nothing is held back; what is missing otherwise is the start of the awaited tag |
| ThinkParser.HeldTextIsDropped | internal/llm/client.go:508-521 | Whatever came before, a proper start of the awaited tag that ends the stream is never shown |
| Store.ThreadStore.AppendMessage | internal/memory/thread.go:233-318 | One transaction: the row gets the greatest number plus one, or a missing thread, a taken call ID or a failure changes nothing; a call ID that is taken in any thread or repeated is always refused |
| Store.ThreadStore.SaveCompression | internal/memory/compression.go:33-55 | A record is stored with a new row ID, whatever boundary it names |
| Store.ThreadStore.GetLatestCompression | internal/memory/compression.go:59-94 | The loop finds the newest record by creation time, then row ID |
| Store.ThreadStore.GetThreadWithMessagesFromSeq | internal/memory/compression.go:99-128 | The messages from a number on |
| Store.ThreadStore.DeleteMessagesAfter | internal/memory/thread.go:596-605 | Undo removes the messages from a number on and then the records that point there; if the second statement fails, the records stay |
| Store.ThreadStore.LoadHistory | internal/agent/agent.go:1363-1391 | Loading a turn's history with the fallback for dangling records |
| Store.SaveKeepsSoundIff | internal/memory/compression.go:33-55 | Since the store does not check the boundary, a save keeps this exactly when its caller's boundary is live |
| Store.LatestIsRecord | internal/memory/compression.go:59-94 | The loaded record is one of the thread's and no other is later |
| Store.FallbackIff | internal/agent/agent.go:1378-1387 | The dangling-record fallback is taken exactly for a boundary past the last message |
| Store.SoundLoads | internal/agent/agent.go:1378-1391 | In a sound store it is never taken, and the newest summary comes with exactly the suffix it leaves out |
| Store.SavedIsLatestIff | internal/memory/compression.go:59-94 | A new record is the one loaded next exactly when no older one carries a later time |
| Store.UndoRestores | internal/memory/thread.go:596-605 | Undoing from the first appended message restores the thread |
| Store.BuiltViewIsLoaded | internal/agent/agent.go:1448-1524 | A built view has no checkpoint, and its persisted entries are exactly the loaded messages |
| BuiltViews.BuiltViewShows | internal/agent/agent.go:1482-1525 | A built view is its head, one user message with the newest summary if the record's boundary is not past the last message, and the stored messages from the boundary on, each with its role, text, calls and number; otherwise the head and all messages |
| BuiltViews.SummaryIsShownIff | internal/agent/agent.go:1378-1492 | A summary is shown exactly when there is a record and the fallback is not taken |
| BuiltViews.RepairKeepsSummary | internal/agent/agent.go:1482-1552 | The repair of a built view leaves head and summary where they are |
| BuiltViews.NextBuildAgrees | internal/agent/compression.go:807-902 | After a durable compression whose record is the newest, the next build shows the same summary and behind it exactly the persisted entries that the compressed view kept |
| BuiltViews.NextTurnSees | internal/agent/compression.go:856-902 | The same for a compression event in a thread whose view is in step with the store |
| BuiltViews.LoadedSummaryIsShown | internal/agent/agent.go:1482-1492 | After any events: if the next turn loads a new record, it shows its summary behind the head |
| Store.ReloadAgrees | internal/agent/compression.go:798-902 | The boundary a turn-start compression records is live, and when its record is the newest, the next turn loads exactly the entries the compressed view kept |
| Store.KeptAreReloaded | internal/agent/compression.go:798-902 | Also when repairs dropped stray results: of the persisted messages in the view, exactly those kept in memory are loaded again |
| Session.StepKeeps | internal/agent/agent.go:1363-1552 | Every event of a thread's life (build, append, store, remind, durable summary, checkpoint, shortening, undo, half an undo) keeps the invariant for every view in use: numbers 1..n; rows are shown in the order they were stored; an entry whose row is still stored has its number and shows it |
| Session.RunKeeps | internal/agent/agent.go:603-1120 | The same for every run of events, with any number of views and undos at any moment |
| SessionTruth.SaveTrueIff | internal/agent/compression.go:856-902 | A saved record is true, that is, its boundary is the stored row it was read off, exactly when that row is still stored at the save |
| SessionTruth.RunTruthIff | internal/memory/thread.go:593-605 | All records are true throughout a run exactly when every save finds the row of its boundary still stored and no half-done undo removes the row of a boundary |
| SessionTruth.StillStoredIff | internal/memory/thread.go:596-605 | A row is stored after a run exactly when no undo of the run reached down to its number |
| SessionTruth.SaveTrueSinceIff | internal/agent/compression.go:856-902 | For any view: a save gives a true record exactly when no undo reached down to its boundary since the boundary's row was last known to be stored |
| SessionTruth.CommandTrueIff | internal/agent/compression.go:554-567 | The compress command, with anything else going on while it waits: its record is true exactly when no undo since its view was built reached down to the boundary |
| SessionTruth.LoadsWhatIsKept | internal/agent/agent.go:1363-1391 | In every state of such a run loading does not take the fallback: it gives the newest summary with exactly the messages from its boundary on, and the boundary is the row it was read off |
| StaleSummary.RunCommand | internal/agent/compression.go:554-567 | What the forced compression of two exchanges returns: a summary of the first, kept from the third message on |
| StaleSummary.StaleRun | internal/backend/backend.go:202-204 | The run in which both exchanges are undone before that summary is saved: the next message is loaded by the fallback, and two messages later the stale summary is loaded and hides the first two |
| SessionTruth.SavedIsLoadedIff | internal/agent/compression.go:856-902 | The next turn loads a saved record exactly when no older record carries a later time and its number is in use |
| SessionTruth.CompressionIsReloaded | internal/agent/compression.go:856-902 | If the record is true, of the stored rows in view exactly those are loaded that the compressed view kept |
| SessionSync.CompressorSteps | internal/agent/compression.go:572-902 | Whatever the compressor returns for a view, taking the returned view is one of the events |
| SessionSync.CleanTurnInSync | internal/agent/agent.go:603-1120 | From a build that had nothing to repair, through appends, reminders and saved summaries, the persisted entries in view are exactly those the store would load, whatever other views do that leave the store alone |
| SessionSync.HealIsStoreThenBuild | internal/agent/agent.go:1526-1548 | Storing interrupted results during a build and appending them to the view is the same as building after storing them |
| Fork.CollectIds | internal/memory/thread.go:442-466 | The loops pair every stored call ID with one fresh ID |
| Fork.ForkThread | internal/memory/thread.go:376-548 | Unless a write fails, a fork succeeds exactly when every stored result answers a stored call; it adds one thread equal to the source under a one-to-one renaming of call IDs, with its title, model, workspace and plan, and otherwise nothing changes |
| Fork.ForkIsValidIff | internal/memory/thread.go:444-520 | The source is sendable exactly when its fork is and the source stored no empty call ID |
| Fork.ForkKeepsAnswers | internal/memory/thread.go:468-520 | Rows are copied in order with everything but their IDs, and a copied result answers exactly the copies of the calls it answered |
| Fork.ForkUsesDrawnIds | internal/memory/thread.go:442-466 | The calls of the copy have the drawn IDs, in reading order, each used once |
| Fork.ForkRepairsEmptyId | internal/memory/thread.go:444-520 | A stored exchange with an empty call ID, which only a direct call of the store can write: not sendable, but its fork is |
| Fork.ForkLoadsEverything | internal/memory/thread.go:485-520 | The fork has no summary and loads its whole history, numbered as in the source |
| Plan.AllocateTodoID | internal/memory/plan.go:743-760 | The loop ends and computes the specified allocation |
| Plan.AllocateIsLeast | internal/memory/plan.go:743-760 | The allocated ID is the least free number from the counter on and stays below the 64-bit limit; failure means all are taken |
| Plan.ClaimIds | internal/memory/plan.go:618-638 | Supplied IDs are checked one by one: repeated and too large ones are errors, and the counter passes every number |
| Plan.PlaceDrafts | internal/memory/plan.go:640-671 | Drafts are placed in order, blank IDs allocated |
| Plan.PrepareReplacement | internal/memory/plan.go:603-672 | The two passes compute the specified list or the first error |
| Plan.PrepareFacts | internal/memory/plan.go:603-672 | Positions are 1..n, IDs distinct, supplied ones kept, the next number above all in use; allocated numbers start at the plan's next number |
| Decimal.ParseOfFormat | internal/memory/plan.go:630-637 | Formatting a number and parsing it back gives the number, for all 64-bit values |
| PlanStore.Compact | internal/memory/plan.go:440-457 | Closing up positions one row at a time never collides with a position in use, and yields 1..n |
| PlanStore.ValidateTodoUpdates | internal/memory/plan.go:691-721 | The first error among the changes, if any |
| PlanStore.ValidateTodoIDs | internal/memory/plan.go:723-741 | The first error among the IDs, if any |
| PlanStore.AppendFacts | internal/memory/plan.go:160-263 | New items go to the end with unused numbers from the plan's next one on; the rest is untouched |
| PlanStore.ReplaceFacts | internal/memory/plan.go:268-340 | A replacement is sound, keeps supplied IDs and allocates from the plan's next number |
| PlanStore.UpdateFacts | internal/memory/plan.go:345-403 | Each named item is changed as asked and every other one is left alone |
| PlanStore.DeleteFacts | internal/memory/plan.go:407-469 | Remaining items keep ID, text, status and order; positions are 1..n again |
| PlanContents.NewAcceptedIff | internal/memory/plan.go:160-200 | New drafts are accepted exactly when none brings an ID or a position and each is for this thread, has a text and no unknown status |
| PlanContents.ReplacementAcceptedIff | internal/memory/plan.go:603-638 | The drafts of a replacement pass exactly when each is acceptable, supplied IDs differ and none is the greatest number |
| PlanContents.ChangesAcceptedIff | internal/memory/plan.go:691-721 | Changes are accepted exactly when each has an ID and gives something valid and no two name the same item |
| PlanContents.IdsAcceptedIff | internal/memory/plan.go:723-741 | Deletions are accepted exactly when no ID is blank and none is given twice |
| PlanContents.AppendedCarry | internal/memory/plan.go:160-263 | Every appended item has its draft's text and status and the present time |
| PlanContents.ReplacedCarry | internal/memory/plan.go:268-340 | Every item of a replacement has its draft's text and status; one that keeps an ID keeps its creation time, the others get the present time |
| PlanContents.UpdatedItems | internal/memory/plan.go:345-403 | A named item takes the given text and status and keeps the rest; the change time is noted; the others stay as they are |
| PlanContents.DeletedItems | internal/memory/plan.go:407-469 | Exactly the items not named stay, in order; an item is touched only if its position changes |
| PlanStore.EditKeepsSound | internal/memory/plan.go:160-469 | Every successful edit keeps the plan sound, raises the revision by one and never lowers the next number |
| PlanStore.HeldStaysBelow | internal/memory/plan.go:160-469 | Through any run of edits, no ID the plan ever held carries a number from its next one on |
| PlanStore.AllocatedIdsAreNew | internal/memory/plan.go:603-672 | An ID allocated by an edit was never held by an item of this plan before |
| PlanStore.RevisionCountsEdits | internal/memory/plan.go:160-469 | The revision counts the successful edits |
| PlanEdits.Plans.CreatePlan | internal/memory/plan.go:83-117 | The transaction commits the specified plan or fails with the specified error and changes nothing |
| PlanEdits.Plans.CreateTodos | internal/memory/plan.go:160-263 | The same for appending, creating the plan on demand |
| PlanEdits.Plans.ReplaceTodos | internal/memory/plan.go:268-340 | The same for replacing the list |
| PlanEdits.Plans.UpdateTodos | internal/memory/plan.go:345-403 | The same for changes; an unknown ID leaves the plan as it was |
| PlanEdits.Plans.DeleteTodos | internal/memory/plan.go:407-469 | The same for removals |
| Steering.SteeringQueues.EnqueueUserMessage | internal/agent/steering.go:53-68 | A trimmed message is queued, or rejected as empty, without an active turn or over the cap; other threads are untouched |
| Text.TrimIs | internal/agent/steering.go:53-57 | Trimming takes off white space only, at both ends, and all of it |
| Steering.SteeringQueues.BeginTurn | internal/agent/steering.go:71-75 | Beginning a turn sets its flag and leaves every queue alone |
| Steering.SteeringQueues.EndTurn | internal/agent/steering.go:79-86 | Ending a turn clears the flag and hands over the whole queue at once |
| Steering.SteeringQueues.Drain | internal/agent/steering.go:90-96 | Draining hands over the whole queue and keeps the turn active |
| Steering.RunKeeps | internal/agent/steering.go:28-96 | Under every interleaving each accepted message has had exactly one fate, is in flight or is queued, in sending order |
| Steering.AcceptedArePersisted | internal/agent/steering.go:145-187 | While appends and the sink succeed, every accepted message is persisted exactly once in sending order, and between turns all are |
| Steering.QueuesStayBounded | internal/agent/steering.go:53-96 | Queues never exceed the cap and are empty while no turn is active, failures or not |
| Steering.SettledBeforeNextTurn | internal/agent/agent.go:643-672 | When a turn stores its first message, everything accepted before it began has met its fate and nothing accepted since has |
| Steering.FailureLosesBatch | internal/agent/steering.go:145-169 | A failed append loses the message and the rest of its batch, a failed sink only the rest |
| ToolBatch.ToolBatchCanRunConcurrently | internal/agent/tool_execution.go:19-35 | At least two calls, all of function type and all allowed to run concurrently |
| ToolBatch.RunSequentially | internal/agent/tool_execution.go:55-64 | The loop fills one slot per call: with its output, with the cut output of a call that was running when the request was cancelled, and with the not-completed text after that |
| ToolBatch.ScheduleKeeps | internal/agent/tool_execution.go:66-92 | Every interleaving keeps the pool's invariant: indices are taken in order, held by one worker, started once, and slots hold their own call's output |
| ToolBatch.BoundedAndOnce | internal/agent/tool_execution.go:66-92 | At any moment at most eight calls run, and no call is started twice |
| ToolBatch.CompletedIsSequential | internal/agent/tool_execution.go:66-92 | When all workers are done every slot is filled: as by the sequential loop without cancellation, otherwise by the call's own output or the not-completed text |
| ToolBatch.PickStep | internal/agent/tool_execution.go:78-91 | While some worker is not done some worker can take a step: the pool cannot block |
| ToolBatch.SchedulesAreFinite | internal/agent/tool_execution.go:66-92 | No schedule of n calls has more than 3n + 8 worker steps |
| ToolBatch.ExecuteToolCallBatch | internal/agent/tool_execution.go:46-93 | A repeated batch is answered without running; otherwise every slot holds its own call's output, cut short or not, or the not-completed text, and exactly the sequential result unless cancelled |
| Wrap.Tokenize | internal/cliui/wrap.go:22-49 | The scan computes the cells, escape sequences as zero-width atoms |
| Wrap.TokensJoin | internal/cliui/wrap.go:22-49 | Tokenizing loses nothing |
| Wrap.BuildSegs | internal/cliui/wrap.go:61-74 | The nested loops compute the runs of white space and words |
| Wrap.SegsJoin | internal/cliui/wrap.go:61-74 | The runs put together are the line |
| Wrap.WrapChunk | internal/cliui/wrap.go:87-104 | The loop computes the chunks |
| Wrap.ChunksFacts | internal/cliui/wrap.go:87-104 | Chunks put together are the word, and none is too wide unless a single cell is |
| Wrap.WrapLineCells | internal/cliui/wrap.go:110-184 | The packing loop computes the specified lines |
| Wrap.WordLinesFit | internal/cliui/wrap.go:110-184 | When no cell is wider than the room beside the indent, no line with a word is wider than the width |
| Wrap.InkIsKept | internal/cliui/wrap.go:110-184 | The non-white-space cells come out in order, each once |
| WrapSlices.LinesAreSlices | internal/cliui/wrap.go:110-184 | A wrapped line is laid out in slices of its source, in order: on a line everything is as in the source, between lines and at the end only white space is missing; a line hangs behind the indent unless it is the first or follows the end of a cut word; it ends only where the next word, or the next cell of a cut one, does not fit |
| WrapCuts.WordCutIff | internal/cliui/wrap.go:149-179 | A word is broken over two lines exactly when the line is wrapped, the word is wider than the room beside the indent, and it does not fit behind what its line holds at its turn |
| WrapCuts.FirstCutIff | internal/cliui/wrap.go:149-179 | Up to the first cut of a wrapped line: exactly when the word is wider than the room |
| WrapCuts.NextCutIff | internal/cliui/wrap.go:170-179 | The next word after a cut one: exactly when it is wider than the whole width |
| WrapCuts.WordCutByWidths | internal/cliui/wrap.go:149-179 | Every word, in terms of widths alone: it is cut exactly when the line is wrapped, the word is wider than the room beside the indent, and wider than what the words and white space since the last break leave of the width |
| WrapCuts.NarrowWordsAreUncut | internal/cliui/wrap.go:149-179 | A word no wider than the room is never cut |
| WrapCuts.NoWiderThanWidthCanBeCut | internal/cliui/wrap.go:186-203 | A word no wider than the width that is cut all the same |
| WrapCuts.BlanksOverflow | internal/cliui/wrap.go:110-119 | White space alone is never wrapped, so it overflows at every width |
| Wrap.WrapPrint | internal/cliui/wrap.go:193-203 | The line-by-line driver computes all output lines |
| Wrap.PrintedLinesFit | internal/cliui/wrap.go:193-203 | Over a whole text no line with a word overflows and all words are printed in order |

## Left out

- Turn.ToolRound: `k` is a ghost result; which failure happened is not reported, because the source's error texts are not modelled.
- TurnLoop.Chat: a reply may be sent back for verification any number of times, where the code does so at most once in a turn; the in-memory view at each request is arbitrary, because compression and repair may rewrite it; the per-request validation is therefore not part of the loop.
- Session.StepKeeps: a build reads the record, the rows and their calls in one step, where the program runs several queries; an undo between them is not modelled.
- Store.ThreadStore.AppendMessage: does not model the seq-conflict retry, because one transaction is one atomic step here; a row keeps the type of its calls, where the tables have no column for it and loading gives every call the function type.
- Anthropic.SplitMessages: returns the system parts unjoined and keeps arguments as text, because joining and JSON decoding add nothing to the turns.
- DiffReader.BodyReadsBack: speaks of paths without newlines; a path with one puts further lines before the hunks, which no reader of the format expects.
- Wrap.WrapPrint: works on the source lines and returns lines of cells, because splitting at and joining with newlines adds nothing.
- Fork.ForkThread: creation times of threads and messages are left out, as they are everywhere in the store.
- PlanStore.RevisionCountsEdits: the revision is an unbounded number, not a 64-bit one.
- Tokenization, secret redaction, summary wording and retry quality: abstract counts and arbitrary answers.
- Wording of checkpoints, interrupted results and the steering prefix: abbreviated constants.
- Multi-part user content: a message's content is its flattened text.
- Strings are sequences of characters; invalid UTF-8 and byte lengths are not modelled.
- SQL text, locking and busy retries, migrations, the full-text index: each transaction is one atomic step.
- HTTP clients, event streams, watchdogs, MCP sessions, shell, git and file tools: outside effects.
- The terminal interface, themes, markdown and key handling: user interface over code that is not here.
- Configuration parsing, catalog pricing, skills and prompt files: simple plumbing.
- TextCalls.TicketCounter.NameCalls: takes the calls a parser has found; which texts the four dialects accept is heuristic and not part of this model. The counter is unbounded, not a wrapping 64-bit one.
- Compressor.PreCompressionSnapshot: the summarizer's model name in the announcement is left out.
- Approvals, the tool registry, limiters and the tropical reminders: heuristics or files that are not part of this model.
- The subagent run loops: they repeat the main turn loop with other tables.
- Telemetry fields of compression results and events: copied numbers.
