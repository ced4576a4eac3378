# Verified model of the analysis-agent runtime

The server of this repository runs a data-analysis agent: it keeps a conversation with a language model, lets the model edit a report through tools, tracks goals and facts, and stores everything as events. This project models the parts of that server where a small mistake would corrupt a session silently, and proves what they guarantee for every input, every run and every interleaving.

| file | models |
|---|---|
| `Text.dfy` | the string helpers of Go that the other files share |
| `SqlScanner.dfy` | the two SQL scanners and the read-only gate (`server/data/schema.go`) |
| `TimeColumns.dfy` | time-column inference (`server/data/schema.go`) |
| `SemanticMetadata.dfy` | re-import against slow enrichment (`server/data/ingester.go`) |
| `Goals.dfy` | the goal forest and the search behind CanFinalize (`server/agent/memory.go`) |
| `Conversation.dfy`, `Engine.dfy` | history, compaction, main loop, delegate loop (`server/agent/engine.go`, `worker.go`) |
| `RunOutcome.dfy` | what a run tells and adds to the history, stated over its surroundings |
| `Encoders.dfy` | the three provider request formats (`server/agent/llm.go`) |
| `Projection.dfy`, `ReportBlocks.dfy`, `ReportDelivery.dfy` | the report editor, its edit guard and its delivery state (`server/tools/report_*.go`) |
| `FinalizeTool.dfy` | finalizing against the goal forest (`server/tools/report_finalize.go`) |
| `RunLifecycle.dfy` | the run slot, the event hooks and the stored status (`server/session/types.go`, `server/handler/runtime_hooks.go`) |
| `Runtime.dfy` | engine, dispatcher and session together: what the events of a run do to the run slot |
| `EditRuns.dfy` | the edit guard while user messages arrive (`server/handler/ws.go`, `server/session/types.go`) |
| `Replay.dfy` | rebuilding memory and goals from stored events, over tools, delegations, resets and restarts (`server/handler/runtime_state.go`) |
| `PersistQueue.dfy` | the asynchronous event store (`server/handler/ws.go`) |

Sequential code that updates fields is a class whose methods are tied to a function of the old state; loops are methods with invariants; concurrent protocols are step relations whose steps are single lock acquisitions or atomic operations, and the theorems range over all sequences of steps. Model replies, tool outcomes, cancellation, fresh identifiers and the HTML entity decoder are arbitrary parameters.

## Main results

- **Edit guard.** A selection is located exactly when its range lies in the visible text and shows the same words as the selected text. A scope refuses exactly what it does not admit; an edit of the captured target that keeps both ends of its content and everything else gets through. Under a guarded text selection, and if and only if no user message is prepared while the run holds its slot, no sequence of block edits changes, reorders or drops any other block, and the target keeps its kind, title, chart, sources and the raw text on both sides of the selection. Everything the reader sees outside the selection lies in that raw text, except a rune that comes from the same HTML entity as a selected one. Every text is made of words, marks, tags, entities, links and images, and shows exactly its words, decoded entities and link and image texts.
- **Honest delivery.** A report whose state is "finalized" has a title, something to show, resolved and unshared charts, and is exactly what was finalized, by a call that found every blocking goal done. Among the edits, finalize calls and rollbacks of a session one kind of step breaks this, and the model says precisely which.
- **Pairing.** Over a whole session of runs and replies no history carries a tool result without its call, while batches have at most 10 calls; compaction keeps this exactly while results are within 10 items of their call. A run from an answered history leaves an answered one if and only if nothing ended its last batch, or a successful finalize did and was the last call; the request for the closing words is answered under the same condition. In the delegate loop every call is answered exactly once in every request.
- **Outcome.** What happened to a run decides its last event and its stored status: completed for a text reply or closing words after a finalize, cancelled when cancellation is seen, waiting for a readable input request, failed otherwise. While no reply is over the token limit nothing is cut from a history, and a run only adds to it: the user's text first, its reply last.
- **One verdict.** Every run emits exactly one run-state event, as its last event; none if and only if some call it reached, other than an input request, was cancelled. Unless saving a finalized report failed, such a run never gives its slot back, and every other run frees it or leaves it waiting for the user. Events that tools and delegates send under another run id are not counted.
- **Encoders.** The three formats transmit the same pieces in the same order: every call and every result of the history with its text, the assistant's texts, and as the user's words the context, the user's texts and the task.
- **Goal search.** It ends if and only if no live walk from a blocking root meets an id twice, which holds for every parent graph in which an id has one parent, and in every session that gives new goals unused ids, restored sessions included. It visits exactly the open paths, blocks exactly on unfinished blocking roots, and its lines are those of the live chains that end at a goal without a live child.
- **Lifecycle.** In every interleaving: one active run, one terminal status per run, no reply without its own suspension. A taken slot can become free again if and only if an engine works for its run or the run waits for a reply. A finished run keeps a terminal stored status, whatever is interleaved, if and only if none of its earlier writes was still due when it finished.
- **Replay.** Over every session, with delegations, resets and restarts, the model says exactly when replayed memory and goal statuses equal the live ones. In a session that was never reset or restarted, and gives new goals unused ids, all goal statuses are rebuilt.
- **SQL.** The two scanners agree, stripping is idempotent, text outside literals and comments is kept, and the verdict ignores the inside of them. A query is accepted exactly when what is left starts with SELECT or WITH, holds no semicolon, and has no forbidden keyword among its words.
- **Time columns.** A value is recognised as a period exactly when it is one of the spellings of that period; a column is accepted exactly when enough of its values are, and its answer does not depend on map order.
- **Enrichment and event store.** An analysis is stored exactly when the imports and drops meanwhile leave its schema in place. A job is refused exactly when eight overflow increments stand as its sender counts up; until the worker leaves, every other accepted job can still be saved, once.

## Where the code departs from the obvious statement

- An upsert removes the old block before it resolves its anchor. With an unknown anchor the block is lost and a finalized report still says "finalized" (`FailureChangesNothingOrDrops`, `StepKeepsHonest`, `LostBlockStillFinalized`).
- The selection check is a prefix test and a suffix test, which may overlap (`ProtectedContentSplits`, `EndsMayOverlap`).
- A result more than 10 items after its call can lose the call to compaction (`CutKeepsPairing`, `LongBatchIsCut`).
- A batch that asks the user, finalizes early or is cancelled leaves its later calls unanswered, and compaction after the closing words does not hide that (`LeftIsPaired`, `ClosedAnsweredIff`, `RoundKeeps`).
- Five ways to leave the slot taken for good: a run cancelled while it waits for input (`CancelledWaitIsStuck`, `CancelledSuspensionIsStuck`), a run cancelled while a tool executes, which ends without any run-state event (`OneVerdict`, `OrphanIffCutShort`), a run whose record cannot be created or whose input cannot be built, the latter stored as failed (`GivenUpIsStuck`), and a reply that the engine does not take (`DroppedReplyIsStuck`).
- A user message sets the edit scope, and may load a stored report, before the busy session refuses its run. A message without an edit context lifts the guard of the run at work (`MessageLiftsGuard`, `GuardHoldsIffNoMessage`).
- A successful finalize call reports "finalized" whatever the title; with a blank title the report stays a draft (`FinalizedIffTitled`).
- The "waiting" status is written outside the session lock and may land after the terminal status (`StaleWaitingWrite`, `TerminalStatusIffNothingDue`).
- Two goals with one id and different parents can let the goal search descend without end (`SharedIdNeverEnds`, `SearchEndsIffSettles`).
- The replay repeats an added goal (`AddedGoalIsRepeated`). After a restart the repeated list is the live one, and closing the goal changes one copy live and every copy in the replay (`RestartedGoalStaysPending`).
- Facts are clipped at 2000 bytes. The replay restores a clipped fact at full length, unless the result of that save was dropped by a cancellation. A clip inside a rune leaves bytes that a stored snapshot replaces, so even that snapshot differs (`WideFactIsNotRebuilt`). A delegate's save into a full memory is refused, stored as a success, and replayed (`RefusedSaveIsReplayed`). A session reset stores nothing, so a replay brings the old facts and goals back (`ReplayRebuildsMemory`, `ReplayRebuildsStatuses`).
- A goal closed without a result keeps an earlier one live, and the replay blanks it (`CloseIsRebuiltIff`).
- A chart id with space around it is never found again, so each call with it adds a chart (`ChartReadsBack`).
- A heading of several number signs loses only the first of them in the projected text (`HeadingKeepsHashes`).
- A job queued after the worker's last look is never saved (`LateJobIsStranded`).
- A comment in `server/agent/worker.go` (lines 421-424) says the delegate's compaction differs from the engine's, and one in `server/handler/ws.go` (lines 827-828) that a full queue drops events at once. The code compacts in the same way, and tries an overflow writer first; the model follows the code.

## Model

| member | source | states |
|---|---|---|
| `SqlScanner.HasMultipleStatements` | server/data/schema.go:670-737 | the four-flag scanner reports a second statement exactly when the other scanner's output keeps a semicolon |
| `SqlScanner.StripSQLStringsAndComments` | server/data/schema.go:739-811 | the four-flag stripper computes the one-step specification shared by both scanners |
| `SqlScanner.ScanOne` | server/data/schema.go:746-808 | one iteration of the stripper: flags, offset and character written are those of the specification |
| `SqlScanner.StripIdempotent` | server/data/schema.go:739-811 | the output is never longer, holds no quote, "--" or "/*", and stripping it again changes nothing |
| `SqlScanner.StripIgnoresInside` | server/data/schema.go:739-811 | replacing the inside of a closed literal or comment by other well-escaped text does not change the output |
| `SqlScanner.CleanPrefixIsKept` | server/data/schema.go:739-811 | text without quotes and comment marks is kept as it is, whatever follows it |
| `SqlScanner.PlainThenRegion` | server/data/schema.go:739-811 | plain text before a closed literal or comment stays, a comment becomes one blank and a literal two, and the rest is stripped in turn |
| `SqlScanner.NormalizeReadOnlyQuery` | server/data/schema.go:642-668 | the verdict and the query returned, which is a single statement when accepted |
| `SqlScanner.AcceptedIff` | server/data/schema.go:642-668 | accepted exactly when what is left outside literals and comments is one statement that starts with SELECT or WITH and has no forbidden keyword among its words |
| `SqlScanner.KeywordIsWholeWord` | server/data/schema.go:663 | a forbidden keyword is found exactly when it is one of the words of the text, so a column name that starts with one is not |
| `SqlScanner.CoreOfPadded` | server/data/schema.go:643-649 | space around the query and one semicolon behind it make no difference |
| `Text.RunsAreWholeWords` | server/data/schema.go:663 | the words of a text are exactly what stands in it with no word character before or after |
| `SqlScanner.VerdictIgnoresInside` | server/data/schema.go:642-668 | the accept or reject verdict, with trimming and the trailing semicolon, ignores the inside of closed literals and comments |
| `TimeColumns.DetectTimeColumnInfo` | server/data/schema.go:262-347 | with the count map walked in any order, the result meets an order-free requirement |
| `TimeColumns.Dominant` | server/data/schema.go:282-292 | any walk of the map finds a maximal count |
| `TimeColumns.AcceptedIsUnique` | server/data/schema.go:294-300 | an accepted grain is the only one and strictly the most frequent |
| `TimeColumns.AcceptedIffShare` | server/data/schema.go:294-300 | a grain is accepted exactly when 60 percent of the values have it, or 80 if the name suggests no time column |
| `TimeColumns.AnswerIsUnique` | server/data/schema.go:262-347 | the requirement has one answer, so the result does not depend on map order |
| `TimeColumns.CoverageIsChronological` | server/data/schema.go:317-342 | the digits of every matched raw value of the grain lie between those of the coverage bounds |
| `TimeColumns.CoverageIsObserved` | server/data/schema.go:337-342 | both coverage bounds are values of the column |
| `TimeColumns.SamplesAreEarliest` | server/data/schema.go:324-342 | the samples are the five earliest periods in order; the period count is the profiled one or that of the recognised periods |
| `TimeColumns.FormOrderIsNumeric` | server/data/schema.go:317-322 | text order of canonical forms is the order of the numbers they spell |
| `TimeColumns.RecognisedIffSpelled` | server/data/schema.go:356-395 | a value is recognised as a period exactly when it is one of the spellings of that period, those without separators only with the name hint |
| `TimeColumns.CanonicalShape` | server/data/schema.go:356-395 | canonical forms of one grain have one shape |
| `TimeColumns.NormalizeKeepsDigits` | server/data/schema.go:356-395 | the canonical form spells exactly the digits of the raw value; only separators change |
| `SemanticMetadata.InterleavingIsAtomic` | server/data/ingester.go:763-838 | every interleaving of imports, drops and enrichments has the effect of one with atomic enrichments |
| `SemanticMetadata.ReadyMeansCurrent` | server/data/ingester.go:700-716 | semantic_ready implies the stored analysis was computed from exactly the stored schema |
| `SemanticMetadata.StoredIffSchemaStands` | server/data/ingester.go:763-838 | the analysis of a schema is stored exactly when the imports and drops since it was read leave that schema in place; otherwise no row changes |
| `Goals.ChainNeverRepeats` | server/agent/memory.go:171-224 | while an id has one parent, a walk from a root never meets an id twice, even with cyclic parent pointers |
| `Goals.WalkIsShort` | server/agent/memory.go:205-224 | when no open path meets an id twice, the search is no deeper than there are goals |
| `Goals.OneParentSettles` | server/agent/memory.go:171-224 | in a list where goals with one id have one parent, no open path meets an id twice |
| `Goals.Pump` | server/agent/memory.go:204-224 | an open path may go round a segment between two goals of one id once more |
| `Goals.SearchEndsIffSettles` | server/agent/memory.go:198-224 | open paths are bounded if and only if none meets an id twice, and then by the number of goals |
| `Goals.SearchVisitsOpenPaths` | server/agent/memory.go:198-233 | the search stands exactly on the live walks from blocking roots |
| `Goals.EachGoalVisitedOnce` | server/agent/memory.go:198-233 | with distinct ids the search ends and visits no goal twice |
| `Goals.NoBlockersIffRootsDone` | server/agent/memory.go:235-249 | there is no blocking branch exactly when every blocking root is complete or rejected |
| `Goals.BlockersAreLiveChains` | server/agent/memory.go:198-233 | a line is reported exactly when it renders a live chain from a blocking root to a goal without a live child |
| `Goals.RenderJoins` | server/agent/memory.go:204-222 | the line of a path joins the lines of its parts with an arrow |
| `Goals.RootIffNoParent` | server/agent/memory.go:171-196 | a goal is a root exactly when it hangs below no goal of the list |
| `Goals.SharedIdNeverEnds` | server/agent/memory.go:198-224 | a list of two goals of one id with live walks of every length |
| `Goals.Snapshot` | server/agent/memory.go:171-196 | the snapshot holds the roots and, for each id, its children in order |
| `Goals.Dfs` | server/agent/memory.go:204-224 | appends one line for each blocking leaf below the goal, in visiting order |
| `Goals.DfsEach` | server/agent/memory.go:213-231 | the loops over children and over roots |
| `Goals.SubgoalManager.AddGoal` | server/agent/memory.go:125-147 | limit, clipping at 500 bytes and the appended pending goal; for an unused id, distinct ids and one parent per id are kept |
| `Goals.SubgoalManager.UpdateGoalStatus` | server/agent/memory.go:150-165 | the first goal with the id changes status, and its result when one is given; no other goal changes; unknown ids fail |
| `Goals.SubgoalManager.CanFinalize` | server/agent/memory.go:238-249 | on every list the search gets through: true exactly when every blocking root is done, with the blocking lines otherwise |
| `Conversation.AdjustCompactionBoundary` | server/agent/engine.go:342-374 | the nested searches compute the specified boundary |
| `Conversation.BoundaryMovesLeft` | server/agent/engine.go:342-374 | the boundary never moves right |
| `Conversation.CutKeepsPairing` | server/agent/engine.go:342-374 | cutting there keeps a history orphan free if and only if no result beyond the look-back is at the boundary |
| `Conversation.LongBatchIsCut` | server/agent/engine.go:348 | a batch of eleven or more results can be cut from its call |
| `Conversation.CompactionShrinks` | server/agent/engine.go:318-374 | once triggered, compaction keeps a suffix of 12 to 26 items |
| `Conversation.SmallHistoryIsKept` | server/agent/engine.go:318-340 | up to the token limit, up to 12 items, or without a digest, compaction changes nothing |
| `Conversation.CompactionIff` | server/agent/engine.go:318-340 | something is cut exactly beyond both limits, with a digest and a boundary that is not the start |
| `Conversation.CompactKeepsNear` | server/agent/engine.go:318-340 | compaction keeps pairing, and keeps a suffix of at least 12 items that does not start inside a batch |
| `Conversation.CompactKeepsAnswered` | server/agent/engine.go:86-129 | compaction keeps every call of the rest answered |
| `Conversation.AnsweredMatchesIds` | server/agent/worker.go:477-537 | in an answered history the result ids are the call ids, one to one and in order |
| `Conversation.AnsweredIsNear` | server/agent/engine.go:524-640 | an answered history with short batches has no orphan |
| `Conversation.BatchAnsweredIffComplete` | server/agent/engine.go:524-640 | a batch is answered if and only if every call was reached |
| `Conversation.OpenBatchStaysOpen` | server/agent/engine.go:570-582 | a batch left early stays unanswered whatever follows it |
| `Conversation.ReplyCompletesBatch` | server/agent/engine.go:946-995 | one reply answers any number of trailing input requests |
| `Conversation.ReplyCompletesIff` | server/agent/engine.go:946-995 | one reply completes the batch if and only if all its open calls are input requests |
| `Conversation.PendingIsLastAsked` | server/agent/engine.go:952-965 | the pending ids are those of the input requests in the last message that has any |
| `Conversation.ReplyIsGiven` | server/agent/engine.go:946-995 | the reply goes, once, to every input request without result in the last message that asks, and to nothing else |
| `Conversation.ReplyKeepsNear` | server/agent/engine.go:971-988 | the reply leaves no orphan and keeps the batch within the look-back |
| `Engine.AgentEngine.CompactMessages` | server/agent/engine.go:318-340 | the new history is the compacted old one, and the old one itself up to the token limit, up to 12 items or without a digest |
| `Engine.AgentEngine.ProvideAskUserResult` | server/agent/engine.go:948-995 | every unanswered input request of the last message that has any gets the reply; fails when there is none |
| `Engine.AgentEngine.AbsorbTask` | server/agent/engine.go:467-476 | user text once, then compaction |
| `Engine.AgentEngine.RunBatch` | server/agent/engine.go:530-637 | stops at the first call that asks, is cancelled or finalizes; that call decides the end, the results appended and the events |
| `Engine.AgentEngine.FinalResponse` | server/agent/engine.go:669-711 | the trimmed closing words are appended and the history compacted, only when they are not blank |
| `Engine.AgentEngine.Turn` | server/agent/engine.go:483-648 | one iteration after a reply: the new history, the events, the closing request and whether the run goes on; which last event that is, `RunOutcome.LastEvent` says |
| `Engine.AgentEngine.Run` | server/agent/engine.go:413-651 | the whole run: its requests, its closing request, its events and the history it leaves are those the lemmas below are about |
| `Engine.Requests` | server/agent/engine.go:426-461 | at most 50 main-loop requests |
| `Engine.VerdictUnlessCutShort` | server/agent/engine.go:563-651 | a run has no verdict if and only if some call it reached, other than an input request, was cancelled |
| `Engine.OneVerdict` | server/agent/engine.go:413-651 | exactly one run-state event, the last event; none if and only if a reached call was cancelled |
| `Engine.SomeRunIsCutShort` | server/agent/engine.go:579-582 | a run that is cut short |
| `Engine.SomeRunStaysOpen` | server/agent/engine.go:570-572 | a run that stops to ask and leaves a call that no reply answers |
| `Engine.RequestsArePaired` | server/agent/engine.go:426-461 | every request is orphan free and, from an answered start, has every call answered once |
| `Engine.ClosedAnsweredIff` | server/agent/engine.go:702-709 | after the closing words and their compaction the history is answered if and only if every call of the batch was reached |
| `Engine.LeftIsPaired` | server/agent/engine.go:413-711 | the history left is orphan free and, from an answered start, answered if and only if nothing ended the last batch or finalize was its last call |
| `Engine.ClosingRequestIsPaired` | server/agent/engine.go:628-635 | the closing request is orphan free, and answered if and only if finalize was the last call of its batch |
| `Engine.RoundKeeps` | server/agent/engine.go:948-995 | a run and the reply it asked for keep the history orphan free, and answered if and only if the run completes or only input requests were left |
| `Engine.SessionStaysPaired` | server/agent/engine.go:413-995 | over every sequence of runs and replies the history is orphan free |
| `Engine.SessionStaysAnswered` | server/agent/engine.go:413-995 | while every round closes, every call of the session is answered |
| `Engine.RunDelegate` | server/agent/worker.go:384-538 | at most 25 requests, each orphan free with every call answered exactly once; the run ends at the first iteration that is cancelled, fails, or replies without calls and says so, with the text of that reply |
| `Engine.RunWorkerBatch` | server/agent/worker.go:477-537 | the message and then one result for every call in order, with the text of its tool, or the failure |
| `Engine.CompactWorkerBundle` | server/agent/engine.go:86-129 | the delegate compacts as the engine does, and not at all up to the same limits |
| `RunOutcome.LastEvent` | server/agent/engine.go:426-651 | a run not cut short completes exactly for a text reply without calls or a successful finalize with closing words, is cancelled exactly when cancellation is seen at the start of an iteration, asks exactly for a readable input request, and fails otherwise |
| `RunOutcome.BatchTells` | server/agent/engine.go:513-640 | the message comes first, then the results of exactly the calls executed and not cancelled, each with its id and text |
| `RunOutcome.CallsAreTold` | server/agent/engine.go:530-637 | the events announce the calls that are started, in order, and the results of those whose tool came back |
| `RunOutcome.UserTextIsKept` | server/agent/engine.go:467-476 | whatever is cut, the user's text is the last item when the first reply is taken up |
| `RunOutcome.RunOnlyAdds` | server/agent/engine.go:413-651 | while no reply is over the token limit, a run whose first request is answered leaves the old history, the user's text, and what it added |
| `RunOutcome.TextIsLast` | server/agent/engine.go:488-499 | the text reply that ends a run is the last item it leaves |
| `RunOutcome.ClosingWordsAreLast` | server/agent/engine.go:702-709 | the closing words after a finalize are the last item, also when they trigger a compaction |
| `RunOutcome.InstructionIsFirst` | server/agent/worker.go:384-538 | a delegate's instruction stands first in its later requests while nothing is cut |
| `Encoders.BuildResponsesRequest` | server/agent/llm.go:703-746 | transmits context, history and task in order, blank assistant text left out |
| `Encoders.BuildChatCompletionsRequest` | server/agent/llm.go:880-931 | transmits the same pieces in the same order |
| `Encoders.BuildAnthropicMessages` | server/agent/llm.go:1166-1216 | transmits the same pieces, and from an orphan-free history puts each result in the user message directly after its call's message |
| `Encoders.ScriptCarries` | server/agent/llm.go:703-746 | a request carries every call and result of the history with its text, the assistant's texts, and context, user texts and task as the user's words, in order |
| `Encoders.HistoryInOrder` | server/agent/llm.go:710-746 | what an item says stands between what the items before and after it say |
| `Encoders.ContextReadsBack` | server/agent/llm.go:703-708 | name and content of a context block can be read back from its text |
| `Projection.FindRuneForward` | server/tools/report_guardrails.go:254-261 | the first occurrence from an offset, or -1 |
| `Projection.AppendProjectedRuneRange` | server/tools/report_guardrails.go:214-226 | link text with the entities that end inside it decoded |
| `Projection.ProjectReportContentText` | server/tools/report_guardrails.go:168-212 | ends for every content and yields nonempty, ordered spans inside the raw text |
| `Projection.ProjectSpans` | server/tools/report_guardrails.go:168-252 | two visible runes share an entity or come from disjoint spans in order |
| `Projection.ProjectReads` | server/tools/report_guardrails.go:168-252 | every visible rune is its raw rune or part of what its entity decodes to |
| `Projection.PlainTextIsItself` | server/tools/report_guardrails.go:168-274 | text without markup projects to itself |
| `Projection.DocumentIsSeen` | server/tools/report_guardrails.go:168-274 | projecting a text made of words, marks, tags, entities, links and images shows exactly the words, the decoded entities and the link and image texts |
| `Projection.EveryTextIsADocument` | server/tools/report_guardrails.go:168-274 | every text is made of such parts, where a word is text in which no markup opens |
| `Projection.OpensIffMarked` | server/tools/report_guardrails.go:168-274 | the searches take a rune for the start of markup exactly when a tag, entity, link, image or mark stands there |
| `Projection.HeadingKeepsHashes` | server/tools/report_guardrails.go:263-274 | of the number signs of a heading only the first is hidden |
| `Projection.NormalizeSelectionCompareText` | server/tools/report_guardrails.go:293-317 | runs of space become one blank, none at the ends |
| `Projection.SelectionBoundsFromProjectedText` | server/tools/report_guardrails.go:149-166 | computes the range that `Projection.SelectionMatches` describes, nonempty and inside the raw text |
| `Projection.SelectionMatches` | server/tools/report_guardrails.go:149-166 | there is a range exactly when the selected range lies in the visible text, the selected text has words, and the words shown there are the same; its ends are those of the spans |
| `Projection.NormalizeComparesWords` | server/tools/report_guardrails.go:293-317 | two texts are equal after normalization exactly when they have the same words |
| `Projection.RestOfTextIsOutside` | server/tools/report_guardrails.go:284-291 | what is visible outside the selection lies outside its raw range, unless it shares an entity with it |
| `ReportBlocks.MutationTouchesOneId` | server/tools/report_blocks.go:67-165 | blocks with another id keep their values and relative order |
| `ReportBlocks.IdsStayDistinct` | server/tools/report_blocks.go:67-165 | distinct ids stay distinct |
| `ReportBlocks.MovePermutes` | server/tools/report_blocks.go:138-165 | a move is a permutation that puts the block at its anchor |
| `ReportBlocks.UpsertInPlace` | server/tools/report_blocks.go:87-106 | an upsert without anchors replaces in position or appends |
| `ReportBlocks.UpsertReadsBack` | server/tools/report_blocks.go:67-114 | after a successful upsert the block found under its id has the content, title, kind, chart and sources asked for |
| `ReportBlocks.BlockIdIsClean` | server/tools/report_blocks.go:167-178 | a derived id is not empty and has no separator, upper-case letter, or dash at either end |
| `ReportBlocks.UnscopedDecides` | server/tools/report_blocks.go:38-165 | without a scope: what each action does with which block, and every refusal |
| `ReportBlocks.FailureChangesNothingOrDrops` | server/tools/report_blocks.go:67-165 | a failure changes nothing, except that exactly an upsert of an existing block with an unresolvable anchor drops it |
| `ReportBlocks.GuardDecides` | server/tools/report_guardrails.go:45-122 | under a guarded selection only a protected upsert of the target gets through |
| `ReportBlocks.ScopeOnlyFilters` | server/tools/report_guardrails.go:45-122 | under any scope a command is refused as out of scope exactly when the scope does not admit it, and is otherwise the command given without a scope |
| `ReportBlocks.KeptEndsGetThrough` | server/tools/report_guardrails.go:80-122 | with the target captured, a rewrite that keeps both ends of its content and everything else succeeds and is what the report then holds |
| `ReportBlocks.EditRunIsGuarded` | server/tools/report_guardrails.go:45-122 | over every edit run other blocks are untouched and every new target block is protected |
| `ReportBlocks.TargetStaysProtected` | server/tools/report_guardrails.go:80-122 | the target captured at the start is protected whenever it is present |
| `ReportBlocks.OnlySelectionChanges` | server/tools/report_guardrails.go:80-122 | over every edit run the target keeps its title, sources, chart and kind, and the text before and behind the selection |
| `ReportBlocks.ProtectedContentSplits` | server/tools/report_guardrails.go:100-102 | the content is prefix, replacement, suffix if and only if it is long enough |
| `ReportBlocks.EndsMayOverlap` | server/tools/report_guardrails.go:102 | a content shorter than both ends is let through |
| `ReportBlocks.BlockSlice.RemoveBlockAt` | server/tools/report_blocks.go:127 | removal shifts the tail in the same backing array, where a holder of the old slice sees the last block twice |
| `ReportBlocks.BlockSlice.Grow` | server/tools/report_blocks.go:251 | one more element in the same array while there is room, in a new array otherwise |
| `ReportBlocks.BlockSlice.ShiftTail` | server/tools/report_blocks.go:252 | the overlapping copy moves the tail one place to the right |
| `ReportBlocks.BlockSlice.InsertBlockAt` | server/tools/report_blocks.go:244-255 | appending, shifting and storing insert the block at the offset |
| `EditRuns.RunKeepsScope` | server/handler/ws.go:654-667 | while no message is prepared a run keeps its scope and its edits act under it |
| `EditRuns.MessageLiftsGuard` | server/session/types.go:406-415 | after a message without an edit context the run at work removes a block it was guarded from |
| `EditRuns.GuardHoldsIffNoMessage` | server/session/types.go:527-550 | the blocks outside the target are safe in every continuation of a guarded run if and only if no message is prepared while it holds the slot |
| `EditRuns.SelectionIsGuarded` | server/session/types.go:527-550 | a message that selects text to regenerate or revise guards the session exactly if it asks to preserve other blocks, and captures the target block |
| `EditRuns.EndFreesSession` | server/session/types.go:281-297 | the end of the run in the slot frees it and lifts the guard; another end changes nothing |
| `ReportDelivery.ChartRefsFindsAll` | server/tools/report_blocks.go:257-270 | the left-to-right search finds a chart reference exactly where one stands |
| `ReportDelivery.ReportFinalizeIssues` | server/tools/report_guardrails.go:376-427 | exactly the missing and repeated charts and the missing content; none exactly when the report is ready |
| `ReportDelivery.ReadyIff` | server/tools/report_guardrails.go:376-427 | a report is ready exactly if it shows something and every chart referred to exists and is referred to by one block |
| `ReportDelivery.StepKeepsHonest` | server/tools/report_finalize.go:42-77 | every step keeps "finalized" honest if and only if it is not an upsert that drops a block of a finalized report with other content |
| `ReportDelivery.FinalizedIsHonest` | server/tools/report_state.go:211-230 | in every report reached from the empty one without such an upsert, "finalized" implies title, content, resolved charts and the delivered blocks, charts and layout |
| `ReportDelivery.DeliversOnlyWhenDone` | server/tools/report_finalize.go:42-77 | a report is delivered exactly by a finalize call with goals done and issues clear on a ready report that is not finalized, with the title and author given |
| `ReportDelivery.RunDelivers` | server/tools/report_finalize.go:42-77 | over every run, what is delivered at the end was delivered before, or by such a call |
| `ReportDelivery.RollbackUndoes` | server/handler/runtime_hooks.go:160-180 | taking a finalize back restores the report with its old title and author, as a draft |
| `ReportDelivery.FinalizedIffTitled` | server/tools/report_finalize.go:67-69 | a successful finalize leaves a finalized report if and only if the title is not blank |
| `ReportDelivery.LostBlockStillFinalized` | server/tools/report_blocks.go:89-103 | a finalized report loses a block and still says finalized |
| `ReportDelivery.FindReportBlockIndex` | server/tools/report_blocks.go:214-221 | the first block with the id, or -1 |
| `ReportDelivery.ResolveInsertIndex` | server/tools/report_blocks.go:223-242 | the offset next to the anchor; fails for two anchors or an unknown one |
| `ReportDelivery.ReportState.ApplyBlockMutation` | server/tools/report_blocks.go:38-65 | the mutable report follows the specified mutation, with the same outcome |
| `ReportDelivery.ReportState.UpsertBlock` | server/tools/report_blocks.go:76-114 | removal before anchor resolution, then insertion |
| `ReportDelivery.ReportState.RemoveBlock` | server/tools/report_blocks.go:116-136 | removes the named block or fails |
| `ReportDelivery.ReportState.MoveBlock` | server/tools/report_blocks.go:138-165 | works on a copy, so a failure changes nothing |
| `ReportDelivery.ReportState.ApplyChartMutation` | server/tools/report_charts.go:37-80 | succeeds exactly for a valid chart that the scope allows, and changes nothing otherwise |
| `ReportDelivery.ChartReadsBack` | server/tools/report_charts.go:37-80 | an admitted chart stands as given in place of the first with its id, or last, and no other chart changes |
| `ReportDelivery.EditableIff` | server/tools/report_guardrails.go:319-339 | a chart is open to edits exactly if it is the target, the target block's chart, or referred to in its content |
| `ReportDelivery.ReportState.ConfigureLayout` | server/tools/report_layout.go:34-61 | reset empties the layout, merge replaces what is given and keeps the rest, and anything else or an oversized style changes nothing |
| `ReportDelivery.ReportState.FinalizeReport` | server/tools/report_finalize.go:42-77 | succeeds exactly when not finalized, goals done and no issues, and then stores title and author and marks the report delivered; a failure changes nothing |
| `FinalizeTool.FinalizeReportState` | server/tools/report_finalize.go:42-77 | with the goal forest: succeeds exactly when not finalized, every blocking root goal done, the report ready and no semantic issue, and returns the blocking lines otherwise |
| `ReportDelivery.ReportEditState.RefreshFromReportState` | server/tools/report_guardrails.go:21-43 | captures the target block and its charts |
| `RunLifecycle.Session.StartRun` | server/session/types.go:261-279 | takes the slot only when it is free |
| `RunLifecycle.Session.FinishRun` | server/session/types.go:281-297 | frees the slot of that run only, and resets the edit scope |
| `RunLifecycle.Session.SuspendRun` | server/session/types.go:315-324 | marks that run as waiting |
| `RunLifecycle.Session.ConsumeWaitingRun` | server/session/types.go:360-370 | hands a waiting run to one caller |
| `RunLifecycle.Session.UpdateCancelFunc` | server/session/types.go:336-344 | gives that run a cancel function |
| `RunLifecycle.Session.CancelRun` | server/session/types.go:372-388 | marks a cancellable run as cancelling |
| `RunLifecycle.EveryInterleaving` | server/session/types.go:261-388 | in every interleaving at most one active run, one terminal status per run, no more replies than suspensions, and a run given up by the handler in the slot |
| `RunLifecycle.HeldUntilFinished` | server/session/types.go:281-297 | a run holds its slot if and only if FinishRun was not called for it, and meanwhile no run starts |
| `RunLifecycle.OrphanIsStuck` | server/session/types.go:261-388 | a run nobody works for and that does not wait keeps the slot in every interleaving |
| `RunLifecycle.FreedUnlessOrphan` | server/session/types.go:281-370 | a taken slot can become free if and only if its run is worked for or waits |
| `RunLifecycle.CancelledWaitIsStuck` | server/session/types.go:382-385 | a run cancelled while waiting stays cancelling in every interleaving |
| `RunLifecycle.GivenUpIsStuck` | server/handler/ws.go:686-747 | a run whose record or input fails keeps the slot in every interleaving |
| `RunLifecycle.DroppedReplyIsStuck` | server/handler/ws.go:595-606 | a run whose reply the engine does not take keeps the slot in every interleaving |
| `RunLifecycle.StaleWaitingWrite` | server/handler/runtime_hooks.go:188-194 | the waiting status can be stored after the terminal one |
| `RunLifecycle.FinishIsLast` | server/handler/runtime_hooks.go:182-226 | with no write of the run due when it finishes, its terminal status is the last ever stored for it |
| `RunLifecycle.TerminalStatusIffNothingDue` | server/handler/runtime_hooks.go:182-226 | in every continuation the last stored status of a finished run is terminal if and only if none of its writes was due when it finished |
| `RunLifecycle.Dispatcher.Emit` | server/handler/runtime_hooks.go:108-226 | the slot moves by the steps of the hooks, and the statuses written are those that these steps make due, also on the failed-finalize path |
| `RunLifecycle.HooksWriteAll` | server/handler/runtime_hooks.go:108-226 | from every system state with that slot, the steps of an event make due exactly the writes the dispatcher does |
| `Runtime.RunTakesItsVerdict` | server/handler/runtime_hooks.go:108-226 | with its reports saved a run takes exactly one step on the slot, its verdict; cut short, it takes none |
| `Runtime.RunIsStoredAs` | server/handler/runtime_hooks.go:182-226 | a run that holds its slot writes exactly one status, the one that names what happened to it; none when cut short |
| `Runtime.OrphanIffCutShort` | server/agent/engine.go:579-582 | an engine leaves its run stuck in the slot if and only if the run was cancelled around a tool |
| `Runtime.CancelledSuspensionIsStuck` | server/session/types.go:372-388 | a run that stopped to ask and is cancelled before the reply keeps the slot for good |
| `Runtime.VerdictSettlesSlot` | server/handler/runtime_hooks.go:182-226 | every other run frees its slot or leaves it waiting for the user |
| `Replay.DeriveRuntimeState` | server/handler/runtime_state.go:121-237 | the fold over stored events |
| `Replay.ReplayRebuildsStatuses` | server/handler/runtime_state.go:136-226 | over every session the replay has every goal id with its live status if and only if no close of a goal with a straggling copy, and no reset of stored goals, came after the last goal snapshot and restart |
| `Replay.LifetimeRebuildsStatuses` | server/handler/runtime_state.go:190-226 | in a session that was never reset or restarted every goal status is rebuilt |
| `Replay.CloseIsRebuiltIff` | server/handler/runtime_state.go:214-226 | a goal closed by a stored call is rebuilt as it is exactly when a result is given or it had none |
| `Replay.SessionGoalsSettle` | server/handler/session_runtime.go:38-53 | in every session, restored ones with repeated goals included, the goal search ends |
| `Replay.ReplayRebuildsMemory` | server/handler/runtime_state.go:131-189 | over every session the replayed memory equals the live one if and only if no save that clips a fact and stores its result, or that finds or leaves a fact ending inside a rune, no refused save of a delegate and no reset of a used memory came after the last effective save and restart |
| `Replay.RefusedSaveIsReplayed` | server/agent/worker.go:524-531 | a delegate's save into a full memory changes nothing live and adds the fact to the replay |
| `Replay.WideFactIsNotRebuilt` | server/agent/memory.go:39-42 | a long fact of three-byte runes ends inside a rune and is not rebuilt, whatever becomes of its result |
| `Replay.WorkingMemory.SaveFact` | server/agent/memory.go:31-44 | fails only for a new key in a full memory, and keeps the first 2000 bytes |
| `Text.TruncateKeepsBytes` | server/agent/memory.go:39-41 | slicing at a byte keeps exactly that many bytes and tears at most one rune |
| `Replay.AddedGoalIsRepeated` | server/handler/runtime_state.go:202-213 | the replayed list repeats an added goal whose result is stored |
| `Replay.RestartedGoalStaysPending` | server/session/types.go:611-622 | a goal added before a restart and completed after it is complete in the replay and still pending in a live copy |
| `Replay.AdvanceIsReplay` | server/handler/runtime_state.go:129-228 | replaying operation by operation is replaying the whole stored history |
| `PersistQueue.EveryInterleaving` | server/handler/ws.go:831-857 | at most 8 overflow writers; every handled job queued, being saved, saved or dropped exactly once; FIFO; all jobs queued before the last empty check saved |
| `PersistQueue.DroppedIffCrowded` | server/handler/ws.go:831-857 | a job is refused, and then dropped, exactly when eight increments stand as its sender counts up, and given to an overflow writer exactly when fewer do |
| `PersistQueue.OverflowMeansFull` | server/handler/ws.go:831-857 | a job leaves the path through the queue only where its sender finds the queue full |
| `PersistQueue.AllCanBeSaved` | server/handler/ws.go:142-161 | until the worker has left, every accepted job that is not refused can still be saved, once, in every reachable state |
| `PersistQueue.LateJobIsStranded` | server/handler/ws.go:153-161 | a job queued after the worker left stays in the queue |

## Left out

- Network, HTTP and WebSocket framing, databases, file import and language-model calls: I/O; their answers are parameters.
- The text of history digests and the shortening of stored tool results: plain text; the digest and the stored result are parameters.
- Retry delays of tools and time limits: a call has one outcome.
- Concurrent reset of the history or the report during a run: the pairing and edit results assume none; the replay results take resets between tool executions.
- Loading a stored report into a session is not among the steps of the delivery results.
- Case folding beyond ASCII, and invalid UTF-8 in inputs: texts are sequences of runes, limits count UTF-8 bytes where the code counts bytes, and the scanners' special characters are ASCII. A clipped goal description is modelled as it is shown, with replacement characters for the bytes of a torn rune.
- The column-name hint pattern of time columns: the hint is a parameter, the same for every value of the column.
- The wording and order of finalize issues: the issues are a set.
- Reasoning text of assistant messages and the exact system prompt: copied without effect.
- Events lost by the event store: the replay results assume that what a tool emits is stored in order.
- The edit-state and report part of the replay and the breadth-first collection of child runs: last-writer-wins and a plain graph walk.
- ReportDelivery.ReportState.ApplyChartMutation: chart options are uninterpreted text, and building them may only succeed or fail.
- HTML rendering, sanitizing, DOCX export, the Python executor, authentication and the web client: text formatting, foreign code or other concerns.
