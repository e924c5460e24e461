# Ranya, verified

Ranya runs each phone call as a chain of frame processors behind a two-class priority queue,
with timers, worker pools and shared tables around it. This project models the parts of it
whose behaviour depends on interleavings or on long runs, and proves what holds of every run.

`dafny verify dfyconfig.toml` checks everything.

| file | what it models |
|---|---|
| `Pipeline.dfy` | the asynchronous orchestrator: feeder, pop loop, one goroutine per stage, bounded channels, drop and wait backpressure |
| `PipelineLoss.dfy`, `PipelineDrops.dfy` | what the channels can lose, and why a frame is dropped |
| `SyncPipeline.dfy` | the sequential orchestrator and its meaning |
| `PipelineRefinement.dfy` | the asynchronous form refines the sequential one; absence of deadlock |
| `AudioOwnership.dfy` | the life of pooled audio buffers in both forms |
| `PriorityQueue.dfy`, `QueueProjection.dfy` | the two-class queue with its non-atomic counters, and how it agrees with the orchestrator's view of it |
| `SessionRegistry.dfy` | concurrent creation and removal of sessions |
| `Tokens.dfy`, `Pruning.dfy`, `Memory.dfy` | token estimate, memory limits, conversation histories |
| `Chunking.dfy` | streamed model text to text frames |
| `Confirmation.dfy`, `ConfirmationCases.dfy` | the tool-confirmation gate over runs, and input by input |
| `Dispatcher.dfy`, `Retry.dfy` | the tool workers, their locks, and retries |
| `TurnFsm.dfy` | the turn state machine, its listeners, and the same under interleaving |
| `BargeIn.dfy`, `TurnTimers.dfy` | barge-in, silence reprompt and end-of-turn timers with callbacks in flight |
| `CallMaps.dfy`, `SttMaps.dfy` | the call and stream tables of the telephony transport and of speech recognition |
| `ContextBuffer.dfy` | the speculative transcript buffer with a handler that may refuse |
| `CircuitBreaker.dfy` | the rate-limit breaker and the adapter it guards |

Two forms are used. Where several goroutines or timer callbacks run at once, the component is
a step relation: an event is one atomic action (one channel operation, one atomic update, one
locked section), `Exec` says which sequences of events can happen and where they lead, and the
theorems speak of all of them, that is, of all interleavings. Where calls do not overlap, the
component is a class whose methods are proved against specification functions, and the
properties are proved about runs of those functions. `Base.dfy` holds what all of them share.

Safety theorems alone would also hold of a machine that does too little. So each step relation
comes with lemmas named `...InSteps`, which say what an operation does when nothing comes in
between, and each loss or refusal is traced back to its reason in the source's own numbers.

Time is a clock that never goes back. Processors, model replies, tool handlers and the flush
handler are arbitrary: their answers are part of the events.

## Where the code differs from what it says

- `pkg/processors/context_buffer.go:124` says that a refused flush keeps its content for
  another try. That is so for buffered finals, but an interim that the handler refuses is gone
  (`ContextBuffer.RetryOffersSameIff`).
- `pkg/processors/llm.go:190` calls the pop after a failed model call a rollback. It undoes the
  append exactly if that pruned nothing or nothing came before it, and it takes a system
  message exactly if there is one and the user message does not fit beside the system messages
  (`Memory.PopUndoesAppendIff`, `Memory.PopLosesSystemMessageIff`).
- A reset of the silence timer stops only the timer that the processor's field refers to. A
  reprompt can still follow exactly if a callback is in flight, or a timer is armed that the
  field no longer refers to because a rearming callback has overwritten it
  (`SilenceReprompt.RepromptAfterResetIff`, with both cases reached in
  `SilenceReprompt.StaleRepromptAfterReset` and `SilenceReprompt.OrphanedTimer`).
- An end-of-turn callback passes exactly if the open window is for its stream, be it its own
  window or not. So the callback of a replaced window ends the newer window early
  (`EndOfTurn.TimeoutIffWindowOpen`, `EndOfTurn.ReplacedWindowStillTimesOut`).
- A teardown reads the tables, sends the end of the call and detaches, in three steps. The end
  is false when it is sent exactly if the call uses another stream by then
  (`CallMaps.HeededEndIsFalseIff`).
- Switching the breaker's flag is locked, recording the switch is not: overlapping calls can
  record close before open (`BreakerInterleaving.RecordedOutOfOrder`).
- `trackCallStream` lets go of its lock while it closes the previous stream. That is harmless
  in the program: `pkg/ranya/engine.go:143` builds one processor per call, one goroutine tracks
  streams on it, and closing all streams from another goroutine does no damage
  (`SttMaps.TablesStayInverse`). Callers that shared a processor, which nothing here creates,
  could leave its tables out of step (`SttMaps.InverseThroughoutIff` says exactly when,
  `SttMaps.OverlappingTracksDisagree` how).
- With backpressure that waits, a cancelled orchestrator releases frames without recording the
  drop; with backpressure that drops, every frame is accounted for
  (`PipelineLoss.EveryFrameAccountedIff`).

## Model

| member | source | states |
|---|---|---|
| `PipelineRefinement.AsyncRefinesSync` | pkg/pipeline/orchestrator.go:101-223 | for every interleaving that has lost no frame, the frames emitted are a prefix of what the sequential loop emits for the same popped frames, and all of it when channels are empty and stages idle |
| `PipelineRefinement.WaitModeRefinesSync` | pkg/pipeline/orchestrator.go:234-256 | the same under wait backpressure without cancellation or lag drops, with nothing more assumed |
| `PipelineRefinement.WaitModeLosesNothing` | pkg/pipeline/orchestrator.go:239-247 | under wait backpressure without cancellation or lag drops every frame pushed goes into its channel |
| `PipelineRefinement.WithoutSinkRefinesSync` | pkg/pipeline/orchestrator.go:210-232 | without a sink, as long as no channel has lost a frame, the goroutine and channel behind the processors change nothing: the reader gets a prefix of what the sequential loop of the processors alone emits, and all of it at rest |
| `PipelineRefinement.AlwaysProgress` | pkg/pipeline/orchestrator.go:147-221 | in every reachable state that is not at rest, some stage, channel or reader of a running asynchronous pipeline can take a step: no deadlock before a cancellation lets the goroutines return |
| `PipelineRefinement.OfferedIsPopped` | pkg/pipeline/orchestrator.go:192-208 | the frames offered to the first channel are the popped frames that were not late, in order |
| `PipelineRefinement.StageBehind` | pkg/pipeline/orchestrator.go:147-168 | what each channel was offered is a prefix of the sequential output of the stages before it |
| `PipelineLoss.ReachableInv` | pkg/pipeline/orchestrator.go:142-256 | in every reachable state each channel is within its capacity, received plus queued frames are those sent, drops are those recorded, and only a cancelled waiting orchestrator abandons frames |
| `PipelineLoss.PushPartitions` | pkg/pipeline/orchestrator.go:234-256 | frames handed to push split by position into channel history and recorded drops, disjointly, in order, and exhaustively under drop backpressure or before cancellation |
| `PipelineDrops.RecordedHasReason` | pkg/pipeline/orchestrator.go:234-256 | over any run, each recorded frame goes back to a moment when it was in hand and either was wall-clock audio more than 500 ms old, or the channel was full and the sender does not wait |
| `PipelineDrops.DropModeDecides` | pkg/pipeline/orchestrator.go:247-254 | a sender that does not wait never blocks: after the lag test it sends if and only if there is room and drops if and only if there is none |
| `PipelineDrops.WaitModeDecides` | pkg/pipeline/orchestrator.go:240-246 | a sender that waits sends if and only if there is room, never drops, and gives up if and only if cancelled |
| `PipelineDrops.ReleaseHasReason` | pkg/pipeline/orchestrator.go:170-256 | exactly when an event releases a frame: a full queue, lag, a full channel, cancellation, the processor, or the sink |
| `PipelineDrops.StagesWorkOneAtATime` | pkg/pipeline/orchestrator.go:151-167 | in every reachable state a stage that processes a frame has pushed all its earlier outputs |
| `PipelineLoss.EveryFrameAccountedIff` | pkg/pipeline/orchestrator.go:239-255 | every run accounts for every frame handed to push if and only if backpressure drops (or the queue has no capacity at all) |
| `PipelineLoss.ReceivedIsSubsequence` | pkg/pipeline/orchestrator.go:147-168 | what a stage has received is a subsequence of what the stage before it returned |
| `PipelineLoss.OfferedIsOutput` | pkg/pipeline/orchestrator.go:163-165 | each channel is offered exactly the concatenated outputs of the processor before it |
| `SyncPipeline.FrameByFrameIsStageByStage` | pkg/pipeline/orchestrator.go:101-138 | taking frames through all stages one by one gives the states and outputs of running each stage over its whole input |
| `SyncPipeline.BatchAppend` | pkg/pipeline/orchestrator.go:113-132 | running all stages over a concatenation is running them over both parts in turn |
| `SyncPipeline.SyncLoop.RunStage` | pkg/pipeline/orchestrator.go:114-124 | the inner loop computes one processor's run over the list |
| `SyncPipeline.SyncLoop.RunStages` | pkg/pipeline/orchestrator.go:112-129 | the outer loop, with its early exit, computes all stages in sequence |
| `SyncPipeline.SyncLoop.EmitAll` | pkg/pipeline/orchestrator.go:225-256 | the sink gets every frame; the channel those that are not late and find room; late and, without waiting, refused ones are recorded |
| `SyncPipeline.EmitAccounts` | pkg/pipeline/orchestrator.go:225-256 | with a sink nothing is lost, and without one a channel that drops delivers or records every frame |
| `SyncPipeline.SyncLoop.ProcessPopped` | pkg/pipeline/orchestrator.go:105-134 | one iteration records a late frame as dropped or extends the sequential run by the frame, and emits what that adds |
| `AudioOwnership.StepMovesBuffer` | pkg/pipeline/orchestrator.go:154-164 | an event neither copies nor loses a pooled buffer: the number of its places grows by what enters the pipeline |
| `AudioOwnership.BufferInOnePlace` | pkg/frames/frame.go:56-91 | if processors meet their contract, each pooled buffer is in at most one queue, channel, hand or release |
| `AudioOwnership.ReleasedOnce` | pkg/frames/frame.go:77-91 | no two releases of a run are of audio frames with the same pool buffer |
| `AudioOwnership.ReleasedIsNotInUse` | pkg/frames/frame.go:77-91 | a buffer that has been released is in no channel, hand or processor any more |
| `AudioOwnership.NoBufferVanishes` | pkg/pipeline/orchestrator.go:225-256 | a buffer that has entered keeps having a place; after a cancellation that place may be a channel nobody reads |
| `SyncOwnership.MoveKeepsPlaces` | pkg/pipeline/orchestrator.go:85-134 | each step of the sequential form keeps a buffer's single place |
| `SyncOwnership.SyncBufferInOnePlace` | pkg/pipeline/orchestrator.go:79-140 | the same single-place property over all runs of the sequential form |
| `SyncOwnership.SyncBufferStays` | pkg/pipeline/orchestrator.go:79-140 | over all runs of the sequential form a buffer that has entered keeps having a place |
| `SyncOwnership.IterationInMoves` | pkg/pipeline/orchestrator.go:101-138 | one iteration takes the oldest queued frame through every stage in turn and out, or releases it at once if it is late |
| `PriorityQueue.ReachableInv` | pkg/priority/queue.go:43-81 | each class is FIFO without loss under any interleaving of pushers and poppers |
| `PriorityQueue.CountersMatchChannel` | pkg/priority/queue.go:43-90 | pushes plus sent-not-counted minus pops minus received-not-counted is the channel length, which is within capacity |
| `PriorityQueue.LowOnlyAfterHighEmpty` | pkg/priority/queue.go:63-81 | a low item is taken only after the same iteration found the high channel empty, when every high item sent so far had been taken |
| `PriorityQueue.FedItemsAccountedFor` | pkg/pipeline/orchestrator.go:170-190 | every frame the feeder reads was popped, is queued in order, or is recorded as dropped |
| `PriorityQueue.RefusalHasReason` | pkg/priority/queue.go:43-61 | over any run, an item is refused only by a class that holds its full capacity at that moment |
| `PriorityQueue.PushInSteps` | pkg/priority/queue.go:43-61 | a push left alone appends and counts if there is room, and refuses if there is none |
| `PriorityQueue.PopInSteps` | pkg/priority/queue.go:63-81 | a pop left alone takes and counts the oldest high item, without one the oldest low item, and without any polls on |
| `QueueProjection.SameOpsSameQueues` | pkg/priority/queue.go:43-81 | a step-by-step run of the queue and a run of the orchestrator with the same pushes and takes leave the same frames in both classes |
| `QueueProjection.QueueReplays` | pkg/priority/queue.go:43-81 | whatever its threads interleave, the queue holds what a simple pair of bounded lists holds after the same pushes and takes |
| `QueueProjection.PipelineReplays` | pkg/pipeline/orchestrator.go:170-208 | the orchestrator model's queue does, too |
| `SessionRegistry.EachSessionInOnePlace` | pkg/pipeline/registry.go:33-97 | a started orchestrator is always with exactly one creator, in the map, with one stopper, or stopped once |
| `SessionRegistry.StepMovesSession` | pkg/pipeline/registry.go:33-87 | each atomic step passes a session from one place to another; only a successful start makes one |
| `SessionRegistry.OneSessionPerEpoch` | pkg/pipeline/registry.go:33-67 | between two removals of a call id all callers that get a session get the same one |
| `SessionRegistry.EpochsCountRemovals` | pkg/pipeline/registry.go:76-87 | the epochs that answers are compared by are the numbers of removals of the call id in the run |
| `SessionRegistry.FoundInSteps` | pkg/pipeline/registry.go:33-39 | left alone, GetOrCreate does nothing without a call id and returns a session that is there unchanged |
| `SessionRegistry.BuildInSteps` | pkg/pipeline/registry.go:40-49 | without one it builds and starts an orchestrator, and a failure leaves no trace |
| `SessionRegistry.StoreInSteps` | pkg/pipeline/registry.go:59-66 | the first to store counts and returns its own; any other stops its own and returns the stored one |
| `SessionRegistry.RemoveInSteps` | pkg/pipeline/registry.go:76-87 | left alone, Remove takes the session out, stops it and counts down, and does nothing without one |
| `SessionRegistry.CountTracksMap` | pkg/pipeline/registry.go:65-101 | the counter is the map size minus stored-not-counted plus deleted-not-discounted, and the map size at rest |
| `Tokens.SplitAtSeparator` | pkg/processors/llm.go:799-809 | splitting at a separator neither cuts, joins nor loses tokens |
| `Tokens.TokensLoseNothing` | pkg/processors/llm.go:799-809 | the tokens one after the other are the letters and digits of the text, and none is empty |
| `Tokens.JoinedTokens` | pkg/processors/llm.go:1004-1009 | the token count is additive over joining texts with spaces |
| `Tokens.EstimateMessageTokens` | pkg/processors/llm.go:981-1009 | the estimate is the sum of the tokens of all texts of the message |
| `Pruning.PruneKeepsLongestSuffix` | pkg/processors/llm.go:899-961 | pruning keeps every system message and the longest suffix of the others that meets both limits, none if no suffix does |
| `Pruning.DropsOnlyOverLimit` | pkg/processors/llm.go:915-961 | in numbers: a message is dropped only while more than the allowed messages or tokens remain, and the result has at most the allowed ones or no non-system message |
| `Pruning.PruneKeepsOrder` | pkg/processors/llm.go:899-961 | the pruned history is a subsequence of the history |
| `Pruning.PruneAppend` | pkg/processors/llm.go:252-261 | pruning, appending and pruning again is pruning the concatenation once |
| `Pruning.OnlineIsOffline` | pkg/processors/llm.go:899-961 | pruning at every append leaves what pruning the whole log once leaves |
| `Pruning.HistoryThenTokens` | pkg/processors/llm.go:899-913 | pruning by the history limit and then by the token limit is pruning by both |
| `Pruning.NonSystemIndices` | pkg/processors/llm.go:963-971 | the positions of the non-system messages in order |
| `Pruning.PruneByHistory` | pkg/processors/llm.go:915-936 | exactly the surplus of oldest non-system messages is dropped |
| `Pruning.EstimateMessagesTokens` | pkg/processors/llm.go:973-979 | the total is the sum over all messages |
| `Pruning.PruneByTokens` | pkg/processors/llm.go:938-961 | the loop terminates and meets the specification for the token limit |
| `Pruning.PruneMessages` | pkg/processors/llm.go:899-913 | the composition meets the specification for both limits |
| `Memory.ConversationMemory.EnsureMessages` | pkg/processors/llm.go:326-338 | a new conversation begins with the system message, an old one is untouched |
| `Memory.ConversationMemory.EnsureAgent` | pkg/processors/llm.go:263-280 | the system text of a known agent is appended and recorded unless it was the last announced, so that a second agent is announced and the same one not again; the history still prunes like the full log |
| `Memory.ConversationMemory.ContextWithUser` | pkg/processors/llm.go:252-261 | the context handed to the model is the pruned history with the announcement, if due, and the user message; the announcement is not due again |
| `Memory.ConversationMemory.AppendText` | pkg/processors/llm.go:1051-1073 | assistant and system texts extend the log, empty ones do not, and the history stays the pruned log |
| `Memory.ConversationMemory.ApplyToolResult` | pkg/processors/llm.go:698-749 | a failure note, then call and answer; dropped without call id or result; the history stays the pruned log |
| `Memory.ConversationMemory.PopLastMessage` | pkg/processors/llm.go:1075-1084 | removes the last message of one conversation and changes nothing else; the conversation stays the pruned log exactly if that undoes the last append |
| `Memory.ConversationMemory.ClearCall` | pkg/processors/llm.go:407-430 | forgets exactly the histories of the ended call and stream |
| `Memory.PopUndoesAppendIff` | pkg/processors/llm.go:181-193 | popping undoes the append of the user message if and only if that pruned nothing or there was no history |
| `Memory.PopUndoesIff` | pkg/processors/llm.go:1075-1084 | popping a pruned log that ends in a user message leaves the pruned rest if and only if the message fitted beside what pruning keeps of the rest, or nothing of it is kept |
| `Memory.HistoryIsPrunedLogIff` | pkg/processors/llm.go:176-193 | in any run with failed model calls, the history is the pruned log of what should have stayed, all the time, if and only if every popped message fitted beside what there was before it |
| `Memory.PopLosesSystemMessageIff` | pkg/processors/llm.go:1075-1084 | for every history, the pop takes a system message if and only if there is one and the user message does not fit beside the system messages alone; it then takes the last of them |
| `Memory.PopLosesSystemMessageExample` | pkg/processors/llm.go:1075-1084 | a concrete conversation in which that happens |
| `Chunking.SplitIsUnique` | pkg/processors/llm.go:1029-1044 | there is one division of a token stream into chunks of at least 120 bytes that would be shorter without their last token, and a shorter last one |
| `Chunking.ChunksSplitTheText` | pkg/processors/llm.go:1029-1044 | the texts emitted follow that division and concatenate to all tokens |
| `Chunking.StreamToFrames` | pkg/processors/llm.go:1011-1049 | the frames carry those texts, the last one is marked for flushing, and the assistant message is all tokens |
| `Confirmation.ToolCallConsumesOneRequest` | pkg/processors/llm.go:466-696 | over any run a call of a gated tool answers an earlier request on the same stream for the same call, pending ever since, by a confirming reply, and ends it |
| `Confirmation.TwoToolCallsTwoRequests` | pkg/processors/llm.go:546-696 | no request is ever consumed twice |
| `Confirmation.GatedCallNeedsReply` | pkg/processors/llm.go:466-479 | a gated tool is never called directly for the model, and a confirmed call is the stored one |
| `Confirmation.PendingStaysOrIsSettled` | pkg/processors/llm.go:481-500 | a pending entry is never overwritten and leaves exactly by confirmation, cancellation or the end of the call |
| `Confirmation.PendingHasOrigin` | pkg/processors/llm.go:466-500 | every pending entry goes back to a prompt on its stream |
| `Confirmation.PendingIsGated` | pkg/processors/llm.go:466-500 | only gated calls on named streams are ever stored |
| `Confirmation.FirstKeyDecides` | pkg/processors/llm.go:766-781 | the first 1 or 2 among the tokens of a reply decides, whatever words there are: 1 confirms, 2 cancels |
| `Confirmation.FirstWordDecides` | pkg/processors/llm.go:782-796 | without a key the first word of assent or refusal decides |
| `Confirmation.UnclearIff` | pkg/processors/llm.go:766-797 | a reply is unclear if and only if it has neither |
| `Confirmation.ModeDecides` | pkg/processors/llm.go:546-560 | keywords decide unless the mode is llm, and the model decides what they leave unclear if it may be asked |
| `ConfirmationCases.ReplyIsAnswered` | pkg/processors/llm.go:546-657 | every confirming reply calls the stored tool, every cancelling one drops it, every unclear one changes nothing and asks again |
| `ConfirmationCases.TextIsSpoken` | pkg/processors/llm.go:170-218 | a text that the model fails on, or answers without tool calls, changes no pending or running call |
| `ConfirmationCases.GatedCallIsAskedAbout` | pkg/processors/llm.go:466-500 | if a call needs a confirmation, no call goes out and the first that does is stored and asked about |
| `ConfirmationCases.UngatedCallsGoOut` | pkg/processors/llm.go:473-479 | otherwise the calls go out one by one in order between the thinking marks |
| `ConfirmationCases.RunningWasLetOut` | pkg/processors/llm.go:659-715 | over any run, a running call was let out by the gate and no result for it has come since |
| `Confirmation.DtmfPrefixIsNeutral` | pkg/processors/llm.go:766-797 | the prefix of key-press texts does not change how a reply is read |
| `Confirmation.ToolGate.HandlePendingConfirmation` | pkg/processors/llm.go:546-657 | keyword and model classification by mode, with the three outcomes |
| `Confirmation.ToolGate.HandleToolCalls` | pkg/processors/llm.go:466-479 | the first gated call is stored and asked about, otherwise all calls go out |
| `Confirmation.ToolGate.EmitToolCalls` | pkg/processors/llm.go:659-696 | one tool call frame per call in order, each entered as running |
| `Confirmation.ToolGate.Process` | pkg/processors/llm.go:128-218 | the processor steps as the trace model does |
| `Dispatcher.OneCallPerStream` | pkg/ranya/dispatcher.go:104-113 | with serialization, no two workers are inside the retry loop for one nonempty stream |
| `Dispatcher.BlockerCanMove` | pkg/ranya/dispatcher.go:191-203 | whoever blocks a worker is itself not blocked, so no wait cycle between lock table and stream locks is reachable |
| `Dispatcher.SomeWorkerCanMove` | pkg/ranya/dispatcher.go:84-146 | while any worker is busy, or a task is queued for one, some worker can take a step |
| `Dispatcher.TasksAccountedFor` | pkg/ranya/dispatcher.go:64-146 | every task offered is queued, in flight, finished or refused, and each finished runnable one gave exactly one result, sent or dropped |
| `Dispatcher.RefusalHasReason` | pkg/ranya/dispatcher.go:75-79 | over any run, each refused task goes back to an offer made while 64 tasks were queued |
| `Dispatcher.LookUpInSteps` | pkg/ranya/dispatcher.go:191-203 | left alone, a task of a named stream gets the lock in the table, or makes and enters it |
| `Dispatcher.LockedCallInSteps` | pkg/ranya/dispatcher.go:104-146 | left alone, it calls the tool with its lock held, gives the lock back, and reports once |
| `Dispatcher.UnrunnableInSteps` | pkg/ranya/dispatcher.go:90-96 | a task without call id or tool name finishes without a call or a result |
| `Retry.CallWithRetry` | pkg/ranya/dispatcher.go:148-165 | at most retries + 1 attempts, first success or last error, and pauses summing to b · a · (a − 1) / 2, with b the configured backoff or 150 ms |
| `TurnFsm.StateMachine.Transition` | pkg/turn/fsm.go:83-124 | takes and announces exactly the allowed transitions; every listener has heard the path since it joined |
| `TurnFsm.StateMachine.AddListener` | pkg/turn/fsm.go:127-131 | a new listener starts at the present end of the path |
| `TurnFsm.StateMachine.OnAudioComplete` | pkg/turn/fsm.go:145-153 | the turn goes back to the caller only from SPEAKING |
| `TurnFsm.StateMachine.OnSTTInput` | pkg/turn/fsm.go:157-175 | speech longer than the threshold interrupts, and only while SPEAKING |
| `TurnFsm.WhoMayEnter` | pkg/turn/fsm.go:60-80 | THINKING is entered from LISTENING only, SPEAKING from THINKING only, LISTENING and IDLE from any other state |
| `TurnInterleaving.CommittedStatesFormPath` | pkg/turn/fsm.go:83-124 | under any interleaving the committed states form a path from IDLE along allowed edges |
| `TurnInterleaving.SpeakingOnlyFromThinking` | pkg/turn/fsm.go:60-80 | SPEAKING is entered only from THINKING |
| `TurnInterleaving.TransitionInSteps` | pkg/turn/fsm.go:83-124 | left alone, a transition is committed and owed to every listener if its edge is allowed, and changes nothing otherwise |
| `TurnInterleaving.AudioCompleteInSteps` | pkg/turn/fsm.go:145-153 | the end of playback gives the turn back to the caller while SPEAKING, and changes nothing otherwise |
| `TurnInterleaving.SttInputInSteps` | pkg/turn/fsm.go:157-175 | caller speech does so if it is long enough |
| `TurnInterleaving.ReachableInformed` | pkg/turn/fsm.go:83-131 | each listener has heard, or is still owed, every edge committed since it joined, exactly once |
| `TurnInterleaving.OneFlushPerTurn` | pkg/turn/fsm.go:83-131 | once all are told, a listener has heard each LISTENING to THINKING edge since it joined exactly once |
| `ContextBuffer.FlushedOncePerTurn` | pkg/processors/context_buffer.go:92-104 | a transcript buffer registered as listener calls Flush exactly once per LISTENING to THINKING edge since then, under every interleaving |
| `BargeIn.FlushAnswersLatestStart` | pkg/turn/manager_impl.go:58-78 | a flush or cancel goes back to a test passed while LISTENING, for the latest speech start, which was an interruption, under a barge-in strategy, and no earlier than the configured delay, or 300 ms, after that start |
| `BargeIn.InterruptionFoundSpeaking` | pkg/turn/manager_impl.go:58-66 | a start is an interruption only if its own thread had found the agent SPEAKING and went straight on with that start |
| `BargeIn.CallbackWaits` | pkg/turn/manager_impl.go:32-35 | in every run a callback runs no earlier than the configured delay, or 300 ms, after its start |
| `BargeIn.SpeechStartInSteps` | pkg/turn/manager_impl.go:58-78 | left alone, a speech start gives the turn to the caller, stamps the speech, stops the old timer and arms a new one if and only if the agent was SPEAKING under a barge-in strategy |
| `BargeIn.SpeechEndInSteps` | pkg/turn/manager_impl.go:80-87 | left alone, a speech end leads from LISTENING to THINKING and stops the timer |
| `BargeIn.CallbackInSteps` | pkg/turn/manager_impl.go:67-75 | a timer fires if and only if its delay is over, and then flushes and cancels if and only if the same stretch of speech is still LISTENING |
| `BargeIn.PassingMeansLatestStart` | pkg/turn/manager_impl.go:68-72 | for every configured delay, even a callback in flight when its timer was stopped passes only for the latest start |
| `BargeIn.AtMostOnePair` | pkg/turn/manager_impl.go:150-162 | a callback emits a flush and then a cancel, at most once |
| `BargeIn.OneTimerPerStart` | pkg/turn/manager_impl.go:58-78 | each speech start arms at most one timer |
| `BargeIn.PoliteNeverEmits` | pkg/turn/manager_impl.go:145-148 | a polite strategy never generates the pair |
| `SilenceReprompt.AttemptsAreNumbered` | pkg/processors/manager.go:191-259 | reprompts between two resets are numbered 1, 2, 3 without repeat or gap and never exceed the configured maximum, or 2 |
| `SilenceReprompt.PromptInSteps` | pkg/processors/manager.go:206-247 | the callback asks unless the attempts are used up, and arms a timer for the next attempt if and only if one is left |
| `SilenceReprompt.RepromptAfterResetIff` | pkg/processors/manager.go:191-259 | after a reset and before a new start a reprompt can be generated if and only if some timer survives the reset: its callback is in flight, or it is armed and no longer the one the field refers to, and it rearms or has a stream |
| `SilenceReprompt.StaleRepromptAfterReset` | pkg/processors/manager.go:251-259 | a run with a survivor of the first kind, a callback in flight |
| `SilenceReprompt.OrphanedTimer` | pkg/processors/manager.go:242-246 | a run with a survivor of the second kind: a rearming callback overwrites the field while a newer timer is armed |
| `EndOfTurn.TimeoutIffWindowOpen` | pkg/processors/manager.go:266-313 | a callback for a stream passes its guard if and only if the last window opened, and not stopped since, is for that stream |
| `EndOfTurn.WindowSteps` | pkg/processors/manager.go:266-313 | opening stops the window before it and arms a new one, given a timeout and a stream; stopping only stops |
| `EndOfTurn.ReplacedWindowStillTimesOut` | pkg/processors/manager.go:276-281 | a run in which one window of a stream times out twice because a replaced callback passes |
| `CallMaps.TablesTellTheHistory` | pkg/transports/twilio/transport.go:453-498 | after any run the tables say exactly which stream serves which call according to the history |
| `CallMaps.TablesStayInverse` | pkg/transports/twilio/transport.go:453-498 | call to stream and stream to call are mutual inverses on nonempty call ids over every run |
| `CallMaps.AttachKeepsInverseIff` | pkg/transports/twilio/transport.go:453-481 | attaching keeps them inverse if and only if the stream is not another call's and the call does not use an unnamed stream |
| `CallMaps.InverseThroughoutIff` | pkg/transports/twilio/transport.go:453-498 | in any run at all the tables are inverse all the time if and only if every attach is safe in that sense when it happens |
| `CallMaps.TablesHaveEqualDomains` | pkg/transports/twilio/transport.go:146-159 | session, call and trace tables know the same streams; a shutdown empties only the sessions |
| `CallMaps.StaleTeardownIsHarmless` | pkg/transports/twilio/transport.go:251-256 | a teardown begun after the call reconnected changes no table, and its call end is ignored |
| `CallMaps.CallEndCountsIff` | pkg/ranya/engine.go:524-530 | the engine heeds a call end if and only if the stream served a call when the tables were read |
| `CallMaps.MetaNamesLastAttach` | pkg/transports/twilio/transport.go:512-526 | the frames of a known stream carry the call, the trace and any caller number that its last attach gave |
| `CallMaps.HeededEndIsFalseIff` | pkg/transports/twilio/transport.go:251-256 | with anything between reading the tables, sending and detaching, a heeded call end is false when it is sent if and only if the call uses another stream by then, and the call outlives the detach if and only if it does so by then |
| `CallMaps.CallOutlivesDetachIff` | pkg/transports/twilio/transport.go:483-498 | a call is still served after the detach of a stream if and only if the call table names another stream before it |
| `CallMaps.StatusEndHeededIff` | pkg/transports/twilio/transport.go:402-410 | with anything between its three locked sections, a status report's call end is heeded if and only if the call still uses the stream looked up when that stream's tables are read |
| `CallMaps.EarlyTeardownEndsLiveCall` | pkg/transports/twilio/transport.go:251-256 | one such run for every live stream: the call reconnects between the two steps |
| `CallMaps.Transport.Attach` | pkg/transports/twilio/transport.go:453-481 | the new tables, the stream superseded and its session to close |
| `CallMaps.Transport.Detach` | pkg/transports/twilio/transport.go:483-498 | forgets the stream, and the call only if it still uses that stream |
| `CallMaps.Transport.EndCall` | pkg/transports/twilio/transport.go:381-412 | a status report, left alone, ends the stream that the call uses at that time, if any |
| `SttMaps.TablesStayInverse` | pkg/processors/stt_processor.go:281-409 | if each stream belongs to one call, a processor that serves one thread keeps the same inverse relation over every run, with closing all streams at any time, even between the locked sections of tracking |
| `SttMaps.InverseThroughoutIff` | pkg/processors/stt_processor.go:395-409 | with any number of threads the tables are inverse all the time if and only if each pair is entered while its call has no other stream and its stream no other call |
| `SttMaps.TrackInSteps` | pkg/processors/stt_processor.go:395-409 | the locked sections of tracking, left alone, add up to the method |
| `SttMaps.ClosesInSteps` | pkg/processors/stt_processor.go:281-322 | closing a stream forgets it and no other, closing all forgets everything |
| `SttMaps.TrackKeepsInverseIff` | pkg/processors/stt_processor.go:395-409 | tracking keeps it if and only if the stream is not another call's |
| `SttMaps.CloseForgets` | pkg/processors/stt_processor.go:281-298 | closing forgets one stream, keeps all others and the inverse relation |
| `SttMaps.OverlappingTracksDisagree` | pkg/processors/stt_processor.go:395-409 | from any state, two threads of one processor that replace the same stream while one has let go of the lock break it |
| `SttMaps.SttProcessor.TrackCallStream` | pkg/processors/stt_processor.go:395-409 | closes the call's previous stream and enters the new one |
| `SttMaps.AudioReplayBuffer.Add` | pkg/processors/stt_processor.go:66-74 | the buffer holds the last chunks of everything added |
| `ContextBuffer.TranscriptConserved` | pkg/processors/context_buffer.go:65-134 | what was handed over, or discarded by Reset, followed by the buffer is every final and a space, for every pattern of refusals |
| `ContextBuffer.InterimsAreUsedOnce` | pkg/processors/context_buffer.go:107-113 | an interim is handed over at most once, with no final after it |
| `ContextBuffer.InterimOrigin` | pkg/processors/context_buffer.go:65-88 | a remembered interim is the last one said, not used since, and no final came after it |
| `ContextBuffer.InterimIsKept` | pkg/processors/context_buffer.go:65-134 | conversely, an interim that nothing replaced or used is still remembered |
| `ContextBuffer.HandlerCalledIff` | pkg/processors/context_buffer.go:69-119 | the handler is called if and only if a final makes the buffer too long or a flush has anything to hand over, and with what |
| `ContextBuffer.FinalWithinLimit` | pkg/processors/context_buffer.go:69-83 | after a final the buffer is within its limit or the handler was called with all of it and refused |
| `ContextBuffer.OverfullMeansRefused` | pkg/processors/context_buffer.go:69-83 | whenever the buffer exceeds its limit, the last final was refused and nothing was accepted since |
| `ContextBuffer.RetryOffersSameIff` | pkg/processors/context_buffer.go:107-134 | after any run and any number of refused flushes, the next flush offers the same content if and only if that is not an interim |
| `ContextBuffer.SpeculativeBuffer.AddTranscript` | pkg/processors/context_buffer.go:65-88 | finals are appended and flushed on overflow, interims replace each other |
| `ContextBuffer.SpeculativeBuffer.Flush` | pkg/processors/context_buffer.go:100-134 | what the handler is called with, and what stays |
| `ContextBuffer.SpeculativeBuffer.OnStateChange` | pkg/processors/context_buffer.go:92-97 | only the end of the caller's turn flushes |
| `CircuitBreaker.BreakerTellsTheHistory` | pkg/resilience/circuit_breaker.go:47-70 | the failure count is the number of rate limits since the last success, and the breaker waits one cooldown from the last of them |
| `CircuitBreaker.DeniedIff` | pkg/llm/circuit_breaker.go:33-50 | a call is refused if and only if there were threshold rate limits since the last success and less than a cooldown has passed since the last |
| `CircuitBreaker.CooldownIsKept` | pkg/llm/circuit_breaker.go:33-69 | from the threshold on each inner call starts at least a cooldown after every such rate limit, until a success |
| `CircuitBreaker.MetricsAccount` | pkg/llm/circuit_breaker.go:33-69 | over any run, denied metrics plus inner calls are the calls, and rate-limit metrics are the rate limits of inner calls |
| `CircuitBreaker.SwitchesAlternate` | pkg/llm/circuit_breaker.go:97-110 | open and close events strictly alternate, open first, and the flag says whether the last call was refused |
| `BreakerInterleaving.CommittedAlternate` | pkg/llm/circuit_breaker.go:97-101 | when calls overlap, the locked switches of the flag still alternate, open first |
| `BreakerInterleaving.SwitchesRecordedOnce` | pkg/llm/circuit_breaker.go:97-110 | recorded plus not yet recorded switches are the committed ones, for open and for close |
| `BreakerInterleaving.RecordedOutOfOrder` | pkg/llm/circuit_breaker.go:102-109 | a run of two overlapping calls that records close before open |
| `CircuitBreaker.Adapter.Request` | pkg/llm/circuit_breaker.go:33-69 | one call of Generate or Stream: reply, metrics and new state |

## Left out

- Update in place of the concurrent parts: the asynchronous orchestrator, the priority queue, the session registry, the dispatcher's workers, barge-in and the turn timers are step relations on values, since their methods interleave; aliasing between goroutines is not modelled.
- Orchestrator shutdown: `Stop` is modelled as cancellation; the sleep and the closing of the output channel are not. A goroutine that returns after a cancellation is one that takes no more steps, so frames and their buffers can stay in channels then.
- Processors that share state or answer differently on the same history: refinement takes each as a deterministic state machine with its own state. Ownership and loss need no such assumption.
- Stage observers, metrics tags, logging and configuration loading.
- Liveness and fairness: low-class progress, worker fairness and the order of tool calls of one stream are not promised by the code. `AlwaysProgress` and `SomeWorkerCanMove` say that a step is possible, not that it is taken.
- `SessionRegistry`: `WaitForEmpty` and the draining flag; a zero count does not mean an empty map while callers are on their way.
- `Tokens`: the estimate counts runs of lower-case ASCII letters and digits, as the code does, although its other caller folds case first. Image parts count nothing.
- `Memory`: trimming of scope names, languages, the active agent per stream and cloning of messages.
- `Memory.ConversationMemory.ApplyToolResult`: the model call that follows the append, and its stream.
- `Confirmation`: prompt texts, languages, other frame fields and the time limit of the classifier, whose answer is arbitrary. `KeywordIntent` folds ASCII letters only, where the code folds all Unicode letters.
- `Chunking`: a character stands for a byte, and frames keep only their text and flush mark.
- `Retry.CallWithRetry`: a timeout is one of the ways an attempt fails; that the timed-out handler keeps running is not modelled, and neither is the overlap of handlers it allows.
- `Dispatcher`: the fields of the result frame, argument decoding and the idempotency key.
- `TurnFsm`: order in which one listener hears edges of overlapping transitions, which the code does not fix.
- `BargeIn`: the clock readings of different steps may coincide; no distinct time stamps are needed, because the delay is positive and a timer fires no earlier than its delay.
- `TurnTimers`: prompt texts and the bounded queue in front of the processor; a reprompt counts when it is generated, even if that queue is full.
- `CallMaps`: sockets, the media, key-press and start messages as such, request signatures, and normalization of end reasons. Streams are taken to have names and to belong to one call each; `CallMaps.AttachKeepsInverseIff` says what happens otherwise.
- `CallMaps.HeededEndIsFalseIff`: the send of a new stream's call start, which follows its attach, is not a step; a call end sent in between is called false although the engine hears the start after it.
- `CallMaps.Transport.EndCall`: its three locked sections are one step in the object; `CallMaps.StatusEndHeededIff` and `CallMaps.CallOutlivesDetachIff` cover what happens between them.
- `SttMaps`: recognition sessions, languages, retries and the replay of chunks into a new session.
- `ContextBuffer`: the concrete handler of `pkg/processors/context.go`, which calls back into the buffer while it is locked; the handler here does not. Stream names for logging.
- `CircuitBreaker`: overlapping calls have the switches and their records in `BreakerInterleaving`; failure counting is for calls one after the other.
- Vendors, network, redaction, summaries and history caps of other processors, recovery counters, key-press windows, response limiter.
