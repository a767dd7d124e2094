# Customers Manager HUB: a verified model of its core

The HUB answers customer messages with AI agents, hands conversations to people, calls tools, indexes knowledge and
bills the businesses that use it. This project models the parts of it in which mistakes are costly and hard to see by
reading one function at a time, and proves what they promise over whole runs and over every input.

- **The reply protocol** (`ReplyRows`, `ReplyStore`, `ReplyProtocol`, `ReplyInvariant`, `ReplyTheorems`, `ReplyResume`,
  `ReplyColumns`, `ReplyIntake`, `ReplySoloRuns`, `ReplyCounterRun`). Workers, operators and redelivered webhooks share
  four tables. `ReplyRows` has one function for each database transaction, `ReplyStore` the class whose methods assign
  the columns and are proved equal to those functions, `ReplyProtocol` the program counter of a worker and the steps of
  everybody else, `ReplyInvariant` what every reachable state satisfies, and the other modules what follows: one run and
  one reply for each customer message, answers to customers alone, no AI message during a human handoff, disjoint leases,
  a superseded worker that cannot change the run by renewing, persisting, completing or releasing, every column a step
  writes, a stored text that is sent again and not generated again, the event a resume queues, the exact conditions under
  which a finished run stays finished and a worker past its persist step delivers, and runs from the initial state that
  end with a delivered reply and a failed run.
- **Tools, routing and billing** (`ToolRuntime`, `ToolTheorems`, `ToolApprovals`, `AiGateway`, `AiGatewayTheorems`,
  `Charges`, `Ledger`, `GatewayBilling`). Replayable tool executions with approval and retries and the cause of every call
  of an adapter, the fallback search over routes and attempts with its trace log, and the wallet ledger charged from that
  log.
- **Text** (`Whitespace`, `Decimals`, `TextNormalizer`, `Chunker`, `SheetPacker`, `TextConservation`,
  `KnowledgePipeline`, `ContextPacker`). Normalisation, the exact set of texts it leaves alone and what it keeps of every
  other, overlapping chunks that rebuild the text, the packing of worksheet rows, and the three packers that fill a
  character budget.
- **Smaller state machines** (`MemoryMerge`, `MemoryKeys`, `JobQueue`, `JobQueueTheorems`, `KnowledgeIndex`, `IndexRuns`,
  `PromptHistory`, `BusinessHours`).

Code that changes state is a class or a method with a loop, proved equal to a function of the old state (or, for the
packers and the embedding loop, proved to meet a predicate that determines the result); the theorems are lemmas about
those functions and about every sequence of steps built from them. `dafny verify dfyconfig.toml` checks everything.

Places where the code does less than a reader may expect are stated as theorems about the code as it is, with the exact
condition under which it does meet the expectation:

- `pause_for_tool_approval` looks at neither the lease nor the status of the run, so a superseded worker can reopen a
  succeeded run, which then ends as failed although its reply was delivered. A finished run is final exactly when no
  worker is still generating for it. A run can also fail after its reply was delivered without any approval pause: a run
  fails exactly when the holder of its lease releases it as final, and whether a reply is committed plays no part.
- `resolve_handoff(resume_ai=True)` may be repeated without effect exactly when the first call did not cancel an active
  handoff.
- A resume wakes only the run that the handoff names as its source, which is the first one paused behind it. Another run
  paused behind the same handoff stays paused when it is resolved, with no handoff left in its conversation.
- A published knowledge index stays published exactly when nobody reindexes and no worker that claimed before the
  publication finishes after it; publication is final exactly when no such worker is left.
- The order in which messages are extracted into customer memory is irrelevant for a key exactly when the newest messages
  that may set it agree, for instance when they are one.
- The check before a model call asks for a positive balance only. No balance is ever negative exactly when no debit
  exceeds the balance it meets.

## Model

| member | source | states |
|---|---|---|
| ReplyStore.Store.PersistInboundEvent | apps/api/src/customers_manager_hub/channel_runtime.py:142-326 | one transaction of a webhook: a known event is returned, an update without text is ignored, a message is stored once per channel, thread and external id, a key of another conversation is refused; exactly these rows change |
| ReplyStore.Store.MarkEventEnqueued | apps/api/src/customers_manager_hub/channel_runtime.py:329-335 | only a received event becomes enqueued, and a missing one is an error |
| ReplyStore.Store.MarkEventIgnored | apps/api/src/customers_manager_hub/channel_runtime.py:338-351 | every event but a processed one becomes ignored |
| ReplyStore.Store.ProcessChannelEvent | apps/api/src/customers_manager_hub/channel_runtime.py:354-430 | an event is processed once, ignored without an active account or a message, and left as it is by an error |
| ReplyTheorems.SettledEventsStay | apps/api/src/customers_manager_hub/channel_runtime.py:354-367 | processed and ignored events are final over any run |
| ReplyStore.Store.CommitOutbound | apps/api/src/customers_manager_hub/channel_runtime.py:563-587 | the reply is inserted unless its key is taken; then the stored message is returned or refused by comparison |
| ReplyStore.Store.InsertRunRow | apps/api/src/customers_manager_hub/agent_runtime.py:278-302 | the unique constraint on the inbound message turns a lost race into the existing run |
| ReplyStore.Store.ClaimLease | apps/api/src/customers_manager_hub/agent_runtime.py:305-333 | a claim succeeds exactly on an open run whose lease is absent or expired, and otherwise changes nothing |
| ReplyStore.Store.Renew | apps/api/src/customers_manager_hub/agent_runtime.py:336-356 | renewal moves the end of the lease of the holder of an open run and of nobody else |
| ReplyStore.Store.PersistGenerated | apps/api/src/customers_manager_hub/agent_runtime.py:447-470 | text is stored only by the holder of a pending run |
| ReplyStore.Store.Complete | apps/api/src/customers_manager_hub/agent_runtime.py:473-498 | completion by the holder clears lease and text and records the reply |
| ReplyStore.Store.ReleaseError | apps/api/src/customers_manager_hub/agent_runtime.py:501-525 | release by the holder clears the lease; a final one fails the run and drops its text, any other leaves status and text as they are |
| ReplyStore.Store.Guard | apps/api/src/customers_manager_hub/handoff_runtime.py:366-410 | without an active handoff the answer is yes and the lease is not looked at; with one, the holder is paused and the handoff gets the run as its source |
| ReplyStore.Store.Request | apps/api/src/customers_manager_hub/handoff_runtime.py:117-194 | at most one active handoff: an existing one is returned and only an empty source is filled |
| ReplyStore.Store.PauseForToolApproval | apps/api/src/customers_manager_hub/handoff_runtime.py:278-363 | requests a handoff and pauses the run whatever its lease and status |
| ReplyStore.Store.Claim | apps/api/src/customers_manager_hub/handoff_runtime.py:413-446 | claiming is idempotent for the claimant and refused to others |
| ReplyStore.Store.Release | apps/api/src/customers_manager_hub/handoff_runtime.py:449-480 | only the claimant, or an override, returns a handoff to the queue |
| ReplyStore.Store.Resolve | apps/api/src/customers_manager_hub/handoff_runtime.py:483-565 | closes the active handoff or finds the latest resolved one, resets a paused or pending source run and answers with the event to queue again |
| ReplyRows.ValidatedIsDeliverable | apps/api/src/customers_manager_hub/agent_runtime.py:103-111 | a validated text passes every later validation and the outbound strip unchanged |
| ReplyInvariant.InitialInv | apps/api/src/customers_manager_hub/agent_runtime.py:741-917 | the invariant holds with no rows and idle workers |
| ReplyInvariant.ApplyKeepsInv | apps/api/src/customers_manager_hub/agent_runtime.py:741-917 | every step of a worker, an operator or the environment keeps the invariant of rows, leases, locks, program counters and the account of sends |
| ReplyInvariant.ExecKeepsInv | apps/api/src/customers_manager_hub/agent_runtime.py:741-917 | every reachable state satisfies the invariant |
| ReplyTheorems.ExecGrows | apps/api/src/customers_manager_hub/channel_runtime.py:142-326 | over any run messages are only appended, events and runs keep their identity, closed handoffs keep every column |
| ReplyTheorems.OneRunAndOneReply | apps/api/src/customers_manager_hub/agent_runtime.py:209-302 | in every interleaving a customer message has at most one run and at most one message under the key of such a run |
| ReplyTheorems.OneEventPerDelivery | apps/api/src/customers_manager_hub/channel_runtime.py:142-326 | redelivered webhooks add neither a second event nor a second message |
| ReplyTheorems.SendsAccounted | apps/api/src/customers_manager_hub/channel_runtime.py:475-587 | external sends of a run equal lost plus committed plus in flight; at most one commit; at most one send when none was lost between send and commit |
| ReplyTheorems.NoReplyDuringHandoff | apps/api/src/customers_manager_hub/handoff_runtime.py:366-410 | a step that sends or commits a reply finds no queued or claimed handoff in the conversation and changes none |
| ReplyTheorems.LeasesExclude | apps/api/src/customers_manager_hub/agent_runtime.py:305-356 | leases granted since the last clearing do not overlap, and only a pending or generated run carries one |
| ReplyTheorems.SupersededForever | apps/api/src/customers_manager_hub/agent_runtime.py:305-333 | a token that is no longer the lease never becomes it again |
| ReplyTheorems.SupersededIsPowerless | apps/api/src/customers_manager_hub/agent_runtime.py:336-525 | a worker without the lease changes nothing by renewing, persisting, completing, releasing or asking the guard |
| ReplyTheorems.SecondReleaseIsNoOp | apps/api/src/customers_manager_hub/agent_runtime.py:825-898 | the release outside the error handler writes nothing after the one inside it, whatever happened in between |
| ReplyTheorems.GeneratedTextIsThere | apps/api/src/customers_manager_hub/agent_runtime.py:849-853 | generated text is present exactly in status generated, so the missing-text branch is never taken |
| ReplyTheorems.SucceededHasReply | apps/api/src/customers_manager_hub/agent_runtime.py:473-498 | a succeeded run points to the committed message under its own key, with a text that some persist step stored |
| ReplyTheorems.StepOnRun | apps/api/src/customers_manager_hub/agent_runtime.py:305-525 | everything a step can do to a run row: an approval pause, a claim, the write of the lease holder, an operator resume, or nothing |
| ReplyTheorems.TerminalRunStep | apps/api/src/customers_manager_hub/handoff_runtime.py:302-337 | a step changes a succeeded or failed run exactly when it is an effective approval pause |
| ReplyTheorems.TerminalRunStays | apps/api/src/customers_manager_hub/handoff_runtime.py:302-337 | over a whole run a finished run keeps its row exactly when no approval pause hits it |
| ReplyTheorems.TerminalIsFinalExactly | apps/api/src/customers_manager_hub/handoff_runtime.py:302-337 | a finished run is final, whatever happens from now on, exactly when no worker is still generating for it |
| ReplyTheorems.FailsExactly | apps/api/src/customers_manager_hub/agent_runtime.py:501-525 | a step fails a run exactly when the holder of its lease releases it as final |
| ReplyTheorems.PauseUnderLeaseHitsNoTerminalRun | apps/api/src/customers_manager_hub/handoff_runtime.py:302-337 | a pause made under a live lease never hits a finished run |
| ReplyTheorems.HandoffHistory | apps/api/src/customers_manager_hub/handoff_runtime.py:117-194 | one active handoff per conversation, claimant and closing time exactly where the status says, closed rows final |
| ReplyTheorems.ClaimThenRelease | apps/api/src/customers_manager_hub/handoff_runtime.py:413-480 | a claim is idempotent for its claimant and refused to others; release by the claimant or an override restores the rows, by others it is refused |
| ReplyTheorems.ResumeTwice | apps/api/src/customers_manager_hub/handoff_runtime.py:529-565 | resuming the same handoff twice gives the same rows and event as once |
| ReplyTheorems.ResolveAgain | apps/api/src/customers_manager_hub/handoff_runtime.py:483-565 | repeating a resolve with resume changes nothing and returns the same handoff and event exactly when the first call did not cancel an active handoff |
| ReplySoloRuns.UndisturbedWorkerSucceeds | apps/api/src/customers_manager_hub/agent_runtime.py:741-917 | with the lease free and no interference ten steps of one worker store the reply and leave the run succeeded |
| ReplySoloRuns.DeliversWithoutLease | apps/api/src/customers_manager_hub/handoff_runtime.py:385-387 | a superseded worker past its persist step still delivers when no reply exists: single reply rests on the key, not on the lease |
| ReplySoloRuns.DeliversExactly | apps/api/src/customers_manager_hub/handoff_runtime.py:366-410 | a worker past its persist step delivers exactly when no handoff is active and the key is free or holds that very reply, with or without the lease; the message has every column it should |
| ReplySoloRuns.ConflictFailsRun | apps/api/src/customers_manager_hub/channel_runtime.py:481-495 | a reply with another text already under the key fails the run of the lease holder |
| ReplyCounterRun.SucceededRunReopened | apps/api/src/customers_manager_hub/handoff_runtime.py:302-337 | a reachable state in which the pause of a superseded worker reopens a succeeded run |
| ReplyCounterRun.ReopenedRunFails | apps/api/src/customers_manager_hub/handoff_runtime.py:302-337 | a run of the system that ends with a delivered reply and a failed run |
| ReplyCounterRun.DeliveredThenFailed | apps/api/src/customers_manager_hub/channel_runtime.py:481-495 | an overtaken worker delivers after a guard pause and a resume; whoever takes the run over with another text then fails it |
| ReplyCounterRun.DeliveredRunFails | apps/api/src/customers_manager_hub/channel_runtime.py:481-495 | such a run from the initial state, without an approval pause |
| ToolRuntime.ToolStore.MarkRunning | apps/api/src/customers_manager_hub/tool_runtime.py:791-809 | busy while running, refused unless pending, otherwise running |
| ToolRuntime.ToolStore.FinishExecution | apps/api/src/customers_manager_hub/tool_runtime.py:811-855 | the verdict is written whatever the row says |
| ToolRuntime.ToolStore.PerformCall | apps/api/src/customers_manager_hub/tool_runtime.py:939-1019 | the retry loop: adapter calls, verdict and row as one function of the answers |
| ToolRuntime.ToolStore.ExecuteAgentTool | apps/api/src/customers_manager_hub/tool_runtime.py:857-1019 | create or replay, mismatch, settled, busy, stale and approval cases in the order of the source |
| ToolRuntime.ToolStore.GenerateToolAware | apps/api/src/customers_manager_hub/agent_runtime.py:666-738 | at most four rounds and three tool calls, ordinals one by one, with the errors of decisions and pauses; the raise after the loop is unreachable |
| ToolRuntime.ResetIsLost | apps/api/src/customers_manager_hub/tool_runtime.py:917-936 | setting a stale row back to pending leaves no trace once it is marked running |
| ToolTheorems.HistoryKeeps | apps/api/src/customers_manager_hub/tool_runtime.py:732-1019 | over any history of loops and decisions rows keep run, ordinal, tool, agent and payload, settled rows never change, keys are unique |
| ToolTheorems.OrdinalsContiguous | apps/api/src/customers_manager_hub/agent_runtime.py:666-738 | the ordinals of a run are contiguous from one and at most three |
| ToolTheorems.CalledOnlyIfApproved | apps/api/src/customers_manager_hub/tool_runtime.py:903-937 | the adapter is never called for a denied row or one that awaits approval |
| ToolTheorems.SettledReplay | apps/api/src/customers_manager_hub/tool_runtime.py:857-913 | a settled call is answered from its row at every later time without touching the adapter; another tool, agent or payload is refused |
| ToolTheorems.MismatchRefused | apps/api/src/customers_manager_hub/tool_runtime.py:903-906 | a row stays bound to its tool, agent and payload: other requests under its key change nothing |
| ToolTheorems.AttemptsBound | apps/api/src/customers_manager_hub/tool_runtime.py:944-1015 | a verdict falls within the attempts allowed and the answers given, and the loop runs dry only when no attempt is allowed |
| ToolTheorems.CallsOfOneEpisode | apps/api/src/customers_manager_hub/tool_runtime.py:944-952 | one call reaches the adapter for one row only, at most max_attempts times, once for a write without idempotency header |
| ToolTheorems.ExhaustedExactlyWhenNoAttempts | apps/api/src/customers_manager_hub/tool_runtime.py:1017-1019 | the raise after the retry loop is reached exactly when a retryable tool allows no attempt |
| ToolTheorems.LimitIsFourthCall | apps/api/src/customers_manager_hub/agent_runtime.py:706-710 | the loop limit is reported only after four tool calls in a row |
| AiGateway.Gateway.Execute | apps/api/src/customers_manager_hub/ai_gateway.py:347-459 | the nested loops append exactly the traces of the search and answer what it answers |
| AiGatewayTheorems.AttemptsAre | apps/api/src/customers_manager_hub/ai_gateway.py:392-458 | one trace per attempt, all but the last retryable failures, ended as the last answer says |
| AiGatewayTheorems.LogIsInOrder | apps/api/src/customers_manager_hub/ai_gateway.py:347-459 | every trace is that of a reached try and the tries increase by route and attempt |
| AiGatewayTheorems.LogIsComplete | apps/api/src/customers_manager_hub/ai_gateway.py:347-459 | every reached try has its trace |
| AiGatewayTheorems.SuccessIsLast | apps/api/src/customers_manager_hub/ai_gateway.py:446-459 | at most one success is logged and it is last; an error carries the code of the last trace |
| AiGatewayTheorems.AnswersExactly | apps/api/src/customers_manager_hub/ai_gateway.py:347-459 | the search answers exactly when a reached try succeeds, with that value |
| AiGatewayTheorems.RetryableExactly | apps/api/src/customers_manager_hub/ai_gateway.py:393-459 | retryable means: no route stopped the search and some provider failure on the way was retryable |
| AiGatewayTheorems.InitialCodeIsDead | apps/api/src/customers_manager_hub/ai_gateway.py:355-459 | the initial error code is never reported for a profile with routes |
| Charges.ResolveIsLatest | apps/api/src/customers_manager_hub/billing_runtime.py:27-42 | the price in force is the latest that applies |
| Charges.ResolveIgnoresOrder | apps/api/src/customers_manager_hub/billing_runtime.py:27-42 | it does not depend on the order of the price rows |
| Charges.ChargeIsExactCeiling | apps/api/src/customers_manager_hub/billing_runtime.py:45-55 | without audio the charge is the integer ceiling of (in * p_in + out * p_out) / 10^6, both directions |
| Charges.ChargeIsMonotone | apps/api/src/customers_manager_hub/billing_runtime.py:45-55 | more use or a higher price never costs less |
| Charges.SplittingCosts | apps/api/src/customers_manager_hub/billing_runtime.py:45-55 | splitting a use into k calls costs at least as much and at most k - 1 Rial more |
| Charges.SplittingMayCostMore | apps/api/src/customers_manager_hub/billing_runtime.py:45-55 | the upper bound is met |
| Ledger.BillingTables.GetBusinessWallet | apps/api/src/customers_manager_hub/platform_billing.py:239-258 | a missing wallet is opened at zero |
| Ledger.BillingTables.CreditBusinessWallet | apps/api/src/customers_manager_hub/platform_billing.py:264-305 | the balance grows by the amount and the entry records the new balance |
| Ledger.BillingTables.RecordTraceCharge | apps/api/src/customers_manager_hub/billing_runtime.py:80-132 | nothing for a failed, charged or unpriced trace, an error without a wallet, otherwise the debit |
| Ledger.HistoryKeeps | apps/api/src/customers_manager_hub/billing_runtime.py:80-132 | under any interleaving balances are credits less debits, balance_after is the running sum, no trace is debited twice |
| Ledger.EntriesStay | apps/api/src/customers_manager_hub/billing_runtime.py:115-131 | the ledger is append-only |
| Ledger.DebitHasCause | apps/api/src/customers_manager_hub/billing_runtime.py:85-114 | every debit has a succeeded trace of that tenant and the price in force behind it |
| Ledger.ChargedOnce | apps/api/src/customers_manager_hub/billing_runtime.py:87-93 | charging a trace again at any later time changes nothing |
| Ledger.BillingTables.EnsureCanExecute | apps/api/src/customers_manager_hub/billing_runtime.py:62-78 | refused without a price when one is required, and without a positive balance when there is a price |
| Ledger.NegativeExactly | apps/api/src/customers_manager_hub/billing_runtime.py:103-117 | a debit leaves a negative balance exactly when it exceeds the balance it meets |
| Ledger.CheckedCallOwesLess | apps/api/src/customers_manager_hub/billing_runtime.py:62-117 | after the check has passed the debt stays below the amount of the charge, and there is one exactly when the charge exceeds the balance |
| Ledger.NonNegativeExactly | apps/api/src/customers_manager_hub/billing_runtime.py:80-132 | over any history of positive credits no balance is ever negative exactly when no debit exceeds the balance it meets |
| Ledger.MayGoNegative | apps/api/src/customers_manager_hub/billing_runtime.py:76-78 | the check passes on a positive balance and the charge takes it below zero |
| GatewayBilling.OneDebitPerExecution | apps/api/src/customers_manager_hub/ai_gateway.py:474-512 | an execution adds at most one entry, for its answering try, however many tries it made |
| Whitespace.StripIsMiddle | apps/api/src/customers_manager_hub/knowledge_parsing.py:53-55 | what strip leaves is the middle of the text, with white space around it and none at its ends |
| TextNormalizer.NormalizeIsNormal | apps/api/src/customers_manager_hub/knowledge_parsing.py:50-55 | the result has no carriage return, NUL or blank run, no white space at the ends of lines, at most one empty line in a row |
| TextNormalizer.FixedExactlyWhenNormal | apps/api/src/customers_manager_hub/knowledge_parsing.py:50-55 | normalisation leaves a text alone exactly when it has that form |
| TextNormalizer.NormalizeTwice | apps/api/src/customers_manager_hub/knowledge_parsing.py:50-55 | normalisation is idempotent |
| Chunker.RFindIsLast | apps/api/src/customers_manager_hub/knowledge_parsing.py:232-235 | the search returns the last occurrence inside its bounds |
| Chunker.BoundaryIsBest | apps/api/src/customers_manager_hub/knowledge_parsing.py:228-236 | the cut falls after the last occurrence, past half the maximum, of the first separator that has one there |
| Chunker.WindowEndBounds | apps/api/src/customers_manager_hub/knowledge_parsing.py:245-249 | a window is not empty and at most 1200 long; one that is not the last is longer than 600 |
| Chunker.WindowsOverlap | apps/api/src/customers_manager_hub/knowledge_parsing.py:244-258 | windows overlap by exactly 150 and start at least 451 apart; the last ends the text |
| Chunker.WindowsReconstruct | apps/api/src/customers_manager_hub/knowledge_parsing.py:239-262 | the first window followed by each later one without its first 150 characters is the text |
| Chunker.WindowCount | apps/api/src/customers_manager_hub/knowledge_parsing.py:239-262 | one window up to 1200 characters, at most 1 + ceil((n - 1200) / 451) beyond |
| Chunker.OnlySpaceIsLost | apps/api/src/customers_manager_hub/knowledge_parsing.py:250-252 | every character that is not white space is inside some chunk, which is a piece of the text |
| Chunker.ChunkText | apps/api/src/customers_manager_hub/knowledge_parsing.py:239-258 | the loop with its two fallbacks gives the contents of the windows: the fallbacks never fire |
| Chunker.ChunkUnits | apps/api/src/customers_manager_hub/knowledge_parsing.py:239-262 | the chunks of all units in order, or the two errors |
| Chunker.ParsedUnitReconstructs | apps/api/src/customers_manager_hub/knowledge_parsing.py:242 | the second normalisation changes nothing on a parsed unit |
| SheetPacker.PackingIsUnique | apps/api/src/customers_manager_hub/knowledge_parsing.py:164-212 | the packing predicate leaves no choice |
| SheetPacker.GroupsArePacked | apps/api/src/customers_manager_hub/knowledge_parsing.py:186-212 | every kept row in one group, in order, groups of several rows within the target, none closed early |
| SheetPacker.Flush | apps/api/src/customers_manager_hub/knowledge_parsing.py:174-194 | the open group becomes a unit: its text is never empty |
| SheetPacker.ParseSheet | apps/api/src/customers_manager_hub/knowledge_parsing.py:168-212 | the row loop of a sheet writes exactly the units of its packing, or stops past the limit |
| SheetPacker.ParseXlsx | apps/api/src/customers_manager_hub/knowledge_parsing.py:164-217 | all sheets in order with the three error cases |
| SheetPacker.SeveralRowsJoinShort | apps/api/src/customers_manager_hub/knowledge_parsing.py:202-203 | a unit of several rows joins to fewer than 4800 characters |
| SheetPacker.RangesIncrease | apps/api/src/customers_manager_hub/knowledge_parsing.py:183-186 | row ranges of the units of a sheet increase and do not meet |
| SheetPacker.RowInOneUnit | apps/api/src/customers_manager_hub/knowledge_parsing.py:196-212 | a row with text is in exactly one unit |
| SheetPacker.NoTextExactlyWhenBlank | apps/api/src/customers_manager_hub/knowledge_parsing.py:58-63 | no extractable text is reported exactly when every row of every sheet is blank |
| KnowledgePipeline.WorkbookReconstructs | apps/api/src/customers_manager_hub/knowledge_parsing.py:239-262 | the chunker rebuilds the text of every unit of a workbook |
| KnowledgePipeline.ParsedWorkbookHasChunks | apps/api/src/customers_manager_hub/knowledge_parsing.py:260-261 | a parsed workbook is never refused for having no text |
| ContextPacker.PackingIsUnique | apps/api/src/customers_manager_hub/agent_runtime.py:177-195 | snippets and budget determine the packing |
| ContextPacker.ChooseHistory | apps/api/src/customers_manager_hub/agent_runtime.py:177-195 | within the budget, a prefix of the usable messages, only the first may be cut, nothing left out that would fit |
| ContextPacker.BuildHistory | apps/api/src/customers_manager_hub/agent_runtime.py:177-200 | the joined history, oldest first, never exceeds the budget |
| ContextPacker.RecentAreStored | apps/api/src/customers_manager_hub/agent_runtime.py:157-173 | the history never holds the current message |
| ContextPacker.BuildConversationInput | apps/api/src/customers_manager_hub/agent_runtime.py:145-206 | the whole model input: the latest twenty other messages within the budget, then the current one |
| ContextPacker.ChooseMemory | apps/api/src/customers_manager_hub/memory_runtime.py:460-480 | the same for memory lines |
| ContextPacker.BuildMemory | apps/api/src/customers_manager_hub/memory_runtime.py:460-487 | a block exactly when there are items and a budget |
| ContextPacker.InferencesAreApproved | apps/api/src/customers_manager_hub/memory_runtime.py:438-448 | an inference that reaches the model was verified by a person |
| ContextPacker.BuildMemoryContext | apps/api/src/customers_manager_hub/memory_runtime.py:410-487 | the block of at most twenty trusted items |
| ContextPacker.PackKnowledge | apps/api/src/customers_manager_hub/knowledge_runtime.py:397-445 | the same for at most six usable chunks, markers in step with the recorded evidence |
| MemoryMerge.MemoryStore.ExtractMessage | apps/api/src/customers_manager_hub/memory_runtime.py:318-407 | the merge loop over the candidates of a message, and nothing for a message already extracted |
| MemoryMerge.RunKeepsOneActive | apps/api/src/customers_manager_hub/memory_models.py:69-77 | one active item for a contact, category and dedupe key, by the merge itself |
| MemoryMerge.RunRespects | apps/api/src/customers_manager_hub/memory_runtime.py:340-351 | manual and deleted items are never overwritten; nothing becomes verified, and an item stays verified only if it still says the same |
| MemoryMerge.MergeAllLookup | apps/api/src/customers_manager_hub/memory_runtime.py:329-384 | a message acts on each key separately, by its last candidate |
| MemoryMerge.RunOutcome | apps/api/src/customers_manager_hub/memory_runtime.py:329-384 | what a run leaves under a key is the newest speaking message, described without the order of the run |
| MemoryMerge.RunsConverge | apps/api/src/customers_manager_hub/memory_runtime.py:318-407 | when the winners of a key agree, the same messages in any order and with any repeats leave the same active content under it |
| MemoryMerge.OrderIrrelevantExactly | apps/api/src/customers_manager_hub/memory_runtime.py:342-358 | the order is irrelevant for a key exactly when its winners agree |
| MemoryMerge.DistinctTimesConverge | apps/api/src/customers_manager_hub/memory_runtime.py:318-407 | messages about a key at distinct times may come in any order |
| MemoryMerge.SameTimeOrderMatters | apps/api/src/customers_manager_hub/memory_runtime.py:342-343 | of two messages of the same time the one extracted last wins |
| JobQueue.ChannelJobQueue.EnqueueEvent | apps/api/src/customers_manager_hub/channel_queue.py:57-65 | a new entry with its attempt counter at one |
| JobQueue.ChannelJobQueue.AcknowledgeEntry | apps/api/src/customers_manager_hub/channel_queue.py:106-109 | the entry and its counter go |
| JobQueue.ChannelJobQueue.CountAttempt | apps/api/src/customers_manager_hub/channel_queue.py:111-120 | the number of this delivery |
| JobQueue.ChannelJobQueue.DeadLetterEntry | apps/api/src/customers_manager_hub/channel_queue.py:122-140 | a dead letter, then the entry goes |
| JobQueue.ChannelJobQueue.DecodeEntries | apps/api/src/customers_manager_hub/channel_queue.py:142-179 | the loop over entries: a job, or one of three dead letters |
| JobQueue.ChannelJobQueue.ConsumeJobs | apps/api/src/customers_manager_hub/channel_queue.py:67-86 | the next entries never delivered |
| JobQueue.ChannelJobQueue.ReclaimJobs | apps/api/src/customers_manager_hub/channel_queue.py:88-104 | idle pending entries, each counted once more |
| JobQueueTheorems.HistoryKeeps | apps/api/src/customers_manager_hub/channel_queue.py:57-179 | the invariant of every history: counters, budget, numbering, dead letters |
| JobQueueTheorems.EntriesPartitioned | apps/api/src/customers_manager_hub/channel_queue.py:57-179 | an enqueued entry is live, acknowledged or dead-lettered, and only one of them |
| JobQueueTheorems.AttemptsCountUp | apps/api/src/customers_manager_hub/channel_queue.py:111-120 | hand-outs of an entry are numbered 1, 2, 3 and never pass the budget |
| JobQueueTheorems.SpentEntryIsBuried | apps/api/src/customers_manager_hub/channel_queue.py:170-177 | an entry that used its budget is buried when claimed again |
| JobQueueTheorems.ExhaustedMeansSpent | apps/api/src/customers_manager_hub/channel_queue.py:142-177 | an exhausted letter used the whole budget; a malformed entry was never handed out |
| JobQueueTheorems.HandOutsBounded | apps/api/src/customers_manager_hub/channel_queue.py:57-179 | hand-outs are at most enqueued entries times the budget |
| KnowledgeIndex.ValidVectors | apps/api/src/customers_manager_hub/knowledge_runtime.py:83-89 | a batch has no invalid vector exactly when each is finite, not empty and not zero |
| KnowledgeIndex.EmbedChunks | apps/api/src/customers_manager_hub/knowledge_runtime.py:145-179 | succeeds exactly when every batch fits under one signature; then chunks and vectors are paired one by one; otherwise the first bad batch decides the error |
| KnowledgeIndex.SourceTables.ClaimSource | apps/api/src/customers_manager_hub/knowledge_runtime.py:92-120 | ready and failed sources are skipped, a fresh processing one is busy, taking over a stale one changes no column |
| KnowledgeIndex.SourceTables.SetSourceState | apps/api/src/customers_manager_hub/knowledge_runtime.py:123-142 | the state is written without looking at the old one; the signature goes unless ready |
| KnowledgeIndex.SourceTables.PersistIndex | apps/api/src/customers_manager_hub/knowledge_runtime.py:182-230 | rows numbered from one replace the old ones, or nothing changes |
| KnowledgeIndex.SourceTables.IndexChunks | apps/api/src/customers_manager_hub/knowledge_runtime.py:233-290 | published exactly when the source is processing and every batch fits: then row i is chunk i with its own vector under the one signature; otherwise queued or failed with the error of the embedding, or of the changed state |
| IndexRuns.HistoryIsConsistent | apps/api/src/customers_manager_hub/knowledge_runtime.py:92-290 | a ready source has as many rows as it counts, ordinals 1..n, one signature and its dimension, in every reachable state of any number of workers |
| IndexRuns.PublishedStaysExactly | apps/api/src/customers_manager_hub/knowledge_runtime.py:123-142 | over a whole run a published index stays published exactly when nobody reindexes and no worker finishes |
| IndexRuns.FinisherClaimedBefore | apps/api/src/customers_manager_hub/knowledge_runtime.py:102-104 | a worker that finishes after the publication claimed before it |
| IndexRuns.PublicationIsFinalExactly | apps/api/src/customers_manager_hub/knowledge_runtime.py:233-290 | short of a reindex, publication is final exactly when no other worker is still at the source |
| IndexRuns.OvertakenWorkerUnpublishes | apps/api/src/customers_manager_hub/knowledge_runtime.py:201-202 | the publication of an overtaken worker is refused, and its error handler takes the published index back to the queue |
| IndexRuns.ReadyThenQueued | apps/api/src/customers_manager_hub/knowledge_runtime.py:281-289 | a run of two workers in which that happens |
| PromptHistory.PromptTable.constructor | apps/api/src/customers_manager_hub/agents.py:271-304 | a prompt starts with draft version one |
| PromptHistory.PromptTable.PutPromptDraft | apps/api/src/customers_manager_hub/agents.py:336-383 | the draft is edited, or added with the next number |
| PromptHistory.PromptTable.PublishPrompt | apps/api/src/customers_manager_hub/agents.py:386-429 | refused without a draft; otherwise the published version is archived and the draft published |
| PromptHistory.HistoryKeeps | apps/api/src/customers_manager_hub/agents.py:336-429 | published and archived content never changes |
| PromptHistory.PromptShape | apps/api/src/customers_manager_hub/agents.py:336-429 | versions 1..n, a draft is n, the published version is the largest that is not a draft |
| PromptHistory.PinnedPromptStays | apps/api/src/customers_manager_hub/agent_runtime.py:406-413 | a run reads the prompt it pinned at every later load |
| PromptHistory.PublishReplaces | apps/api/src/customers_manager_hub/agents.py:386-429 | after publishing there is one published version, with the text of the draft |
| BusinessHours.NormalizeWindows | apps/api/src/customers_manager_hub/policy_runtime.py:112-139 | the parse and overlap loops of a day |
| BusinessHours.NormalizeBusinessHours | apps/api/src/customers_manager_hub/policy_runtime.py:102-142 | the loop over the weekdays |
| BusinessHours.AcceptedExactly | apps/api/src/customers_manager_hub/policy_runtime.py:112-137 | a day is accepted exactly when it has at most eight windows, each parses and no two share a minute |
| BusinessHours.NormalizedDay | apps/api/src/customers_manager_hub/policy_runtime.py:131-139 | an accepted day is sorted, disjoint and made of the configured windows |
| BusinessHours.OrderDoesNotMatter | apps/api/src/customers_manager_hub/policy_runtime.py:131-139 | neither acceptance nor result depends on the order of the windows |
| BusinessHours.NormalizeDayTwice | apps/api/src/customers_manager_hub/policy_runtime.py:177-189 | loading a stored day gives the same windows |
| BusinessHours.WeekAcceptedExactly | apps/api/src/customers_manager_hub/policy_runtime.py:102-111 | a week is accepted exactly when it names only weekdays and each day is accepted |
| BusinessHours.NormalizedTwice | apps/api/src/customers_manager_hub/policy_runtime.py:177-189 | loading a stored week gives what saving it accepted |
| BusinessHours.SameMinutes | apps/api/src/customers_manager_hub/policy_runtime.py:131-139 | normalised windows cover exactly the configured minutes |
| BusinessHours.WithinExactly | apps/api/src/customers_manager_hub/policy_runtime.py:264-279 | a minute is inside exactly when nothing is configured for any day or some configured window of the weekday contains it |
| ReplyRows.DeliverableExactly | apps/api/src/customers_manager_hub/agent_runtime.py:103-111 | a text is delivered unchanged exactly when it has 1 to 4096 characters, no NUL and no white space at its ends; validation accepts exactly the texts that strip to one |
| ReplyResume.ResolvesMeant | apps/api/src/customers_manager_hub/handoff_runtime.py:493-519 | a resolve succeeds exactly when a handoff is meant (the active one unless another person claimed it, or for a resume the last resolved), is about that one, and otherwise changes nothing |
| ReplyResume.ResolveWrites | apps/api/src/customers_manager_hub/handoff_runtime.py:509-566 | only the handoff is closed; with a resume its paused or pending source run waits again without lease or text and the answer is the newest event of its message, or none exactly when there is none |
| ReplyResume.ResumeQueuesAnswer | apps/api/src/customers_manager_hub/handoff_runtime.py:529-566 | a resume that wakes a run whose message came with an event always answers with an event of that message |
| ReplyResume.RequestsExactly | apps/api/src/customers_manager_hub/handoff_runtime.py:117-194 | a request answers with the active handoff and fills only an empty source, or opens a queued one |
| ReplyResume.ClaimsExactly | apps/api/src/customers_manager_hub/handoff_runtime.py:413-480 | a claim succeeds exactly on an active handoff that is queued or the claimant's; a release exactly on one that is claimed, by its claimant or with an override |
| ReplyColumns.StepWritesRun | apps/api/src/customers_manager_hub/agent_runtime.py:305-525 | every column of a run after any step, in terms of conditions that name no transaction: claim, renewal, stored text, completion, final and non-final release, guard pause, approval pause, resume |
| ReplyColumns.RetryableReleaseKeepsRest | apps/api/src/customers_manager_hub/agent_runtime.py:501-525 | a release that is not final takes the lease and leaves every other column of every table |
| ReplyColumns.TextLeavesExactly | apps/api/src/customers_manager_hub/agent_runtime.py:473-525 | a step takes the stored text of a run exactly when it completes the run, fails it or pauses it |
| ReplyColumns.TextArrivesExactly | apps/api/src/customers_manager_hub/agent_runtime.py:447-470 | a run gets a text exactly when the holder of its lease stores the one it validated |
| ReplyColumns.TextStaysExactly | apps/api/src/customers_manager_hub/agent_runtime.py:501-525 | over any run a stored text stays exactly until a completion, a final release or a pause, whatever else fails or crashes |
| ReplyColumns.NextHolderSendsSameText | apps/api/src/customers_manager_hub/agent_runtime.py:850-852 | after any such run whoever claims the run goes to the guard with the same text: the model is not asked again |
| ReplyColumns.FailedSend | apps/api/src/customers_manager_hub/agent_runtime.py:899-906 | a send refused for good fails the run; any other send error leaves it with its text, free for the next worker |
| ReplyColumns.FailedCommit | apps/api/src/customers_manager_hub/channel_runtime.py:563-587 | a send that is not committed is counted as lost and leaves the text; one that meets another text under its key fails the run |
| ReplyColumns.FailedGeneration | apps/api/src/customers_manager_hub/agent_runtime.py:825-848 | a final error or an answer that is no valid text fails the run; any other error frees it and leaves it pending |
| ReplyColumns.FailedLoad | apps/api/src/customers_manager_hub/agent_runtime.py:393-430 | a run whose prompt, channel or message is gone fails |
| ReplyColumns.LosersStop | apps/api/src/customers_manager_hub/agent_runtime.py:336-356 | a worker that finds its lease lost stops and writes nothing |
| ReplyColumns.PausedRunStep | apps/api/src/customers_manager_hub/handoff_runtime.py:529-552 | a step changes a paused run exactly when it resumes the handoff that names it as source |
| ReplyColumns.PauseNamesSource | apps/api/src/customers_manager_hub/handoff_runtime.py:302-337 | a pause leaves an active handoff whose source is the run, unless it had one already |
| ReplyColumns.OtherRunStaysPaused | apps/api/src/customers_manager_hub/handoff_runtime.py:529-552 | a run that the resolved handoff does not name stays paused, with no active handoff left in its conversation |
| ReplyIntake.FirstDeliveryStays | apps/api/src/customers_manager_hub/channel_runtime.py:142-326 | the first update of a message stores it word for word with its event, readable at every later time |
| ReplyIntake.LaterDelivery | apps/api/src/customers_manager_hub/channel_runtime.py:142-326 | a repeated update changes nothing, one without text leaves an ignored event, a second event of a message points to it, a key of another conversation is refused |
| ReplyIntake.EventAfterStep | apps/api/src/customers_manager_hub/channel_runtime.py:329-430 | the status of an event after any step: processed exactly when its account is active, its message there and no voice step fails |
| ReplyIntake.OnlyQuestionsAreAnswered | apps/api/src/customers_manager_hub/agent_runtime.py:219-247 | in every interleaving the message of a run is inbound, by a customer, not blank, and of the run's conversation and account |
| ReplyIntake.StartsExactly | apps/api/src/customers_manager_hub/agent_runtime.py:752-753 | a worker takes up an event exactly when no person has its conversation |
| ReplyIntake.InsertBinds | apps/api/src/customers_manager_hub/agent_runtime.py:241-302 | the run of a message is created once, with the channel and prompt of whoever comes first, and found by everybody else |
| ToolApprovals.AttemptsDecide | apps/api/src/customers_manager_hub/tool_runtime.py:944-1015 | the verdict is that of the first answer that may not be retried, or of the last attempt allowed |
| ToolApprovals.NewCallIsHeld | apps/api/src/customers_manager_hub/tool_runtime.py:865-913 | a new call that needs approval is put down and answered as such and a denied one with its reason, the adapter untouched; a failing policy puts nothing down |
| ToolApprovals.NewCallRuns | apps/api/src/customers_manager_hub/tool_runtime.py:932-1015 | a new call that needs no approval is made at once; calls, row and reply are those of the answer that counts |
| ToolApprovals.RunningCall | apps/api/src/customers_manager_hub/tool_runtime.py:915-937 | a running call is left alone for the larger of a minute and its whole allowance, then made again |
| ToolApprovals.JudgedCall | apps/api/src/customers_manager_hub/tools.py:664-696 | after a yes the next request is made, after a no every later one is answered denied |
| ToolApprovals.ApprovalOverHistory | apps/api/src/customers_manager_hub/tools.py:684-696 | over any history only the first judgement of a row changes its approval |
| ToolApprovals.CalledOnlyOnceApproved | apps/api/src/customers_manager_hub/tool_runtime.py:865-937 | over any history after a call is put down the adapter is called for it only if the policy asked for no approval, or the first judgement said yes |
| ToolApprovals.CallHasCause | apps/api/src/customers_manager_hub/tool_runtime.py:865-937 | every adapter call of every history goes back to a decision of the loop that the policy allowed, and if it asked for approval to a yes given after the call was put down |
| ToolApprovals.RefusedRequest | apps/api/src/customers_manager_hub/tool_runtime.py:867-871 | a call number out of range or a request not permitted changes nothing |
| ToolApprovals.LoopEndsExactly | apps/api/src/customers_manager_hub/agent_runtime.py:666-738 | the outcome of the loop is that of the first round that does not let it go on; the limit is reported exactly when three calls go on and a fourth is asked for |
| AiGatewayTheorems.ExecutesExactly | apps/api/src/customers_manager_hub/ai_gateway.py:347-459 | a whole execution answers exactly when a try reached from the first route succeeds; its error is retryable exactly when nothing stopped the search and some reached try failed so; both refusals before the search are final |
| Charges.ChargeCovers | apps/api/src/customers_manager_hub/billing_runtime.py:45-55 | the charge is the least number of Rial that covers tokens by the million and audio by the minute |
| Ledger.DebitsExactly | apps/api/src/customers_manager_hub/billing_runtime.py:80-132 | a debit is made exactly for a succeeded, priced trace that has none and whose tenant has a wallet; its entry and the new balance |
| Ledger.DueIsPaidOnce | apps/api/src/customers_manager_hub/billing_runtime.py:80-132 | a due trace has exactly one debit, of the charge in force, at every later time |
| Ledger.LetThroughExactly | apps/api/src/customers_manager_hub/billing_runtime.py:62-78 | a call is let through exactly with a positive balance, or without a price when none is required |
| GatewayBilling.AnsweringRouteIsCharged | apps/api/src/customers_manager_hub/ai_gateway.py:474-512 | the debit is for the provider and model of the route whose reached try answered |
| Whitespace.SpaceExactly | apps/api/src/customers_manager_hub/knowledge_parsing.py:53-55 | the characters that a strip removes, one by one |
| Decimals.DigitsStandFor | apps/api/src/customers_manager_hub/knowledge_parsing.py:201 | the digits written for a row number stand for it |
| TextConservation.NormalizeKeepsOutline | apps/api/src/customers_manager_hub/knowledge_parsing.py:50-55 | normalising keeps every line with text, in order, and of each every character that is neither white space nor NUL |
| TextConservation.WorkbookIsKept | apps/api/src/customers_manager_hub/knowledge_parsing.py:164-217 | the units of a workbook have the lines of its rows, each with its number and all its cells: nothing is lost, moved or made up |
| Chunker.CutsAtBest | apps/api/src/customers_manager_hub/knowledge_parsing.py:228-236 | a window that is not the last is cut after its last paragraph break past the half, else line break, else full stop, else space, else at 1200 |
| Chunker.ChunksQuoteUnits | apps/api/src/customers_manager_hub/knowledge_parsing.py:239-258 | every chunk names its unit and is a stripped piece of that unit's text of at most 1200 characters |
| Chunker.ChunkedExactly | apps/api/src/customers_manager_hub/knowledge_parsing.py:252-261 | refused without a chunk or with more than 512 |
| SheetPacker.UnitsNameSheet | apps/api/src/customers_manager_hub/knowledge_parsing.py:168 | every unit names its sheet by at most 200 characters |
| SheetPacker.AcceptedExactly | apps/api/src/customers_manager_hub/knowledge_parsing.py:58-63 | accepted exactly when some row has text and neither rows nor units pass two million characters |
| ContextPacker.RecentAreLatest | apps/api/src/customers_manager_hub/agent_runtime.py:157-173 | the history is made of the latest messages with a text other than the current one, none passed over |
| ContextPacker.TurnsSpeak | apps/api/src/customers_manager_hub/agent_runtime.py:178-184 | every turn that is not blank has its line: who said it and its first 4000 characters |
| ContextPacker.ReversedAt | apps/api/src/customers_manager_hub/agent_runtime.py:197 | the history is shown oldest first |
| ContextPacker.AllThatFitsIsChosen | apps/api/src/customers_manager_hub/agent_runtime.py:177-195 | when everything fits, everything is chosen |
| ContextPacker.TrustedAreFirst | apps/api/src/customers_manager_hub/memory_runtime.py:432-456 | the memory shown is made of the first live items that are verified or facts of enough confidence, none passed over |
| ContextPacker.LabelsTell | apps/api/src/customers_manager_hub/memory_runtime.py:464-471 | the label of a line says whether a person verified it and whether it is an inference |
| ContextPacker.EvidenceIsNearest | apps/api/src/customers_manager_hub/knowledge_runtime.py:397-445 | the evidence is made of the nearest usable rows, none passed over |
| ContextPacker.BlockQuotes | apps/api/src/customers_manager_hub/knowledge_runtime.py:412-415 | block k is marked with its place and quotes source and content |
| MemoryKeys.RunKeepsNoneTwice | apps/api/src/customers_manager_hub/memory_runtime.py:122-126 | over any run a contact has at most one language, one level of detail and one stage, and never two active items of another category with the same value |
| MemoryKeys.RunRemembers | apps/api/src/customers_manager_hub/memory_runtime.py:339-386 | whatever a message of a run says is in memory at the end: an active item of its category, and of that very value where there may be several |
| MemoryKeys.ItemWasSaid | apps/api/src/customers_manager_hub/memory_runtime.py:352-385 | an item was there from the start or repeats a candidate of a message of the run, from the time of the message until its days are over |
| MemoryKeys.WritesFree | apps/api/src/customers_manager_hub/memory_runtime.py:339-386 | an extraction writes exactly the candidates whose place was free before the message |
| MemoryKeys.VerifiedExactly | apps/api/src/customers_manager_hub/memory_runtime.py:355-372 | an item stays verified exactly when it says the same with the same kind of evidence |
| JobQueueTheorems.JobsCarryTheirEvents | apps/api/src/customers_manager_hub/channel_queue.py:142-179 | over any history a job names the event enqueued under its entry, and a dead letter says what is wrong with it |
| JobQueueTheorems.FreshAreOldest | apps/api/src/customers_manager_hub/channel_queue.py:67-86 | reading takes the oldest entries never delivered, up to the count |
| JobQueueTheorems.StaleAreOldest | apps/api/src/customers_manager_hub/channel_queue.py:88-104 | claiming takes the oldest idle pending entries, up to the count, and no others |
| KnowledgeIndex.FirstUnsoundDecides | apps/api/src/customers_manager_hub/knowledge_runtime.py:83-89 | the first vector that is empty, not finite or zero decides the error, which is final |
| KnowledgeIndex.ObjectionExactly | apps/api/src/customers_manager_hub/knowledge_runtime.py:145-179 | what is wrong with an answer, in the order of the checks, and whether another try may help |
| KnowledgeIndex.BatchFitsExactly | apps/api/src/customers_manager_hub/knowledge_runtime.py:145-179 | a batch of at most 64 is taken exactly with one sound vector for each chunk, of the dimension, provider and model of the first |
| IndexRuns.StartsExactly | apps/api/src/customers_manager_hub/knowledge_runtime.py:92-120 | a worker starts exactly on a queued source, or on one processing for more than fifteen minutes |
| IndexRuns.ClaimIsFresh | apps/api/src/customers_manager_hub/knowledge_runtime.py:109-120 | a claim of a queued source starts its fifteen minutes |
| IndexRuns.FreshClaimExcludes | apps/api/src/customers_manager_hub/knowledge_runtime.py:105-108 | while a claim is fresh any other is refused as busy and changes nothing |
| IndexRuns.ClaimExcludes | apps/api/src/customers_manager_hub/knowledge_runtime.py:105-108 | for fifteen minutes and as long as nobody finishes, no other worker starts after a claim, over any run |
| IndexRuns.GiveUpTells | apps/api/src/customers_manager_hub/knowledge_runtime.py:123-142 | a failure leaves its reason; the source waits again exactly when it may be retried |
| IndexRuns.ReindexKeepsRows | apps/api/src/customers_manager_hub/knowledge.py:507-529 | a reindex is refused while processing and otherwise keeps rows, count and signature |
| PromptHistory.EditIs | apps/api/src/customers_manager_hub/agents.py:336-383 | an edit leaves one draft with the given text, the last version, and every other version as it was |
| PromptHistory.LastEditIsPublished | apps/api/src/customers_manager_hub/agents.py:386-429 | what is published is the text edited last |
| BusinessHours.ClockExactly | apps/api/src/customers_manager_hub/policy_runtime.py:89-99 | a time is read as a minute exactly when it is that minute's HH:MM |
| BusinessHours.DayAcceptedByClock | apps/api/src/customers_manager_hub/policy_runtime.py:112-137 | a day is accepted exactly with at most eight windows from a time to a later one, no two of which share a minute |
| BusinessHours.WithinByClock | apps/api/src/customers_manager_hub/policy_runtime.py:264-279 | a minute is inside exactly when nothing is configured, or a window of its weekday runs from it or earlier to later |

## Left out

- Tenants: every key and constraint of the source is per tenant, so the model is of one tenant.
- A conversation is identified with the channel thread it is bound to, and row ids with positions in creation order.
- Columns that no modelled decision reads (run and event error codes, handoff reason and tool execution id, audit rows,
  message types, attachments, last_message_at) are not modelled.
- Missing rows that foreign keys rule out, and their errors, are left out.
- PersistInboundEvent: errors while the contact and the channel binding are resolved abort the transaction and are not
  modelled; a disabled capability is an update without text, and a voice message without text has the empty one.
- Each database transaction is one step. Lock ordering and deadlocks are not modelled.
- A channel send succeeds or fails with no effect; what HTTP, storage, parsers, models and adapters return is an input.
- Policy decisions about messages and tools, request validation, CRUD routes, sums and rates of analytics, encryption,
  sessions, rate limits and network checks would only add easy members or belong to libraries.
- ToolStore: callers of one tool execution are sequential; the stale reset and the finish re-check nothing, so settled
  rows are not final under races. An exception after the row is marked running leaves it running.
- LimitIsFourthCall: says what the loop limit implies; when it is reported exactly is LoopEndsExactly.
- Execute: exceptions other than provider and billing errors leave the loop at once and are not modelled; recording a
  trace always succeeds; a charge that fails because the wallet is missing is an error of the
  ledger alone. Attempts per route are at least one, as the database constraint says.
- ChargeIsMonotone: with audio it is about real arithmetic, not the rounded quotient of the source.
- ChargeIsExactCeiling: is about a use without audio, where the decimal arithmetic of the source is exact.
- ChargeCovers: with audio it is about real arithmetic in place of 28 decimal digits, because dividing audio seconds by 60
  is inexact in the source.
- Ledger: one price list goes with each charge; trace rows themselves are not stored.
- MemoryMerge: case folding and the digest of a folded value are inputs, the digest without collisions; edits by people
  are not part of a run; an extraction is one transaction, so the rollback after a concurrent insert is not modelled;
  what the model answers for a message is fixed.
- JobQueue: adding an entry and its counter is one step, and so is every other operation; which entries are idle is an
  input. The knowledge queue differs only in its names.
- KnowledgeIndex: one source, so chunk rows of other sources are never touched; download and parser failures are failed
  embeddings.
- SheetPacker: workbook and archive checks, and the conversion of a cell to text, come before the model. PDF pages are
  left out.
- BuildConversationInput: the stored messages come newest first, as the query orders them.
- BuildMemoryContext: the stored items come in the order of the query.
- PackKnowledge: which chunks are nearest is an input.
- NormalizeWindows: only ASCII digits are times; the source also accepts other decimal digits.
- NormalizeBusinessHours: inherits that restriction.
- WithinExactly: the local weekday and minute of an instant are inputs.
