# Lary: models and proofs

Lary is a NestJS backend for a shop assistant: stores connect their Salla catalogue, shoppers chat with an assistant that
calls tools, and plans limit what a store may use.  This project models the parts of it that hold protocols, state
machines and algorithms, and proves what they promise.

Check everything with `dafny verify dfyconfig.toml`.

## What is modelled

**Message processing.**  `IdempotencyRecords` and `MessageHandler` are the record store, its service and the handler as
classes.  `DeliveryProtocol` is the same code as a transition system in which every database command is one step, so
that any number of workers interleave between insert, read, reclaim, delete, commit, retry publication and release.
`ClaimTakeover` proves that a dead worker's message is taken over.  `DeliverySafety` proves at most one commit per
message when workers act in time, and `DeliveryLosses` exactly how often a message commits when they do not.  `DeliveryConservation` proves that no message is lost or multiplied and that each comes
to its end, and `ConservationExact` that this holds exactly for crash-free runs.  `DeliveryHazards` and
`ConservationHazards` give the runs that break these once an assumption is dropped.
`MessageHandler.SoloDelivery` ties the two views together.  `Topology`, `RetryNaming`, `TopicKeys`,
`TopologyContents`, `TopologyRouting`, `RetryBudget` and `ShippedTopology` cover the generated exchanges and queues, with the exchange kinds of section 3.1.3 of AMQP 0-9-1 and
RabbitMQ's per-queue TTL and dead-letter exchanges.

**Token refresh.**  `TokenRefresh` is the lock protocol for any number of processes; `TokenService` is the service's
methods, tied to it.  A token pair is its generation number; exchanging it (section 6 of RFC 6749) makes a new one.

**Chat.**  `ChatMessages` defines turns.  `ChatGeneration` is the tool loop, `GeminiContents` and `GeminiPairing` the
mapper and the pairing rule, `GeminiTexts` what the entries say,
`ConversationContext` and `ConversationStore` the trimming and the session,
`ChatSummary` the summariser and `ChatSummaryRuns` its overlapping jobs, `ChatService` the turn as a whole,
`ChatArchive`, `ChatArchiveProtocol` and `ChatRetention` the archive, and `ArchiveDelivery` the archive and the delivery
protocol run together.

**Catalogue.**  `Catalogue` and `CatalogueSync` are the rows and the paged full sync; `VariantChoice`,
`SearchWords` and `ProductSearch` the index row, the variant choice, its words and the cards.

**Plans.**  `Subscriptions`, `SubscriptionOrder` and `SubscriptionWebhook` are the ordered event register, and
`SubscriptionAccess` what each event leaves; `UsageMeter` and `UsageQuota` the allowance check and the counter.

**Logging.**  `SlackThrottle` and `SlackCooldown` are the bounded cooldown cache.

`Options`, `Sequences` and `Whitespace` hold what the others share.

## Assumptions

The headline results hold under these assumptions, each a predicate, a `requires` or part of the model's shape.  For the
first five the model also has the exact statement without the assumption, and a concrete run that breaks the result.

- A worker completes, fails or releases a message within five minutes of its claim, and a record read as FAILED is still
  FAILED, or gone, when it is deleted on the way back (`DeliverySafety.Timely`).  Reading, deleting and inserting in one
  step would give the second; deleting and inserting in one step is not enough, as
  `DeliveryHazards.InterleavedReentriesCommitTwice` shows.  Exactly: `DeliveryLosses`.
- For conservation: no worker crashes, the delete after a published retry succeeds and is done before the retry's delay
  ends, and message ids are published once (`DeliveryConservation.CrashFree`).  Exactly: `ConservationExact`.
- Refresh critical sections are shorter than the lock's TTL (`TokenRefresh.Timely`): the lock is released without an
  owner check.  Exactly: `TokenRefresh.RunIsSafeExactly`.  Storing the new pair succeeds, a process does not die between
  exchange and store, and a failed provider call did not exchange the token.
- Summarise jobs run one at a time (`ChatSummaryRuns.Serial`).  Exactly: `ChatSummaryRuns.RunIsExactlyGuarded`.
- Index rows are in sync with the stored products (`ProductSearch.InSync`): hiding does not update the index.  Exactly:
  `ProductSearch.HitsAfterHidingExactly`.
- A turn reads session, summary and cursor as one snapshot; nothing expires in Redis and no cache error is swallowed.
- No other writer changes the catalogue during a full sync, and its clock does not go back.
- For the quota: one fixed period that contains every check, and no row of another period inside it.
- For the cooldown: the clock is positive and never goes back, and no cooldown window sees more different messages than
  the cache holds.  Exactly: `SlackCooldown.CannotRepeatExactly`.
- For routing: domain, exchange, event, routing-key and queue names are distinct, keys hold no wildcards, and no domain
  exchange is named like a retry exchange or the shared dead-letter exchange (`TopologyContents.WellFormed`).

A repeated full sync counts products it already has on top of the existing usage: it stays within the limit but is not
idempotent.

## Model

| member | source | states |
|---|---|---|
| `DeliverySafety.AtMostOneCommit` | src/infrastructure/rabbitmq/rabbitmq.message-handler.ts:27-54 | Over every timely run of any number of workers, duplicate deliveries, retry copies and crashes, a message id has at most one committed handler transaction, and one exactly when its record says COMPLETED |
| `DeliverySafety.CompletedForever` | src/infrastructure/rabbitmq/idempotency/message-idempotency.service.ts:13-46 | In a timely run a COMPLETED record never changes again, however the run goes on |
| `DeliverySafety.OneLiveOwner` | src/infrastructure/rabbitmq/idempotency/message-idempotency.service.ts:13-34 | At most one worker within its five-minute claim owns a message, and the record is then PROCESSING with that worker's start time |
| `DeliverySafety.StepKeepsInv` | src/infrastructure/rabbitmq/rabbitmq.message-handler.ts:27-149 | Every database step of every worker, in any interleaving, keeps the ownership invariant behind the three results above |
| `DeliverySafety.CompletedLostExactly` | src/infrastructure/rabbitmq/idempotency/message-idempotency.repository.ts:83-85 | Without any timing assumption, a step changes a COMPLETED record if and only if it is an unconditional delete of that id |
| `DeliveryLosses.CommitsCounted` | src/infrastructure/rabbitmq/rabbitmq.message-handler.ts:27-149 | In every run, timely or not, a message has committed exactly as often as its COMPLETED record was deleted, and once more if it is COMPLETED now |
| `DeliveryLosses.AtMostOneCommitExactly` | src/infrastructure/rabbitmq/idempotency/message-idempotency.repository.ts:83-85 | A message committed at most once if and only if no COMPLETED record of it was deleted, or one was and no commit has followed |
| `DeliveryLosses.CommitRepeatsExactly` | src/infrastructure/rabbitmq/rabbitmq.message-handler.ts:41-50 | At any commit of any run, the message had committed before if and only if its COMPLETED record was deleted in between |
| `DeliveryLosses.CompletedKeptExactly` | src/infrastructure/rabbitmq/idempotency/message-idempotency.repository.ts:83-85 | Between two moments of any run a COMPLETED record stayed unchanged throughout if and only if no step deleted it |
| `DeliveryLosses.TimelyRunsLoseNothing` | src/infrastructure/rabbitmq/idempotency/message-idempotency.service.ts:44-46 | Timely runs delete no COMPLETED record |
| `DeliveryHazards.StaleReleaseCommitsTwice` | src/infrastructure/rabbitmq/rabbitmq.message-handler.ts:124-134 | A concrete run in which a worker outlives its claim and its release deletes the COMPLETED record: the message commits twice |
| `DeliveryHazards.InterleavedReentriesCommitTwice` | src/infrastructure/rabbitmq/idempotency/message-idempotency.service.ts:26-29 | A concrete run, with no stale claim and with every delete of a FAILED record followed at once by its insert, in which two re-entries interleave and the message commits twice |
| `ConservationExact.StepConservesExactly` | src/infrastructure/rabbitmq/rabbitmq.message-handler.ts:81-149 | From a conserved state, a step about a message keeps it conserved if and only if the step is crash-free: a first publication, no crash, a release that succeeds, an expiry after the release |
| `ConservationExact.RunConservesExactly` | src/infrastructure/rabbitmq/rabbitmq.message-handler.ts:81-149 | A run conserves every message at every moment if and only if all its steps are crash-free |
| `ConservationHazards.CrashLosesMessage` | src/infrastructure/rabbitmq/idempotency/message-idempotency.service.ts:31-33 | A run whose first step that is not crash-free is a crash: an early redelivery then leaves no copy of the message anywhere |
| `ConservationHazards.EarlyRetryIsLost` | src/infrastructure/rabbitmq/idempotency/message-idempotency.service.ts:31-33 | A run whose first such step is a retry that comes back before the release: it is acked, and the release then deletes the last trace of the message |
| `ConservationHazards.FailedReleaseDuplicates` | src/infrastructure/rabbitmq/rabbitmq.message-handler.ts:124-147 | A run whose first such step is a failed delete after a published retry: the message is both dead-lettered and waiting in the retry queue |
| `ConservationHazards.SecondPublicationIsIgnored` | src/infrastructure/rabbitmq/idempotency/message-idempotency.service.ts:18-33 | A run whose first such step is a second publication of the id: its copy is acked as a duplicate |
| `DeliveryConservation.EachMessageInOnePlace` | src/infrastructure/rabbitmq/rabbitmq.message-handler.ts:81-149 | In every crash-free run a published message is held in exactly one of its queue, a worker, a retry queue, COMPLETED or its DLQ, its record agrees with that place, and its handler ran at most one plus the number of delays times |
| `DeliveryConservation.StepConserves` | src/infrastructure/rabbitmq/rabbitmq.message-handler.ts:110-149 | Every step of every worker keeps that conservation, for every message |
| `DeliveryConservation.ActionLeavesLess` | src/infrastructure/rabbitmq/rabbitmq.message-handler.ts:110-149 | Every step other than publishing or the clock strictly lowers the work left, a measure over all copies |
| `DeliveryConservation.CrashFreeRunsAreBounded` | src/infrastructure/rabbitmq/retry/rabbitmq-retry.policy.ts:17-38 | The number of steps of any crash-free run is bounded by what was published, so no message retries for ever |
| `DeliveryConservation.UnfinishedMessageCanMove` | src/infrastructure/rabbitmq/rabbitmq.message-handler.ts:27-54 | Unless a message is COMPLETED or FAILED some step for it is enabled; with the bound it reaches one of the two |
| `IdempotencyRecords.MessageIdempotencyRepository.CreateProcessing` | src/infrastructure/rabbitmq/idempotency/message-idempotency.repository.ts:18-37 | The unique insert: succeeds exactly when the id has no record |
| `IdempotencyRecords.MessageIdempotencyRepository.ReclaimStaleProcessing` | src/infrastructure/rabbitmq/idempotency/message-idempotency.repository.ts:43-54 | The conditional reclaim: succeeds exactly on a PROCESSING record started before the bound, and renews its start time |
| `IdempotencyRecords.MessageIdempotencyRepository.MarkAsCompleted` | src/infrastructure/rabbitmq/idempotency/message-idempotency.repository.ts:56-66 | Completes a PROCESSING record or fails without a change |
| `IdempotencyRecords.MessageIdempotencyRepository.MarkAsFailed` | src/infrastructure/rabbitmq/idempotency/message-idempotency.repository.ts:68-81 | Fails a PROCESSING record and leaves any other alone |
| `IdempotencyRecords.MessageIdempotencyRepository.DeleteByMessageId` | src/infrastructure/rabbitmq/idempotency/message-idempotency.repository.ts:83-85 | The unconditional delete, of this id only |
| `IdempotencyRecords.MessageIdempotencyService.StartProcessing` | src/infrastructure/rabbitmq/idempotency/message-idempotency.service.ts:13-34 | An absent or FAILED record is claimed, a COMPLETED one is not, and a PROCESSING one if and only if it was started more than 300000 ms before it is read; a claim leaves a PROCESSING record with the time of the write that made it, a refusal changes nothing |
| `ClaimTakeover.TakenOverExactly` | src/infrastructure/rabbitmq/idempotency/message-idempotency.service.ts:31-33 | At any point of any run a delivery that meets a PROCESSING record, with no other step between its steps, ends holding a fresh claim if and only if the old one is more than 300000 ms old when read, and is acked without a change otherwise |
| `ClaimTakeover.DeadClaimRecovers` | src/infrastructure/rabbitmq/idempotency/message-idempotency.service.ts:31-33 | A message whose worker died holding the claim can still commit: a redelivery after five minutes takes it over |
| `IdempotencyRecords.MessageIdempotencyService.MarkCompleted` | src/infrastructure/rabbitmq/idempotency/message-idempotency.service.ts:36-38 | Completes the claimed record |
| `IdempotencyRecords.MessageIdempotencyService.MarkFailed` | src/infrastructure/rabbitmq/idempotency/message-idempotency.service.ts:40-42 | Marks the claimed record failed |
| `IdempotencyRecords.MessageIdempotencyService.ReleaseForRetry` | src/infrastructure/rabbitmq/idempotency/message-idempotency.service.ts:44-46 | Removes the record, so that the retry copy can claim it |
| `MessageHandler.RabbitMqMessageHandler.Execute` | src/infrastructure/rabbitmq/rabbitmq.message-handler.ts:27-54 | One delivery: what it leaves of the records, committed effects and scheduled retries, and its answer, for every outcome of the handler, the retry publication and the release |
| `MessageHandler.RabbitMqMessageHandler.ExecuteWithoutTransaction` | src/infrastructure/rabbitmq/rabbitmq.message-handler.ts:56-79 | The same for the variant without a transaction, whose effects stay outside the record's update |
| `MessageHandler.RabbitMqMessageHandler.HandleProcessingError` | src/infrastructure/rabbitmq/rabbitmq.message-handler.ts:81-108 | Non-retryable errors are nacked and marked failed; all others go to the retry policy |
| `MessageHandler.RabbitMqMessageHandler.HandleRetryableError` | src/infrastructure/rabbitmq/rabbitmq.message-handler.ts:110-149 | Publishes the next attempt and releases, or marks failed and nacks when attempts are used up or publishing or releasing fails |
| `MessageHandler.SoloDelivery` | src/infrastructure/rabbitmq/rabbitmq.message-handler.ts:27-149 | The interleaving model refines the handler: the row of protocol steps that the delivery's record and environment fix is enabled throughout and leaves exactly what `Execute` promises |
| `MessageHandler.ClaimedDeliveryEnds` | src/infrastructure/rabbitmq/rabbitmq.message-handler.ts:81-149 | What a delivery that claims the message leaves and answers, for each way the handler can end: an unknown error is retried like a retryable one, a non-retryable one never |
| `RetryNaming.RetryNameInjective` | src/infrastructure/rabbitmq/rabbitmq.topology.ts:39 | `domain.retry.delay` names of different domains or delays differ |
| `Topology.BuildRabbitMqTopology` | src/infrastructure/rabbitmq/rabbitmq.topology.ts:30-86 | The nested loops build the exchanges, queues and event index of the declarative topology, in order |
| `TopologyRouting.RetryReturnsToItsQueue` | src/infrastructure/rabbitmq/retry/rabbitmq-retry.policy.ts:17-38 | For every well-formed domain list: the retry exchange `decide` names is declared, routes to one queue with the chosen delay as its TTL, and a message expiring there reaches exactly its event's queue; each is the only queue of its name |
| `TopologyRouting.NackReachesItsDlq` | src/infrastructure/rabbitmq/rabbitmq.topology.ts:54-73 | A message nacked from an event's queue reaches exactly that queue's `.dlq` |
| `TopologyContents.OnlyRetryQueuesExpire` | src/infrastructure/rabbitmq/rabbitmq.topology.ts:42-73 | Of all declared queues only the retry queues expire messages |
| `TopologyContents.MessagesAreKept` | src/infrastructure/rabbitmq/rabbitmq.topology.ts:57-73 | An event's queue keeps messages until delivered, and its `.dlq` for good, passing nothing on |
| `RetryBudget.UnknownEventsAreNotRetried` | src/infrastructure/rabbitmq/retry/rabbitmq-retry.policy.ts:18-21 | An event that is not configured goes to the dead letter at once |
| `RetryBudget.DecideForConfiguredEvent` | src/infrastructure/rabbitmq/retry/rabbitmq-retry.policy.ts:17-38 | A configured event gets one retry per configured delay, in order, then the dead letter |
| `TopologyRouting.DomainExchangeReaches` | src/infrastructure/rabbitmq/rabbitmq.topology.ts:36-66 | A configured routing key published to its domain's topic exchange reaches its own queue alone |
| `TopologyRouting.DeadLetterExchangeReaches` | src/infrastructure/rabbitmq/rabbitmq.topology.ts:54-73 | The shared dead-letter exchange keeps the events apart |
| `TopologyRouting.RetryExchangeReaches` | src/infrastructure/rabbitmq/rabbitmq.topology.ts:38-52 | A retry exchange reaches its own waiting queue alone, whatever the key |
| `TopologyContents.EventIsRouted` | src/infrastructure/rabbitmq/rabbitmq.topology.ts:75-81 | Every configured event is found in the index with its own route |
| `TopologyContents.NamesIdentifyQueues` | src/infrastructure/rabbitmq/rabbitmq.topology.ts:42-73 | With distinct queue names, no two different declared queues share a name, retry and dead-letter queues included |
| `ShippedTopology.ShippedDomainsAreWellFormed` | src/infrastructure/rabbitmq/rabbitmq.domains.config.ts:19-59 | The shipped configuration meets the conditions of the routing results |
| `TokenRefresh.OneRefreshAtATime` | src/modules/integrations/salla/services/salla-token.service.ts:102-208 | For any number of processes, when critical sections end before the lock's TTL, at most one is inside the refresh |
| `TokenRefresh.ExchangedTokenNeverPresented` | src/modules/integrations/salla/services/salla-token.service.ts:170-208 | In such runs no refresh token the server has exchanged is presented again, and none is exchanged twice |
| `TokenRefresh.LosersPollBoundedly` | src/modules/integrations/salla/services/salla-token.service.ts:119-146 | In every run, whatever the timing, a process that lost the lock polls at most 150 times |
| `TokenRefresh.StepIsSafeExactly` | src/modules/integrations/salla/services/salla-token.service.ts:170-208 | A step leaves no exchanged token presented, nor one exchange away from it, if and only if it is not a reload that decides to present while another process is between its reload and its store |
| `TokenRefresh.RunIsSafeExactly` | src/modules/integrations/salla/services/salla-token.service.ts:170-208 | Timing aside, that holds at every moment of a run if and only if every reload that decided to present was alone |
| `TokenRefresh.TimelyRunsAreAlone` | src/modules/integrations/salla/services/salla-token.service.ts:102-117 | Critical sections shorter than the lock's TTL make every such reload alone |
| `TokenRefresh.GivenTokensAreFresh` | src/modules/integrations/salla/services/salla-token.service.ts:84-100 | In every run, a step that gives a process a token without an exchange read one whose expiry lies beyond the clock and the window |
| `TokenRefresh.FreshTokensAreGiven` | src/modules/integrations/salla/services/salla-token.service.ts:131-178 | The caller's check, each poll, the reload and the recheck give out the token they read if and only if its expiry lies beyond the clock and the window |
| `TokenRefresh.PresentersFoundExpiring` | src/modules/integrations/salla/services/salla-token.service.ts:175-186 | A process comes to present a refresh token only when the stored access token does not outlast the window |
| `TokenRefresh.StepKeepsTokens` | src/modules/integrations/salla/services/salla-token.service.ts:170-208 | Every alone step keeps: one presenter or storer, what is presented is the stored token, and the stored token is used up exactly while its successor waits to be stored |
| `TokenRefresh.SlowHolderReusesTheToken` | src/modules/integrations/salla/services/salla-token.service.ts:112-116 | A concrete run in which a holder outlives the TTL and a second process presents an exchanged token |
| `TokenService.PollForFreshTokens` | src/modules/integrations/salla/services/salla-token.service.ts:119-146 | The polling loop stops at the first turn that finds a fresh token, with that token, or finds the lock gone, and else at the deadline, after at most 150 turns |
| `TokenService.SallaTokenService.PerformRefresh` | src/modules/integrations/salla/services/salla-token.service.ts:170-208 | A stored token is answered if and only if its expiry lies beyond now and the refresh window; any other is exchanged when the provider accepts, and replaced |
| `TokenService.SallaTokenService.HandleConcurrentLock` | src/modules/integrations/salla/services/salla-token.service.ts:119-168 | The loser's whole path: polling, then exactly the protocol's reload, second lock attempt, and refresh or refusal, from whatever state the others left |
| `TokenService.SallaTokenService.RefreshAccessToken` | src/modules/integrations/salla/services/salla-token.service.ts:102-117 | The winner's path is exactly the protocol's acquire, recheck, present, store and release in a row; a taken lock or a dead cache leads to the loser's |
| `TokenService.SallaTokenService.GetValidAccessToken` | src/modules/integrations/salla/services/salla-token.service.ts:84-100 | A document whose expiry lies beyond now and the refresh window is used without a change; any other is refreshed under a free lock, and otherwise ends with a token that outlasted the window when a poll or the reload read it, a refusal, or a refresh from what the others left |
| `TokenService.WinnerLeads` | src/modules/integrations/salla/services/salla-token.service.ts:102-117 | The winner's row of protocol steps is enabled step by step and ends in the stated state, for every reply of the provider |
| `TokenService.LoserLeads` | src/modules/integrations/salla/services/salla-token.service.ts:148-167 | So is the loser's row after the polling loop, for every state it finds and whether or not the cache answers |
| `ChatSummaryRuns.StepIsExactlyGuarded` | src/modules/chat/queues/consumers/chat-summary.consumer.ts:36-91 | With jobs overlapping in any way, a step keeps the summarised batches exactly the messages below the cursor if and only if a job that writes finds the cursor it read |
| `ChatSummaryRuns.RunIsExactlyGuarded` | src/modules/chat/queues/consumers/chat-summary.consumer.ts:36-91 | Over a whole run the messages below the cursor were summarised once each and in order, at every moment, if and only if every write met that guard |
| `ChatSummaryRuns.RequestedCountCanBegin` | src/modules/chat/chat.service.ts:98-112 | The length an append of a turn returned can be asked for at any later time of the run |
| `ChatSummaryRuns.BeginReads` | src/modules/chat/queues/consumers/chat-summary.consumer.ts:43-60 | A job for such a length reads exactly what lies between the cursor of that moment and the length |
| `ChatSummaryRuns.GuardedCursorNeverDecreases` | src/modules/chat/queues/consumers/chat-summary.consumer.ts:78-80 | In runs that meet the guard the cursor never goes back |
| `ChatSummaryRuns.SummarisedExactlyBelowCursor` | src/modules/chat/queues/consumers/chat-summary.consumer.ts:36-91 | With jobs handled one at a time, in any order and with duplicates and failures, the cursor is a turn boundary inside the session and the successful summarise calls were given exactly the messages below it, each once and in order |
| `ChatSummaryRuns.CursorNeverDecreases` | src/modules/chat/queues/consumers/chat-summary.consumer.ts:48-53 | The cursor never goes back in such runs |
| `ChatSummaryRuns.OverlappingJobsMoveTheCursorBack` | src/modules/chat/queues/consumers/chat-summary.consumer.ts:78-86 | A concrete run in which two overlapping jobs move the cursor back |
| `ChatSummary.ChatSummaryConsumer.ProcessSummarize` | src/modules/chat/queues/consumers/chat-summary.consumer.ts:36-91 | One job for any total: no change at or below the cursor, on an empty slice or when the summariser fails; otherwise the slice between is summarised and the cursor moves to the total, a boundary when the total is one |
| `ConversationContext.GetPromptHistory` | src/modules/chat/services/conversation-context.service.ts:7-16 | The longest suffix of at most the given length that starts with a user message |
| `ConversationContext.RemoveIncompleteToolContext` | src/modules/chat/services/conversation-context.service.ts:18-30 | The two shifting loops drop exactly what precedes the first user message |
| `ConversationContext.PromptHistoryIsWholeTurns` | src/modules/chat/services/conversation-context.service.ts:7-30 | In a session of whole turns the prompt history starts at the first turn boundary past the cursor from which at most the given number of messages follow |
| `ConversationContext.LongestFromUserIsUnique` | src/modules/chat/services/conversation-context.service.ts:7-30 | There is only one such suffix |
| `ConversationContext.CoversWithoutGapExactly` | src/modules/chat/chat.service.ts:43-52 | The summarised prefix and the prompt history cover the session with no gap or overlap if and only if no more messages than the ceiling lie past the cursor |
| `ConversationContext.FromFirstUserIsSuffix` | src/modules/chat/services/conversation-context.service.ts:18-30 | Nothing that starts with a user message is dropped |
| `ConversationStore.ConversationStore.GetHistory` | src/modules/chat/services/conversation-store.ts:17-28 | The list slice with both ends included and negative ends counted from the back |
| `ConversationStore.RangeMeans` | src/modules/chat/services/conversation-store.ts:17-28 | The slice as far as the list goes, both ends included, with -1 the last element |
| `ConversationStore.ConversationStore.AppendMessages` | src/modules/chat/services/conversation-store.ts:30-42 | Appends atomically and answers the new length; appending a whole turn keeps the session whole turns and the cursor a boundary |
| `ConversationStore.ConversationStore.SetLastSummarizedCount` | src/modules/chat/services/conversation-store.ts:68-78 | Moves the cursor, and keeps it a turn boundary when given one |
| `ConversationStore.ConversationStore.SetSummary` | src/modules/chat/services/conversation-store.ts:52-58 | Overwrites the summary |
| `GeminiContents.ToGeminiContents` | src/modules/chat/mapper/gemini-content.mapper.ts:25-67 | The mapper's loop, which looks only at its last entry, builds the declarative contents |
| `GeminiContents.SanitizeHistoricalToolMessages` | src/modules/chat/mapper/gemini-content.mapper.ts:159-185 | Before the last user message tool results go and tool requests shrink to their text; from it on everything stays |
| `GeminiContents.LastEntryTellsRole` | src/modules/chat/mapper/gemini-content.mapper.ts:35-53 | Looking for a function response in the last user entry tells exactly whether the last message was a tool result |
| `GeminiPairing.PromptIsWellPaired` | src/modules/chat/mapper/gemini-content.mapper.ts:25-67 | For any stored history that starts with the user, and any turn in progress: contents start with the user, each entry with function calls is followed at once by one user entry answering the same ids in the same order, and no response stands elsewhere |
| `GeminiPairing.ContentsOfPrompt` | src/modules/chat/mapper/gemini-content.mapper.ts:25-67 | The contents of a prompt are the history's texts, the user's message, and a request and an answer entry per tool round |
| `GeminiTexts.HistoryStillSpeaks` | src/modules/chat/mapper/gemini-content.mapper.ts:159-185 | Of the stored history nothing that was said is dropped, reordered or altered, apart from tool traffic |
| `GeminiTexts.PromptSays` | src/modules/chat/mapper/gemini-content.mapper.ts:35-64 | Entry by entry: the texts on their speaker's side, the request's text and calls with id, name, arguments and signature, and the answers with id, name and content |
| `ChatGeneration.Generate` | src/modules/chat/services/chat-generation.service.ts:19-95 | At most five provider calls; each prompt is the history followed by what would be saved; the result is an error exactly when the last call failed; the cards are those of all tool calls; the texts used when rounds run out or the reply is empty |
| `ChatGeneration.Round` | src/modules/chat/services/chat-generation.service.ts:36-87 | One round: the provider call with its token usage, then the tool results in the order of the calls and their cards |
| `ChatGeneration.ExecuteTools` | src/modules/chat/services/chat-generation.service.ts:58-78 | Tool results keep the order and ids of the calls, and the cards are exactly theirs, with multiplicity |
| `ChatGeneration.SumOneMore` | src/modules/chat/services/chat-generation.service.ts:97-111 | Merging usages keeps the running total the componentwise sum of all that were reported, and absent until one is |
| `ChatGeneration.EveryPromptIsWellPaired` | src/modules/chat/services/chat-generation.service.ts:36-37 | At every provider call of every run the contents sent are well paired |
| `ChatGeneration.NextPromptCarriesResults` | src/modules/chat/services/chat-generation.service.ts:49-78 | After each round of tools the next prompt is the last one, the request, and for each call in order what its tool gave for the model |
| `ChatGeneration.UsageIsWhatWasReported` | src/modules/chat/services/chat-generation.service.ts:39-41 | Each component of the token usage is the sum of what the provider reported, and the usage is missing if and only if nothing was |
| `ChatGeneration.SavedMessagesAreATurn` | src/modules/chat/chat.service.ts:90-102 | The saved batch and the reply are one complete turn: user, tool groups with equal-length results, assistant |
| `ChatService.ChatService.HandleMessage` | src/modules/chat/chat.service.ts:32-124 | For any stored session: a failing turn changes nothing; a successful one appends one complete turn, queues it with its cards for archiving, requests a summary when due and tracks the turn's tokens; its prompts were well paired and built from one snapshot |
| `ChatService.ChatService.RecordTurn` | src/modules/chat/chat.service.ts:98-118 | After a reply: one append to the session, one archive job with the cards, a summary request when due, and the turn's tokens tracked |
| `ChatService.ChatService.GenerateFromSession` | src/modules/chat/chat.service.ts:43-73 | For any stored session, every prompt is well paired, and the first is the longest history past the cursor with at most 30 messages that starts with the user, and the new message |
| `ChatService.PromptStartsAtBoundary` | src/modules/chat/chat.service.ts:43-52 | In a session of whole turns that history starts at the first turn boundary past the cursor from which at most 30 messages follow |
| `ChatService.PromptCoversExactly` | src/modules/chat/chat.service.ts:43-52 | In a session of whole turns the summarised prefix and the first prompt cover the session if and only if no more than the ceiling lies past the cursor |
| `ChatService.ChatService.CheckAndTriggerSummary` | src/modules/chat/chat.service.ts:148-165 | The new length, and nothing else, is queued if and only if at least 15 messages lie past the cursor |
| `ChatArchive.ChatPersistenceRepository.ReserveConversationSequence` | src/modules/chat/repositories/chat-persistence.repository.ts:123-159 | The message count grows by two from zero or the header's, the first turn names the conversation, later ones keep the title, and the expiry is the later of the two dates or gone |
| `ChatArchive.ChatPersistenceRepository.ArchiveTurn` | src/modules/chat/repositories/chat-persistence.repository.ts:34-61 | The turn is stored as the next two numbers of its conversation with its texts and cards, or nothing is when a text is empty; each conversation stays numbered from 0 to its count less one |
| `ChatArchive.HandleTurn` | src/modules/chat/queues/consumers/chat-persist.consumer.ts:44-84 | Invalid payloads fail without a write; otherwise the pair takes the next two numbers and expires after the plan's days, or never; the numbering of all conversations is kept |
| `ChatArchiveProtocol.ArchiveTurnRefines` | src/modules/chat/repositories/chat-persistence.repository.ts:34-61 | Begin, reserve, insert and commit of the archive protocol in a row leave the messages and counts that `ArchiveTurn` leaves |
| `ChatArchive.TitleMeans` | src/modules/chat/repositories/chat-persistence.repository.ts:133-138 | A title is the first 100 characters of the trimmed first message with its white space collapsed to single blanks |
| `ChatArchiveProtocol.SequencesAreGapless` | src/modules/chat/repositories/chat-persistence.repository.ts:34-61 | Over every interleaving of archive transactions, a conversation's stored numbers are 0 up to its count less one in order, even ones user and odd ones assistant, and pair k holds the texts and cards of the k-th committed turn |
| `ChatArchiveProtocol.StepKeepsInv` | src/modules/chat/repositories/chat-persistence.repository.ts:123-159 | Every step of every transaction keeps the write-lock and reserved-range invariant behind it |
| `ArchiveDelivery.ProjectsToDelivery` | src/modules/chat/queues/consumers/chat-persist.consumer.ts:38-42 | Deliveries and archive transactions run together, with the commit of a persist message and of its transaction as one step and all else interleaving freely: seen from the delivery side this is a run of the delivery protocol |
| `ArchiveDelivery.ProjectsToArchive` | src/modules/chat/queues/consumers/chat-persist.consumer.ts:38-42 | Seen from the archive side it is a run of the archive protocol |
| `ArchiveDelivery.TurnsCounted` | src/infrastructure/rabbitmq/rabbitmq.message-handler.ts:41-46 | In every joint run, timely or not, a persist message has archived exactly one turn per deletion of its COMPLETED record, and one more if it is COMPLETED now |
| `ArchiveDelivery.EachMessageArchivedOnce` | src/modules/chat/queues/consumers/chat-persist.consumer.ts:38-42 | In timely joint runs a message contributes at most one turn however often it is delivered, and a persist message exactly one once COMPLETED |
| `ArchiveDelivery.PairsComeFromDifferentMessages` | src/modules/chat/repositories/chat-persistence.repository.ts:34-61 | In timely joint runs a conversation is stored as gapless pairs, no two of them from one message |
| `ChatRetention.OutlivesExactly` | src/modules/chat/repositories/chat-persistence.repository.ts:140-144 | A conversation header outlives its messages if and only if its latest turn is kept indefinitely or all its turns expire |
| `Catalogue.ProductsRepository.BulkUpsert` | src/modules/products/repositories/products.repository.ts:36-54 | The rows after upserting the payloads in order, with the write's time |
| `Catalogue.ProductsRepository.HideStaleSince` | src/modules/products/repositories/products.repository.ts:101-117 | Hides exactly the visible rows of the platform synced before the bound, and answers how many those were |
| `Catalogue.ProductsRepository.CountStoreProductsAndVariants` | src/modules/products/repositories/products.repository.ts:138-176 | The total of variant slots, at least one per visible product |
| `Catalogue.TotalCountsSlots` | src/modules/products/repositories/products.repository.ts:138-176 | That total is the number of slots: one for each variant of a visible product, and one for a visible product without variants |
| `Catalogue.UpsertedAllRows` | src/modules/products/repositories/products.repository.ts:36-54 | After any series of upserts the rows are the last write of each written product and the untouched rows, and stay unique |
| `Catalogue.UpsertAddsAtMost` | src/modules/products/repositories/products.repository.ts:36-54 | An upsert adds at most its own slots to any total over the rows |
| `Catalogue.HidingLeavesFresh` | src/modules/products/repositories/products.repository.ts:101-117 | After hiding, a platform's visible slots are exactly those of its fresh rows |
| `CatalogueSync.AcceptPage` | src/modules/integrations/salla/queue/consumers/salla-product-sync.consumer.ts:106-132 | The page loop accepts the greedy prefix of its items and leaves the rest of the greedy prefix to the later pages |
| `CatalogueSync.SallaProductSyncConsumer.SyncPages` | src/modules/integrations/salla/queue/consumers/salla-product-sync.consumer.ts:102-147 | An unlimited plan writes all mappable items of the pages read, in order; a limited one a prefix that fits, and stops only before an item that does not; slots are tracked, also when a fetch ends the loop |
| `CatalogueSync.SallaProductSyncConsumer.ProcessFullSync` | src/modules/integrations/salla/queue/consumers/salla-product-sync.consumer.ts:83-160 | The whole run: skipped without an integration, an error without a token, and otherwise all that fits is written on the current usage; stale rows are hidden and the sync is stamped only when no fetch failed |
| `CatalogueSync.PageBreaksDoNotMatter` | src/modules/integrations/salla/queue/consumers/salla-product-sync.consumer.ts:102-147 | Two listings of the same items split into pages differently are accepted alike |
| `CatalogueSync.GreedyFits` | src/modules/integrations/salla/queue/consumers/salla-product-sync.consumer.ts:106-123 | What is accepted under a limit never passes it |
| `CatalogueSync.GreedyIsAllThatFits` | src/modules/integrations/salla/queue/consumers/salla-product-sync.consumer.ts:106-123 | What is accepted is everything when unlimited, and else a prefix of the mappable items that stops only before one that does not fit |
| `CatalogueSync.ItemsAreOfPagesRead` | src/modules/integrations/salla/queue/consumers/salla-product-sync.consumer.ts:102-147 | The pages read are those up to the first that failed or named itself the last |
| `CatalogueSync.VisibleIsWhatWasSynced` | src/modules/integrations/salla/queue/consumers/salla-product-sync.consumer.ts:149-153 | A finished sync leaves a Salla product visible if and only if the run's last upsert of it had a visible status |
| `CatalogueSync.UsageBoundsSlots` | src/modules/integrations/salla/queue/consumers/salla-product-sync.consumer.ts:93-125 | The tracked usage bounds the slots in use throughout |
| `CatalogueSync.SyncedSlotsWithinLimit` | src/modules/integrations/salla/queue/consumers/salla-product-sync.consumer.ts:102-153 | For a limited plan the visible Salla slots after a finished sync are at most the limit, whatever the usage before |
| `VariantChoice.PickBestVariant` | src/modules/products/services/products-chat.service.ts:121-171 | The two filters with fallbacks and the scoring loop pick the declarative best variant, for every list, filter and budget |
| `SearchWords.TokensAreTheWords` | src/modules/products/services/products-chat.service.ts:144-152 | The tokens of a filter are exactly the maximal separator-free runs of its lower-cased text, in order, and none for a blank filter |
| `SearchWords.ScoreCounts` | src/modules/products/services/products-chat.service.ts:160-165 | The score is the number of tokens that occur in the text |
| `SearchWords.OptionsAreInText` | src/modules/products/services/products-chat.service.ts:155-158 | The scored text holds every option's name and value |
| `SearchWords.BetterMeans` | src/modules/products/services/products-chat.service.ts:128-170 | The preference in prices, stock and scores: within budget, then available, then tokens found |
| `VariantChoice.HighestScore` | src/modules/products/services/products-chat.service.ts:148-170 | Keeping the first strictly higher score is keeping the best |
| `VariantChoice.EarliestBestExactly` | src/modules/products/services/products-chat.service.ts:121-171 | The best is the one earliest variant that is lexicographically maximal on within budget, available, matching words |
| `VariantChoice.FilteringKeepsBest` | src/modules/products/services/products-chat.service.ts:128-138 | A non-empty filter whose kept variants beat the dropped ones does not change the choice |
| `ProductSearch.LowestPrice` | src/modules/products/services/products.service.ts:84-91 | The least price over the variants, and none when there are none |
| `ProductSearch.CardWithinBudgetExactly` | src/modules/products/services/products.service.ts:83-91 | A product's card fits a budget if and only if its indexed minimum price does |
| `ProductSearch.CardsSay` | src/modules/products/mappers/product-card.mapper.ts:14-70 | A card's ids, price, regular price and availability are the product's or the variant's |
| `ProductSearch.SearchForChat` | src/modules/products/services/products-chat.service.ts:22-69 | One card per hit that is found and has something to show, in the order of the hits |
| `ProductSearch.FindByIds` | src/modules/products/repositories/products.repository.ts:56-67 | The store's products among the ids, in whatever order, answer every id alike |
| `ProductSearch.SearchRespectsBudget` | src/modules/products/services/products-chat.service.ts:22-69 | With index rows in sync every card costs at most the budget and shows a visible product or variant of the store; with a budget given every hit has its card |
| `ProductSearch.HitsAfterHidingExactly` | src/modules/products/repositories/products.repository.ts:101-117 | Hiding leaves index rows behind: a row that was in sync and met the filters still brings up its product at the same price, and what it shows is visible if and only if the row is still in sync, that is the product was not hidden |
| `Subscriptions.SubscriptionsRepository.Upsert` | src/modules/subscriptions/repositories/subscriptions.repository.ts:31-56 | Accepted exactly when newer than the stored event and its id is not another store's; a payload without an id keeps the old one |
| `Subscriptions.SubscriptionsRepository.UpdateStatusByStoreId` | src/modules/subscriptions/repositories/subscriptions.repository.ts:65-82 | Accepted exactly when the row exists, is older and, when asked, is a trial; changes status and event time only |
| `Subscriptions.SubscriptionsRepository.ExtendPeriod` | src/modules/subscriptions/repositories/subscriptions.repository.ts:84-92 | Accepted exactly when the row exists and is older; keeps the plan |
| `SubscriptionOrder.AcceptedTimesIncrease` | src/modules/subscriptions/repositories/subscriptions.repository.ts:25-29 | Over every delivery sequence a store's accepted events have strictly increasing times, and the stored time is the last one's |
| `SubscriptionOrder.StateIsFoldOfAccepted` | src/modules/subscriptions/repositories/subscriptions.repository.ts:31-92 | The register is the plain fold of the accepted events |
| `SubscriptionOrder.RedeliveryChangesNothing` | src/modules/subscriptions/repositories/subscriptions.repository.ts:25-29 | Delivering an accepted event again, any time later, changes nothing |
| `SubscriptionOrder.LatestWins` | src/modules/subscriptions/repositories/subscriptions.repository.ts:31-56 | Full events in any order and multiplicity leave the latest one's row, or the old row when that is newer |
| `SubscriptionOrder.OrderDoesNotMatter` | src/modules/subscriptions/repositories/subscriptions.repository.ts:31-56 | Two deliveries of the same full events with one latest, in any order and with repeats, end in the same register |
| `SubscriptionOrder.OrderMattersExactly` | src/modules/subscriptions/repositories/subscriptions.repository.ts:25-29 | For full events of a store the order of delivery matters if and only if two different ones tie for the latest time and are newer than what is stored |
| `SubscriptionOrder.IdsStayUnique` | src/modules/subscriptions/repositories/subscriptions.repository.ts:51-55 | No two stores ever share a subscription id |
| `SubscriptionOrder.TrialEndsLeaveNoTrace` | src/modules/subscriptions/repositories/subscriptions.repository.ts:65-82 | Once a store pays, a run with trial expiries and cancellations at any places equals the run without them |
| `SubscriptionOrder.OvertakingIsHarmlessExactly` | src/modules/integrations/salla/services/salla-webhook.service.ts:257-261 | An extension that overtakes the start before it ends in the same register if and only if the stored row already has the start's plan, id and trial mark |
| `SubscriptionOrder.SameTimeFirstStays` | src/modules/subscriptions/repositories/subscriptions.repository.ts:25-29 | Of two full events with the same time the first delivered stays, so swapping them is harmless if and only if they are equal |
| `SubscriptionWebhook.SallaWebhookService.HandleSubscriptionEvent` | src/modules/integrations/salla/services/salla-webhook.service.ts:224-288 | Dispatches each of the seven events to the register update it stands for, ignores unknown plans except for renewals, and asks for a full sync exactly on starts |
| `SubscriptionWebhook.DispatchedKinds` | src/modules/integrations/salla/services/salla-webhook.service.ts:242-250 | Only trial expiries and cancellations are limited to trials, only a trial start marks one, and each carries its store and time |
| `SubscriptionAccess.EndLeaves` | src/modules/integrations/salla/services/salla-webhook.service.ts:242-250 | An accepted expiry or cancellation changes the status and the event time and nothing else; expired loses access at once, canceled keeps it up to the end date |
| `SubscriptionAccess.StartLeaves` | src/modules/integrations/salla/services/salla-webhook.service.ts:252-280 | An accepted start or renewal of a known plan leaves the event's row, TRIALING on the fixed plan for a trial and ACTIVE otherwise, with access up to its end date |
| `SubscriptionAccess.UnknownRenewalLeaves` | src/modules/integrations/salla/services/salla-webhook.service.ts:257-261 | An accepted renewal of an unknown plan is ACTIVE over the event's dates on the plan the store had |
| `UsageMeter.UsageRepository.FindCurrentUsage` | src/modules/subscriptions/repositories/usage.repository.ts:13-33 | The newest row covering now, whatever period was asked for |
| `UsageMeter.UsageRepository.RecordConversation` | src/modules/subscriptions/repositories/usage.repository.ts:48-68 | Increments the row of the period, creating it when missing |
| `UsageMeter.SubscriptionsService.ValidateChatAllowanceOrThrow` | src/modules/subscriptions/services/subscriptions.service.ts:73-107 | When each answer is given, both ways: allowed if and only if the store is subscribed, its plan is known, and the limit is not used up by the newest usage row that covers now; each refusal when its own condition is the first to fail |
| `UsageMeter.NextTurnRefusedExactly` | src/modules/subscriptions/services/subscriptions.service.ts:97-106 | Recording an allowed turn adds one to the count that is checked, and the next check refuses for the limit if and only if that turn was the last one left |
| `UsageMeter.SubscriptionsService.TrackNewConversation` | src/modules/subscriptions/services/subscriptions.service.ts:131-144 | Records in the subscription's period, and nothing without a subscription |
| `UsageQuota.CounterIsExact` | src/modules/subscriptions/repositories/usage.repository.ts:48-68 | In every interleaving the period's row holds exactly the number of recorded turns and the sum of their tokens |
| `UsageQuota.QuotaOvershootIsBounded` | src/modules/subscriptions/services/subscriptions.service.ts:73-107 | With at most k turns between check and record, k at least 1, recorded and in-flight turns never exceed limit - 1 + k, and the counter read at any time of the period is the number recorded |
| `UsageQuota.OvershootIsReached` | src/modules/subscriptions/services/subscriptions.service.ts:97-106 | For every positive limit some run ends with exactly limit - 1 + k recorded turns |
| `SlackThrottle.SlackTransport.ShouldThrottle` | src/infrastructure/logger/transports/slack/slack.transport.ts:34-56 | Throttles exactly while the message cools down, and otherwise makes room and remembers it |
| `SlackThrottle.SlackTransport.Sweep` | src/infrastructure/logger/transports/slack/slack.transport.ts:43-47 | Deleting while iterating removes exactly the entries past the cooldown and keeps the order |
| `SlackThrottle.SlackTransport.Set` | src/infrastructure/logger/transports/slack/slack.transport.ts:54 | Setting a known key keeps its place; a new one goes last |
| `SlackThrottle.CacheIsBounded` | src/infrastructure/logger/transports/slack/slack.transport.ts:34-56 | For non-empty messages the cache never exceeds its maximum, over any calls |
| `SlackThrottle.OverflowsExactly` | src/infrastructure/logger/transports/slack/slack.transport.ts:48-51 | A call takes the cache over its maximum if and only if the sweep drops nothing and the first key is empty |
| `SlackCooldown.SameMessageIsSpaced` | src/infrastructure/logger/transports/slack/slack.transport.ts:34-56 | When no half-open cooldown window sees more different sent messages than the cache holds, two sends of one message are at least the cooldown apart |
| `SlackCooldown.SweepSuffices` | src/infrastructure/logger/transports/slack/slack.transport.ts:42-52 | In such runs the sweep always makes room, so nothing still cooling down is dropped |
| `SlackCooldown.ThrottledExactly` | src/infrastructure/logger/transports/slack/slack.transport.ts:34-56 | As long as nothing cooling down was dropped, a call is held back if and only if its message was sent less than a cooldown ago |
| `SlackCooldown.CannotRepeatExactly` | src/infrastructure/logger/transports/slack/slack.transport.ts:42-52 | Over a whole run no message can be let through twice within a cooldown, now or by the next call, if and only if no call takes the branch that drops the first key |
| `SlackCooldown.ForgottenExactly` | src/infrastructure/logger/transports/slack/slack.transport.ts:48-51 | A call forgets another message that is cooling down if and only if the call is let through, the sweep drops nothing from a full cache, and that message is its first and not empty |
| `SlackCooldown.BurstIsNotSpaced` | src/infrastructure/logger/transports/slack/slack.transport.ts:42-52 | A concrete run of 101 different messages and the first again, all at once, in which the first is sent twice |


## Left out

- Network and database failures other than those named in the model: a Mongo error other than a duplicate key reads as a
  crash of the worker, and a transaction either commits or does not.
- `executeWithoutTransaction` in the interleaving model: the protocol's commit step is the transactional one.  Its
  handler's effects can repeat after a crash; the summariser's cursor makes its own repeats harmless.
- DeliveryProtocol redeliveries by the broker: each is a further copy in the queue, and its retry counter is the copy's.
- `markTokenExpired`, authorise and uninstall beside the token refresh, and the fallback to the caller's document when
  the integration row has vanished.
- Encryption, signatures and the webhook's payload checks: foreign code; tokens are generation numbers.
- Names inherited from JavaScript's object prototype as event names in the event index.
- Exact reply texts: `CANNOT_ANSWER` and `PLEASE_CLARIFY` stand for the two Arabic fallbacks; the response builder,
  which cleans the text and picks the cards it names, is a function parameter.
- The order of cards within a turn, which depends on which tool finishes first: cards are a multiset.
- Parsing of provider responses, tool declarations and prompt texts; tool results are opaque strings, and arguments are
  not parsed as JSON.
- Trimming and splitting at the Unicode space separators other than the no-break space and the byte order mark.
- Listing and counting of archives, and deletion by TTL, which breaks sequences by design.
- The same product twice in one page: the bulk write is unordered, and the model takes the order of the page.
- Field mapping of Salla products and the other catalogue fields: it would only add easy members; whether mapping an
  item succeeds is an input of the sync.
- Incremental sync, single product deletion and the classification of Salla errors.
- The search engine itself: its hits are an input that meets the filter conditions; its limit on hits plays no part.
- Product details and category listings for the chat.
- Invalid or missing dates in subscription events, and event times that fall back to the clock.
- Plan rows and their cache, feature flags, history retention lookups: inputs of the model.
- Store ids that are not object ids, which the repositories answer with nothing.
- Which log entries are critical and the Slack payload.
- Cache primitives `wrap`, `mget` and `llen`: no modelled protocol uses them.
- Authentication, guards, configuration, health checks and dashboards.
