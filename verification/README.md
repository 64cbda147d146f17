# SEIL API: verified model of its protocols and algorithms

The repository is a NestJS API over Postgres, Redis and Bull that generates marketing funnels for small
businesses, charges for subscriptions and guards accounts. This project models the protocols and algorithms
under that API and proves what they promise.

Tables are maps or single rows, Redis keys are maps with expiry times, and a statement that reads or writes the
database is one step. Where calls run concurrently, a `State`, an `Action` datatype and a `Step` function give
every interleaving: `Run` folds any sequence of actions, and an action that is not enabled changes nothing. The same
calls, each run on its own, are classes whose methods are proved against the functions the protocols use. The modules
named `..Answers` say what those functions answer and write, field by field and in plain numbers and names.

| files | system part |
|---|---|
| `Json`, `StageData` | JavaScript values; the LLM output validator and the processor's check |
| `FunnelRows`, `FunnelProtocol`, `FunnelTheorems`, `FunnelTables`, `FunnelDeletes`, `FunnelAnswers` | generating, reaping, completing and deleting funnels |
| `TokenSubstitution`, `TokenValues`, `TemplateRender`, `TemplateAnswers` | the template engine of the fallback funnel |
| `PaymentRows`, `PaymentProtocol`, `PaymentTheorems`, `PaymentScenarios`, `PaymentTables`, `PaymentAnswers`, `Calendar` | payments, subscriptions and their periods |
| `Redis`, `RedisLock`, `Lockout`, `PasswordReset` | counters, locks, failed logins, one-time codes |
| `ObjectGraph`, `NotificationMetadata`, `LogScrub` | the two metadata sanitisers on object graphs |
| `WizardAnswers`, `WizardProtocol`, `WizardTheorems`, `WizardSessions` | the onboarding wizard |
| `Kobo`, `Pagination` | printed amounts, the notification feed |

Hypotheses, all explicit in the models: Bull runs at most one live worker per job (the worker is one component of
the funnel's state); the verify, webhook and cancel handlers of payments run as wholes; Redis is up; two logins on one account
do not overlap; the idempotency hash is injective; dates are UTC.

What the proofs showed about the code, each as a lemma in the table:

- FAILED is not terminal: a funnel reaped while its worker still generates becomes ACTIVE.
- STAGE_COMPLETED events are sent after the commit, so two quick completions can be announced out of order, and
  a request that dies between its commit and its event loses the event for good. The events read 1, 2, .. exactly
  on the runs that send each one after those of all earlier stages.
- "Stage has no tasks" and the 409 of a lost stage race are answered exactly when the funnel was deleted meanwhile.
- Overlapping deletes can leave a user without an ACTIVE funnel: exactly when no ACTIVE funnel is left whose own
  delete has not passed its count, so from any start with two or more.
- The processor's own check lets fractional and NaN positions through; only its sources keep them integers.
- A rendered channel of more than 100 characters does not fit its column, while the context allows 200.
- A context value with a dollar pattern or a token's braces is not inserted as it is. Nested tokens multiply, and
  a context the normaliser accepts makes every template that names the business fail the processor's check.
- The webhook can announce PLAN_UPGRADED with no subscription ACTIVE; exactly when the user had none in flight.
- Settling a recurring payment activates whatever PENDING subscription the user has, which is the payment's own one
  exactly when that is still PENDING; a late charge can activate a newer subscription nobody paid.
- A limit of n per window admits up to 2n - 1 calls in an interval of that length, and the bound is reached.
- A process that stops between INCR and EXPIRE leaves a counter that refuses for ever.
- The lock after five failures does not reset the counter: one more wrong password locks again. The failure that
  sets it is answered "too many failed attempts" on the user path and "account locked" on the admin path.
- releaseLock reads and then deletes as two commands: a release whose lock runs out in between can free a later
  holder's lock.
- If the verify lock runs out before its holder has deleted the code, or inside its release, one reset code can be
  verified twice; running out while the reset token is made does no harm.
- The metadata sanitiser of notifications recurses without end exactly on array-only cycles.
- A session whose three saves succeeded is refused exactly when a save wrote back an older row without a step saved
  since.
- A save that finds its session completed reopens it. A user has two live sessions, now or after the insert that is
  about to come, exactly when such a write met another live session or a start between its search and its insert.
- A duplicate subscription request can be answered as a success with a cancelled subscription.

## Model

| member | source | states |
|---|---|---|
| StageData.ValidateStage | src/modules/llm/llm.service.ts:434-490 | a stage is accepted exactly when every field test holds, and the result is made of exactly those fields |
| StageData.ValidateLlmOutput | src/modules/llm/llm.service.ts:313-352 | output is accepted exactly when it has four valid stages; the result is those stages sorted by position, nothing lost or added, each within the source bounds |
| StageData.ParsesExactlyWhen | src/modules/llm/llm.service.ts:434-490 | an item parses exactly when its position is one of 1 to 4, its channel is not blank, its texts have 10 to 2000 and 10 to 500 characters and it has two or three tasks with a name and a text that are not blank |
| StageData.ParsedFieldsKeepTheirPlaces | src/modules/llm/llm.service.ts:477-490 | each field of the parsed stage is the item's own field of that name, task by task in order |
| StageData.SortSorts | src/modules/llm/llm.service.ts:349-351 | sorting by position gives an ascending permutation |
| StageData.CheckStage | src/queue/processors/funnel-generation.processor.ts:174-215 | one stage passes exactly when it is well formed and its position is new; every error is given exactly when its test is the first to fail |
| StageData.StageOkReads | src/queue/processors/funnel-generation.processor.ts:174-215 | what well formed means on the raw fields: known keys only, a number from 1 to 4, texts up to 2000, a non-empty channel and tasks with non-empty names and texts |
| StageData.ValidateStageData | src/queue/processors/funnel-generation.processor.ts:166-217 | data passes exactly when it is four well-formed stages with pairwise different positions; which error otherwise |
| StageData.ParsedStageIsFromSource | src/modules/llm/llm.service.ts:434-505 | a validated stage has an integer position 1 to 4, a non-empty channel, bounded texts and two or three non-empty tasks |
| StageData.SourceStagePasses | src/queue/processors/funnel-generation.processor.ts:174-215 | every stage from the LLM validator or a template passes the processor's per-stage tests |
| StageData.SourcePassesExactlyWhenDistinct | src/queue/processors/funnel-generation.processor.ts:166-217 | source data passes the processor exactly when its positions differ |
| StageData.SourcePositionsArePermutation | src/queue/processors/funnel-generation.processor.ts:166-217 | pigeonhole: such data carries each of the positions 1 to 4 |
| StageData.LlmOutputIsOrdered | src/modules/llm/llm.service.ts:349-351 | sorted LLM output that passes carries 1, 2, 3, 4 in this order |
| StageData.ProcessorGivesPermutationExactlyForIntegers | src/queue/processors/funnel-generation.processor.ts:181-187 | whatever data the processor accepts, its positions are {1,2,3,4} exactly when all are integers |
| StageData.ProcessorAcceptsFractionalPosition | src/queue/processors/funnel-generation.processor.ts:181-187 | data with positions 1, 1.5, 2 and NaN is accepted |
| FunnelRows.NothingPendingMeansAllDone | src/modules/funnels/actions/funnel.action.ts:26-35 | the pending count is zero exactly when every task is complete |
| FunnelRows.WriteTouchesEachStageOnce | src/queue/processors/funnel-generation.processor.ts:245-272 | the write gives every stage the texts and tasks of exactly the entry for its position |
| FunnelRows.WritePreservesShape | src/queue/processors/funnel-generation.processor.ts:245-272 | the write keeps all stage statuses and times and leaves at least two tasks on every stage |
| FunnelRows.CompletionAdvancesShape | src/modules/funnels/actions/funnel.action.ts:37-63 | with k stages complete, completing k + 1 and unlocking k + 2 affect one row each (none after the last) and give k + 1 complete |
| FunnelAnswers.CreatedFunnelReads | src/modules/funnels/services/funnels.service.ts:237-305 | a created funnel is GENERATING with its first stage current since then, three locked ones and nothing in any of them |
| FunnelAnswers.GeneratedFunnelReads | src/queue/processors/funnel-generation.processor.ts:245-273 | after the write the stage at each entry's position has that entry's channel, explanation and prompt and its tasks in order, texts whole, names cut to 80, positions from 1 and none of them done, so all are pending |
| FunnelAnswers.WriteAnswers | src/queue/processors/funnel-generation.processor.ts:237-273 | the write goes through exactly when the funnel is there with stages, every position has one and every channel fits 100 characters |
| FunnelAnswers.TickChangesOneTask | src/modules/funnels/services/funnels.service.ts:642-696 | a task update changes that task's state and nothing else |
| FunnelAnswers.TickAllowedExactlyOnOpenStages | src/modules/funnels/services/funnels.service.ts:642-668 | it is allowed exactly on existing tasks of stages that are not locked |
| FunnelAnswers.CompletionRefusals | src/modules/funnels/services/funnels.service.ts:408-455 | a foreign funnel, one that is not ACTIVE, a missing, finished or locked stage, one without tasks or with open tasks: each gets its own reply, nothing changes, and everything else is completed |
| FunnelAnswers.PendingCounts | src/modules/funnels/actions/funnel.action.ts:26-35 | the pending count is the number of tasks still to be done |
| FunnelAnswers.CompletionWrites | src/modules/funnels/services/funnels.service.ts:457-484 | an accepted completion closes its stage at that time, makes a locked next one current and touches nothing else |
| FunnelAnswers.ErrorsAreRetried | src/queue/processors/funnel-generation.processor.ts:44-122 | an error uses up an attempt and writes nothing; the failure handler gets its turn exactly when no attempt is left |
| FunnelAnswers.FailureHandlerFails | src/queue/processors/funnel-generation.processor.ts:320-374 | the handler marks a funnel that is there and not ACTIVE as FAILED and announces it, and leaves any other alone |
| FunnelAnswers.SweepFails | src/modules/tasks/services/tasks.service.ts:34-60 | a sweep that finds a GENERATING funnel marks it FAILED and announces it |
| FunnelAnswers.DeleteAnswers | src/modules/funnels/services/funnels.service.ts:361-406 | a delete goes through exactly for the user's own funnel that is not ACTIVE or has another ACTIVE one beside it |
| FunnelProtocol.StepKeepsInv | src/queue/processors/funnel-generation.processor.ts:44-122 | every statement of the worker, its retries and failure handler, reaper, deletes, ticks and completion requests keeps the invariant |
| FunnelProtocol.CommitWriteKeepsInv | src/queue/processors/funnel-generation.processor.ts:273-296 | committing the transaction, with no status guard on the activating UPDATE, keeps it |
| FunnelProtocol.FailureKeepsInv | src/queue/processors/funnel-generation.processor.ts:320-374 | the failed-attempt handler, status check then write, keeps it |
| FunnelProtocol.SweepsKeepInv | src/modules/tasks/services/tasks.service.ts:34-60 | the reaper's find and its guarded update as two statements keep it |
| FunnelTheorems.TasksExactlyWhenActive | src/queue/processors/funnel-generation.processor.ts:219-296 | in every reachable state a funnel's stages hold tasks exactly when it is ACTIVE, and then at least two each |
| FunnelTheorems.BatchInsertedAtMostOnce | src/queue/processors/funnel-generation.processor.ts:44-122 | over all retries the task batch is committed at most once and announced at most once |
| FunnelTheorems.ActiveLeftOnlyByDeletion | src/queue/processors/funnel-generation.processor.ts:320-374 | no action takes a funnel out of ACTIVE except a delete that sees another ACTIVE funnel |
| FunnelTheorems.FailedLeftOnlyByGenerationOrDelete | src/queue/processors/funnel-generation.processor.ts:273 | FAILED is left only by the worker's commit (to ACTIVE) or by a delete |
| FunnelTheorems.ReapedFunnelBecomesActive | src/queue/processors/funnel-generation.processor.ts:273 | some run reaps a funnel and then makes it ACTIVE |
| FunnelTheorems.StagesReadAsPrefix | src/modules/funnels/services/funnels.service.ts:425-510 | under any interleaving the stages read COMPLETE^k, one current, LOCKED, and the committed completions are 1, .., k in order, so each stage is completed at most once |
| FunnelTheorems.UncheckedUnlockAffectsOneRow | src/modules/funnels/actions/funnel.action.ts:51-63 | the unchecked unlock affects exactly one row when a next stage exists, else none |
| FunnelTheorems.OneCompletionInTransaction | src/modules/funnels/services/funnels.service.ts:457-484 | two completion requests are never inside their transactions past the first update together |
| FunnelTheorems.NoTasksReplyExactlyAfterDeletion | src/modules/funnels/services/funnels.service.ts:452-455 | the no-tasks refusal is given exactly when the funnel has been deleted since the stage was read |
| FunnelTheorems.ConflictReplyExactlyAfterDeletion | src/modules/funnels/services/funnels.service.ts:463-479 | a lost race is answered 409 exactly when the funnel is gone |
| FunnelTheorems.EventsAreCommittedAndUnique | src/modules/funnels/services/funnels.service.ts:486-501 | each stage is announced at most once and only after its commit |
| FunnelTheorems.EventsInOrderExactlyForOldestRuns | src/modules/funnels/services/funnels.service.ts:486-501 | over any run the events read 1, 2, .. exactly when each is sent after those of all earlier stages |
| FunnelTheorems.LostEventBreaksOrder | src/modules/funnels/services/funnels.service.ts:486-501 | the event of a completion whose request died after its commit is never sent, so no later stage's event is in order |
| FunnelTheorems.EventsCanBeOutOfOrder | src/modules/funnels/services/funnels.service.ts:425-510 | some run sends 2 before 1 |
| FunnelTheorems.ReachableActiveCanFinish | src/modules/funnels/services/funnels.service.ts:425-510 | from every reachable ACTIVE funnel a finite run completes all four stages |
| FunnelTheorems.CompleteNextStage | src/modules/funnels/services/funnels.service.ts:425-510 | from k complete stages a finite run of ticks and one request reaches k + 1, whatever other requests hold |
| FunnelTables.FunnelTables.CreateGeneration | src/modules/funnels/services/funnels.service.ts:237-305 | a repeated key returns its funnel, otherwise a GENERATING funnel is added unless limited, without a source or without a queue, in that order |
| FunnelTables.FunnelTables.UpdateStageStatusIfActive | src/modules/funnels/actions/funnel.action.ts:37-49 | compare-and-set on one row with its affected count |
| FunnelTables.FunnelTables.ActivateStageIfLocked | src/modules/funnels/actions/funnel.action.ts:51-63 | the same for unlocking |
| FunnelTables.FunnelTables.MarkFunnelsFailed | src/modules/funnels/actions/funnel.action.ts:183-192 | exactly the GENERATING ones among the ids become FAILED |
| FunnelTables.FunnelTables.SweepStuckFunnels | src/modules/tasks/services/tasks.service.ts:34-60 | exactly the overdue GENERATING funnels fail, each announced once, and the count is theirs |
| FunnelTables.FunnelTables.WriteFunnelData | src/queue/processors/funnel-generation.processor.ts:219-296 | all statements commit together, or none when the funnel is missing, has no stages, lacks a stage for some entry or a channel does not fit its column |
| FunnelTables.UndisturbedWriteIsTheMethod | src/queue/processors/funnel-generation.processor.ts:219-296 | the worker's statements without a break write the method's row exactly when the method does, and use up the attempt otherwise |
| FunnelTables.FunnelTables.CompleteStage | src/modules/funnels/services/funnels.service.ts:408-510 | reply and row of a whole undisturbed completion |
| FunnelTables.FunnelTables.DeleteFunnel | src/modules/funnels/services/funnels.service.ts:361-406 | deletes unless the funnel is not the user's or is the last ACTIVE one |
| FunnelTables.UndisturbedRequestIsSoloComplete | src/modules/funnels/services/funnels.service.ts:408-510 | the protocol's eight steps run without a break give the method's reply and row, for every user and every state of the funnel |
| FunnelTables.SerialDeleteKeepsOneActive | src/modules/funnels/services/funnels.service.ts:361-406 | a serial delete never removes a user's last ACTIVE funnel |
| FunnelDeletes.SpareThroughoutExactlyCarefulRuns | src/modules/funnels/services/funnels.service.ts:361-406 | over any run of any number of interleaved deletes an ACTIVE funnel not itself being deleted is there all the time exactly when every count that lets an ACTIVE funnel go found one besides it |
| FunnelDeletes.NoneCanBeLeftExactlyWithoutSpare | src/modules/funnels/services/funnels.service.ts:361-406 | from any state the open deletes can leave the user without an ACTIVE funnel exactly when none is spare |
| FunnelDeletes.DeletesCanLeaveNoneExactlyUnlessOne | src/modules/funnels/services/funnels.service.ts:371-380 | from a user with no open delete some interleaving of deletes leaves none exactly when the user did not have a single ACTIVE funnel |
| FunnelDeletes.SerialDeletesKeepOneActive | src/modules/funnels/services/funnels.service.ts:361-406 | when no delete starts before the one before it ended, an ACTIVE funnel remains over the whole run |
| FunnelDeletes.UndisturbedDeleteIsTheMethod | src/modules/funnels/services/funnels.service.ts:361-406 | lock, count and removal without a break do what the method does |
| TokenSubstitution.ExpandInert | src/modules/funnels/services/funnel-template.service.ts:109-114 | a replacement text without a dollar pattern is inserted as it is |
| TokenSubstitution.PassReplacesTokens | src/modules/funnels/services/funnel-template.service.ts:109-114 | one replace pass turns exactly the tokens of that name into the value |
| TokenSubstitution.KnownPassesReplaceKnown | src/modules/funnels/services/funnel-template.service.ts:109-114 | the five chained passes replace exactly the five known names |
| TokenSubstitution.SweepHumanizes | src/modules/funnels/services/funnel-template.service.ts:116-128 | the final sweep humanises every remaining token |
| TokenSubstitution.SubstituteIsSimultaneous | src/modules/funnels/services/funnel-template.service.ts:105-128 | for context values without braces or dollar patterns the chain and sweep equal one simultaneous substitution |
| TemplateAnswers.TokensStandFor | src/modules/funnels/services/funnel-template.service.ts:108-128 | which value each of the five tokens stands for; any other word with spaces for underscores, in lower case |
| TemplateAnswers.DollarPatterns | src/modules/funnels/services/funnel-template.service.ts:109-114 | what each of the four dollar patterns inserts; every other character stands for itself |
| TokenSubstitution.SimultaneousBounds | src/modules/funnels/services/funnel-template.service.ts:105-128 | no brace is left, a token adds at most 200 characters, a non-empty text stays non-empty |
| TokenValues.InsertedUnchangedExactlyWhenPairFree | src/modules/funnels/services/funnel-template.service.ts:109-114 | a value is inserted as it is at every match exactly when it has no dollar pattern |
| TokenValues.BracesInValueAreResubstituted | src/modules/funnels/services/funnel-template.service.ts:109-114 | inserted into any surrounding text, a value is left alone by another name's pass, for all of its values, exactly when it does not hold that token |
| TokenValues.LastValueIsKeptExactlyWhenInert | src/modules/funnels/services/funnel-template.service.ts:114-120 | inserted into any surrounding text, the last pass's value reaches the final text as it is exactly when it has no dollar pattern and no token |
| TokenValues.SubstituteSplices | src/modules/funnels/services/funnel-template.service.ts:105-128 | for values that are well-formed texts themselves the final text is the chain of splices in plain words, and its length that of the literals and of each token's final text |
| TokenValues.NestedValuesMultiply | src/modules/funnels/services/funnel-template.service.ts:105-123 | a business name of a customer tokens and a customer of b channel tokens make every business name grow to a * b channels |
| TemplateRender.NormalizedContext | src/modules/funnels/services/funnel-template.service.ts:130-178 | every normalised value is non-empty and at most 200 long; the context is inert exactly when three of them are |
| TemplateAnswers.NormalizedReads | src/modules/funnels/services/funnel-template.service.ts:135-170 | from which key each value is read and what replaces an empty one |
| TemplateAnswers.SanitizedReads | src/modules/funnels/services/funnel-template.service.ts:173-178 | white space is cut at both ends, then dangerous characters are removed, then 200 characters are kept |
| TemplateAnswers.StrippedCharacters | src/modules/funnels/services/funnel-template.service.ts:173-178 | which characters those are |
| TemplateRender.DerivedProductIsInert | src/modules/funnels/services/funnel-template.service.ts:165-171 | the derived product is never empty and never holds a brace or dollar pattern |
| TemplateAnswers.ProductIsFirstNoun | src/modules/funnels/services/funnel-template.service.ts:165-171 | the product is the leftmost piece between separators of three or more letters and hyphens, in lower case, and the default exactly without one |
| TemplateRender.SelectionPriority | src/modules/funnels/services/funnel-template.service.ts:55-83 | the first entry for business and channel, else the first for the business, else the first of the industry, else the default |
| TemplateAnswers.MatchingReads | src/modules/funnels/services/funnel-template.service.ts:55-83 | an entry matches by some business type and some channel of its own, whatever their case |
| TemplateRender.TaskNameIsShortPrefix | src/modules/funnels/services/funnel-template.service.ts:95-100 | a task name is a prefix of its text of at most 50 characters, empty only with it |
| TemplateAnswers.TaskNameIsFourWords | src/modules/funnels/services/funnel-template.service.ts:95-99 | it is what precedes the text's fourth space, or all of it, cut to 50 |
| TemplateAnswers.RenderedFieldsKeepTheirPlaces | src/modules/funnels/services/funnel-template.service.ts:85-103 | for every context each rendered field, task by task, is the substitution of the template's own field of that name |
| TemplateAnswers.RenderedFieldsAreSimultaneous | src/modules/funnels/services/funnel-template.service.ts:85-123 | and in an inert context the simultaneous substitution of that field's own tokens |
| TemplateRender.RenderedTextIsClean | src/modules/funnels/services/funnel-template.service.ts:105-123 | a rendered well-formed text has no brace and is empty only when the template's was |
| TemplateRender.RenderedTextFits | src/modules/funnels/services/funnel-template.service.ts:105-123 | a template text with room for 200 characters per token fits after rendering |
| TemplateRender.RenderedIsEmptyOnlyForEmpty | src/modules/funnels/services/funnel-template.service.ts:105-123 | for every normalised context a rendered text is empty only when the template's was |
| TemplateRender.RenderedTemplatePassesExactlyWhenTextsFit | src/modules/funnels/services/funnel-template.service.ts:85-103 | whatever the user wrote, a rendered template passes the processor's check exactly when its explanations and prompts keep within the length limit |
| TemplateRender.TextsFitByTokenLengths | src/queue/processors/funnel-generation.processor.ts:204-215 | for such values the limit is met exactly when those lengths add up to no more |
| TemplateRender.NestedValuesFailTheCheck | src/modules/funnels/services/funnel-template.service.ts:173-178 | an accepted context with nested tokens for which every template whose explanations name the business is rejected |
| TemplateRender.RenderedChannelFitsColumnExactlyWhenShort | src/modules/funnels/entities/funnel-stage.entity.ts:19-20 | for every context the stored channel is the value with dollar patterns expanded and tokens in words, equal to the value exactly when it has neither, and then fits its column exactly when the value does |
| Calendar.YearsAscend | src/modules/payments/payments.service.ts:238-240 | year starts ascend by at least 365 days, which makes YearFromTime unique |
| Calendar.DayFromParts | src/modules/payments/payments.service.ts:238-240 | a day is put together again from its year, month and date |
| Calendar.PartsFromDay | src/modules/payments/payments.service.ts:238-240 | every valid year, month and date is read back from its day |
| Calendar.MonthlyPeriodLength | src/modules/payments/payments.service.ts:238-240 | setMonth(+1) adds exactly the number of days of the start month, 28 to 31, for every start time |
| Calendar.MonthlyPeriodEnd | src/modules/payments/payments.service.ts:291-297 | the end has the same date in the next month, or runs over into the month after by exactly the missing days |
| Calendar.AnnualPeriodLength | src/modules/payments/payments.service.ts:337-343 | setFullYear(+1) adds 366 days exactly when a 29 February lies in between, otherwise 365 |
| Calendar.JanuaryOverflows | src/modules/payments/payments.service.ts:291-297 | a month after 31 January the period ends 31 days on, at the same time of day in milliseconds since 1970 |
| Calendar.LeapDayOverflows | src/modules/payments/payments.service.ts:337-343 | a year after 29 February it is 1 March |
| PaymentRows.ActivateProKeepsInv | src/modules/payments/payments.service.ts:225-279 | activation never attempts a row the partial index would reject |
| PaymentRows.SettleMovesForward | src/modules/payments/payments.service.ts:176-193 | settling moves rows only forward |
| PaymentProtocol.StepKeepsInv | src/modules/payments/payments.service.ts:80-129 | every initiate statement and every handler keeps the unique indexes, the records and the row order |
| PaymentProtocol.InsertSubscriptionKeepsInv | src/modules/payments/payments.service.ts:345-378 | subscription and payment are inserted together or not at all |
| PaymentTheorems.RowsNeverGoBack | src/modules/payments/entities/subscription.entity.ts:10-48 | over whole runs references are write-once, terminal payments and cancellations are final, PENDING to ACTIVE to CANCELLED is the only order, no row disappears |
| PaymentTheorems.OneProviderCallPerKey | src/modules/payments/payments.service.ts:80-129 | under every interleaving each idempotency key leads to at most one provider call |
| PaymentTheorems.RepliesForOneKeyAgree | src/modules/payments/payments.service.ts:103-116 | two successful initiatePayment replies for one key carry the same reference |
| PaymentTheorems.FirstTerminalEventWins | src/modules/payments/payments.service.ts:136-223 | after a payment's first terminal event every further verify or charge event changes neither table and emits nothing |
| PaymentTheorems.OneOutcomeEventPerReference | src/modules/payments/payments.service.ts:560-639 | at most one PLAN_UPGRADED or PAYMENT_FAILED per reference ever, matching the payment's status |
| PaymentTheorems.SuccessNeedsMatchingAmount | src/modules/payments/payments.service.ts:161-193 | SUCCESS is recorded only when the reported amount, if any, equals the payment's |
| PaymentTheorems.AtMostOneInFlight | src/modules/payments/entities/subscription.entity.ts:10 | a user has at most one PENDING or ACTIVE subscription; cancelled_at is set exactly when CANCELLED |
| PaymentTheorems.OneTimeSuccessLeavesOneActive | src/modules/payments/payments.service.ts:225-279 | a one-time payment that reaches SUCCESS leaves its user exactly one ACTIVE subscription |
| PaymentTheorems.SuccessIsSettlement | src/modules/payments/payments.service.ts:176-193 | a payment becomes SUCCESS only by the settlement transaction |
| PaymentTheorems.VerifyAnnouncesExactlyActivations | src/modules/payments/payments.service.ts:174-202 | the verify path announces an upgrade exactly when the settlement activated, and then a subscription is ACTIVE |
| PaymentTheorems.WebhookUpgradeIsBackedExactlyWhenInFlight | src/modules/payments/payments.service.ts:603-613 | the webhook's announcement is backed by an ACTIVE subscription exactly when the payment is one-time or one was in flight |
| PaymentScenarios.WebhookCanAnnounceWithoutSubscription | src/modules/payments/payments.service.ts:603-613 | a run of real steps in which it announces with none ACTIVE |
| PaymentTheorems.OwnSubscriptionActivatedExactlyWhenPending | src/modules/payments/payments.service.ts:281-308 | a recurring settlement activates exactly the user's PENDING row, the payment's own one exactly when that is still PENDING |
| PaymentScenarios.OldChargeActivatesUnpaidSubscription | src/modules/payments/payments.service.ts:281-308 | a run of real steps in which a late charge for a cancelled subscription activates a newer, unpaid one |
| PaymentTheorems.ReplayNamesInFlightExactlyWhenNewest | src/modules/payments/payments.service.ts:379-399 | a replayed subscription is PENDING or ACTIVE exactly when it is the user's one such subscription |
| PaymentScenarios.DuplicateIsToldOfCancelledSubscription | src/modules/payments/payments.service.ts:379-399 | a run of real steps in which a duplicate request succeeds with a cancelled subscription |
| PaymentTables.PaymentTables.InitiatePayment | src/modules/payments/payments.service.ts:80-129 | a free key inserts, calls the provider once and stores its reference; a taken key replays it or refuses |
| PaymentTables.PaymentTables.InitiateSubscription | src/modules/payments/payments.service.ts:334-421 | calls the provider exactly when neither unique index objects, and then both rows are there; otherwise nothing changes |
| PaymentTables.PaymentTables.ExistingSubscription | src/modules/payments/payments.service.ts:379-403 | a duplicate is answered with the existing subscription's reference exactly when that has a provider code |
| PaymentTables.PaymentTables.ActivateProSubscription | src/modules/payments/payments.service.ts:225-279 | an ACTIVE row is kept, a PENDING one upgraded, a new one inserted only when there is neither |
| PaymentTables.PaymentTables.ActivateSubscriptionPayment | src/modules/payments/payments.service.ts:281-308 | only a PENDING row is activated, and the result says whether there was one |
| PaymentTables.PaymentTables.ResolvePayment | src/modules/payments/payments.service.ts:136-223 | reply, rows and events of a verify |
| PaymentTables.PaymentTables.HandleChargeSuccess | src/modules/payments/payments.service.ts:560-614 | rows and events of charge.success |
| PaymentTables.PaymentTables.HandleChargeFailed | src/modules/payments/payments.service.ts:616-640 | rows and events of charge.failed |
| PaymentTables.PaymentTables.CancelUserSubscription | src/modules/payments/payments.service.ts:442-495 | reply, rows and event of a user's cancellation |
| PaymentTables.PaymentTables.HandleSubscriptionCancelled | src/modules/payments/payments.service.ts:642-664 | rows after subscription.disable |
| PaymentAnswers.CancellationCancels | src/modules/payments/payments.service.ts:442-495 | a cancellation goes through exactly when the provider agrees and the user has an ACTIVE subscription with a code; then that row alone is CANCELLED at period end and now, announced once, and nobody is left ACTIVE |
| PaymentAnswers.CancellationRefusals | src/modules/payments/payments.service.ts:442-474 | which refusal each other case meets |
| PaymentAnswers.ProviderCancels | src/modules/payments/payments.service.ts:642-683 | subscription.disable cancels the ACTIVE row with that code at once, not_renew only marks it, and nothing else changes |
| PaymentAnswers.VerifyAnswers | src/modules/payments/payments.service.ts:136-223 | the reply and rows of a verify, case by case: foreign, already terminal, provider out of reach, wrong amount, SUCCESS, FAILED, still PENDING |
| PaymentAnswers.ChargeAnswers | src/modules/payments/payments.service.ts:560-639 | a charge event settles or fails a PENDING payment, announces it to its user and changes no other payment |
| PaymentAnswers.UnknownReferenceChangesNothing | src/modules/payments/payments.service.ts:136-150 | a reference no payment has changes nothing |
| PaymentAnswers.OneTimeGrantsMonth | src/modules/payments/payments.service.ts:225-279 | a one-time payment leaves an ACTIVE subscription alone, makes a PENDING one a monthly one from now on, or adds one |
| PaymentAnswers.RecurringGrantsCycle | src/modules/payments/payments.service.ts:281-308 | a recurring payment activates from now on, for a year or a month by the row's own billing cycle |
| PaymentAnswers.PaymentRequestRow | src/modules/payments/payments.service.ts:80-101 | a one-time request puts in one PENDING payment at the one-time price |
| PaymentAnswers.SubscriptionRequestRows | src/modules/payments/payments.service.ts:334-378 | a subscription request puts in a PENDING subscription and its PENDING payment, price, key and period by billing cycle |
| PaymentAnswers.TakenRequestsPutInNothing | src/modules/payments/payments.service.ts:345-399 | a taken key, or a PENDING or ACTIVE subscription of the user, puts in nothing |
| PaymentAnswers.DuplicateReplies | src/modules/payments/payments.service.ts:103-116 | a duplicate payment request replays the reference stored under its key exactly when there is one |
| PaymentAnswers.ExistingReplies | src/modules/payments/payments.service.ts:379-403 | a duplicate subscription request is answered with the newest one of its cycle exactly when that has a non-empty code |
| PaymentAnswers.ProviderReplies | src/modules/payments/payments.service.ts:117-129 | one call under the row's key; its reference is stored unless another payment has it, and a failed call stores nothing |
| RedisLock.TryTakesFreeLock | src/modules/redis/redis.service.ts:103-111 | an attempt becomes the holder exactly when nothing live is stored, and makes nobody else one |
| RedisLock.OneHolder | src/modules/redis/redis.service.ts:103-111 | with a token of its own for every attempt there is at most one holder |
| RedisLock.HeldExactlyUntilDelOrExpiry | src/modules/redis/redis.service.ts:121-132 | over any run a holder has the lock exactly until its expiry or the first DEL by a request that had read its own token back |
| RedisLock.LateReleaseFreesOtherExactlyWhenLost | src/modules/redis/redis.service.ts:121-132 | a release can free another attempt's lock, at once or after one new attempt, exactly when it read its own token back and has lost the lock since |
| RedisLock.SafeExactlyOnPromptRuns | src/modules/redis/redis.service.ts:121-132 | over any run no release can ever do so exactly when no lock expires between its holder's GET and DEL |
| Redis.RedisStore.RateLimit | src/modules/redis/redis.service.ts:170-185 | set-if-absent then increment; open when the key holds no counter |
| Redis.RedisStore.CountAttempt | src/modules/auth/auth.service.ts:335-344 | increment, expiry on the first, refused beyond the limit |
| Redis.CommandsLeave | src/modules/redis/redis.service.ts:93-132 | what each command leaves under its key, with which expiry, and from when on it is gone |
| Redis.WindowAdmitsFirstCalls | src/modules/redis/redis.service.ts:170-185 | within a window exactly the first `limit` calls are admitted |
| Redis.IntervalAdmitsAtMost | src/modules/redis/redis.service.ts:170-185 | any half-open interval of a window's length admits at most 2 * limit - 1 calls, for every call sequence (limit, when the window is one unit of time) |
| Redis.IntervalBoundIsReached | src/modules/redis/redis.service.ts:170-185 | that number is admitted by some sequence, for every limit and window |
| Redis.CountersDecideAlike | src/modules/auth/auth.service.ts:335-344 | incr-then-expire decides every sequence of calls as rateLimit does |
| Redis.LostExpireCountsForever | src/modules/auth/auth.service.ts:335-344 | without its expiry the counter only grows, at whatever times it is used |
| Lockout.Account.RecordFailedLogin | src/modules/auth/auth.service.ts:787-797 | the counter goes up by one and from the fifth on a lock of an hour is set |
| Lockout.Account.Login | src/modules/auth/auth.service.ts:128-161 | a lock later than now refuses without a comparison and keeps the row; logged in exactly when the account qualifies, is not locked and the password matches, which clears counter and lock; the fifth failure and each after it locks for an hour |
| Lockout.Account.AdminLogin | src/modules/admin/auth/admin-auth.service.ts:59-92 | the same on the admin path, where the failure that locks is answered as a locked account is |
| Lockout.ComparisonsAreSpaced | src/modules/auth/auth.service.ts:781-805 | from any row, after the free comparisons every one is at least an hour after the one before |
| Lockout.FiveComparisonsThenOnePerHour | src/modules/auth/auth.service.ts:128-161 | on a fresh account: five comparisons, then at most one per hour, over both login paths |
| Lockout.LaterComparisonsTakeHours | src/modules/auth/auth.service.ts:781-805 | n comparisons beyond the fifth take at least n hours |
| Lockout.OneWrongPasswordLocksAgain | src/modules/auth/actions/auth-metadata.action.ts:40-50 | after the lock ends one wrong password locks for another hour |
| PasswordReset.StepKeepsVerifiesInv | src/modules/auth/auth.service.ts:515-578 | while time takes the Redis lock from no call between its setNx and its delete or between its release's GET and DEL, every statement keeps codes verified at most once |
| PasswordReset.StepKeepsResetsInv | src/modules/auth/auth.service.ts:584-601 | every statement keeps reset tokens spent at most once, with or without the lock |
| PasswordReset.ResetsAtMostVerifications | src/modules/auth/auth.service.ts:584-601 | in every interleaving successful resets number at most the verifications, each spending its own token |
| PasswordReset.VerificationsAtMostIssued | src/modules/auth/auth.service.ts:482-578 | on such runs verifications number at most the issued codes, each using its own; minting and the expired-code branch need no lock |
| PasswordReset.ExpiredLockVerifiesTwice | src/modules/auth/auth.service.ts:530-577 | all three phases need the lock: when its 30 seconds run out before the read, between read and delete, or inside the release, some run verifies one code twice |
| PasswordReset.LockIsTakenForThirtySeconds | src/modules/auth/auth.service.ts:530-535 | a call that takes the lock has it for exactly thirty seconds |
| PasswordReset.ResetAccount.ReplaceToken | src/modules/auth/actions/otp-token.action.ts:20-31 | delete then insert: only the newest code is stored |
| PasswordReset.ResetAccount.VerifyResetOtp | src/modules/auth/auth.service.ts:515-578 | the protocol's steps without a break; a token is returned exactly for a live, matching code and a free lock, it is good for exactly 900 seconds, and the code is gone when it expired or matched |
| PasswordReset.ResetAccount.ResetPassword | src/modules/auth/auth.service.ts:584-628 | the stored id is consumed whatever is presented; the password changes exactly for the stored one, and nothing else changes |
| ObjectGraph.RankExists | src/modules/notifications/notifications.service.ts:226-249 | arrays without a cycle among them can be ranked so that each points only to lower ones |
| NotificationMetadata.Sanitizer.SanitizeValue | src/modules/notifications/notifications.service.ts:226-249 | the traversal with its shared seen set, as a function of graph, value and set |
| NotificationMetadata.Sanitizer.SanitizeItems | src/modules/notifications/notifications.service.ts:233-246 | entries are sanitised left to right with the set passed along |
| NotificationMetadata.CycleOverflows | src/modules/notifications/notifications.service.ts:233-235 | an array on an array-only cycle overflows every call stack |
| NotificationMetadata.Terminates | src/modules/notifications/notifications.service.ts:226-249 | with ranked arrays a stack of (unseen objects + 1) * (arrays + 2) + rank levels is enough |
| NotificationMetadata.SanitizerEndsExactlyWithoutArrayCycle | src/modules/notifications/notifications.service.ts:226-249 | on every graph it ends exactly when no array-only cycle can be reached |
| NotificationMetadata.StringsAreShort | src/modules/notifications/notifications.service.ts:226-249 | no string of the result is longer than 500 |
| NotificationMetadata.SanitizedReads | src/modules/notifications/notifications.service.ts:226-249 | a text keeps its first 500 characters, an object met before becomes "[Circular]", an array or new object keeps length and keys |
| NotificationMetadata.SanitizeTree | src/modules/notifications/notifications.service.ts:226-249 | on a value that denotes a finite tree: enough depth is its height, and the result is plain truncation exactly when no object is met twice |
| NotificationMetadata.PlainTruncationExactlyWithoutSharing | src/modules/notifications/notifications.service.ts:226-249 | the same for the whole call with an empty seen set |
| NotificationMetadata.CreateNotification | src/modules/notifications/notifications.service.ts:38-70 | the stored texts are capped prefixes; metadata over 5000 characters of JSON, or that cannot be printed, becomes the truncation marker |
| LogScrub.ScrubValue | src/common/services/log.service.ts:114-132 | ends on every graph and computes the scrubbed tree |
| LogScrub.ScrubObject | src/common/services/log.service.ts:104-112 | one output entry per key, in order, the placeholder under sensitive keys |
| LogScrub.RedactedExactlyUnderWords | src/common/services/log.service.ts:103-137 | an entry is replaced exactly when its key has one of the seven words anywhere in it in any case; every other entry is scrubbed one level down |
| LogScrub.WordMakesSensitive | src/common/services/log.service.ts:9 | the seven words, written out, between any two pieces of text |
| LogScrub.SensitiveHasWord | src/common/services/log.service.ts:134-137 | every sensitive key is such a text |
| LogScrub.ScrubbedLeaves | src/common/services/log.service.ts:114-132 | a text keeps its first 500 characters, anything else from level eight on is replaced, an array keeps its length |
| LogScrub.ScrubbedIsClean | src/common/services/log.service.ts:103-137 | for every graph the output has strings up to 500, at most eight levels and nothing but the placeholder under a sensitive key |
| LogScrub.UnchangedExactlyWhenClean | src/common/services/log.service.ts:104-137 | scrubbing is the identity exactly on clean trees |
| LogScrub.ScrubIsIdempotent | src/common/services/log.service.ts:104-137 | scrubbing a copy of a scrubbed result changes nothing |
| LogScrub.SensitiveValuesLeaveNoTrace | src/common/services/log.service.ts:104-137 | replacing any value under a sensitive key leaves the output as it was |
| LogScrub.PlacesAreKept | src/common/services/log.service.ts:104-137 | every place less than eight levels down and not below a sensitive key is found again with its kind, keys and value |
| Kobo.PrintedInGroups | src/modules/notifications/listeners/notification.listener.ts:269-273 | the regular expression prints the naira in groups of three from the right, then a point and two digits |
| Kobo.MissingIsZero | src/modules/notifications/listeners/notification.listener.ts:269-273 | a missing amount is printed as nothing |
| Kobo.PrintedExample | src/modules/notifications/listeners/notification.listener.ts:269-273 | minus 1234567 kobo as printed |
| Kobo.PrintedAmountReadsBack | src/modules/notifications/listeners/notification.listener.ts:269-273 | dropping sign, commas and point gives the amount back, for every integer amount |
| WizardAnswers.ValidateAnswers | src/modules/onboarding/onboarding.service.ts:124-139 | the missing steps are exactly those whose check fails, in order |
| WizardAnswers.ValidAnswersRead | src/modules/onboarding/dto/step-answer.dto.ts:23-94 | what each step accepts, on the raw fields: a description of 1 to 2000 characters; a type tag or notes that are not blank, notes up to 500; a non-empty list of the five channels |
| WizardAnswers.ValidatedPassesChecks | src/modules/onboarding/dto/step-answer.dto.ts:23-94 | an answer the step validator accepted passes the later check of its step, which never throws on it |
| WizardAnswers.CompleteExactlyWhenAllAnswered | src/modules/onboarding/onboarding.service.ts:124-139 | validated answers are complete exactly when all three steps are there; else the missing ones are the rest of 1, 2, 3 |
| WizardProtocol.SaveKeepsRowOk | src/modules/onboarding/onboarding.service.ts:159-236 | a save that passed its checks leaves validated answers to a prefix of the steps and their number |
| WizardProtocol.SaveReplies | src/modules/onboarding/onboarding.service.ts:159-218 | which reply a save gets: it may come until the 24 hours are over, needs the earlier steps answered, and then goes by its validation |
| WizardProtocol.SavedRowReads | src/modules/onboarding/onboarding.service.ts:220-229 | a save stores the answer under its step, keeps the others and counts the steps |
| WizardProtocol.CompleteReplies | src/modules/onboarding/onboarding.service.ts:63-139 | which reply a completion gets: it has to come before the 24 hours are over and lists the steps not answered |
| WizardProtocol.FreshSessionReads | src/modules/onboarding/onboarding.service.ts:41-48 | a new session is in progress, empty, and live for exactly 24 hours |
| WizardProtocol.StepKeepsOneLiveExactlyWhenHarmless | src/modules/onboarding/actions/wizard-session.action.ts:18-73 | a step keeps the user at one live session, present or about to be inserted, exactly when it is not a save's write that reopens a session beside another live one or a pending start |
| WizardProtocol.OneLiveExactlyUnlessTwo | src/modules/onboarding/actions/wizard-session.action.ts:25-45 | that state is exactly what keeps two sessions from being live, now or after the pending insert |
| WizardTheorems.AnsweredStepsStayPrefix | src/modules/onboarding/onboarding.service.ts:182-229 | under every interleaving the answered steps are 1, .., k with k = steps_completed |
| WizardTheorems.OneLiveExactlyOnHarmlessRuns | src/modules/onboarding/actions/wizard-session.action.ts:18-73 | over any run there is at most one live session all the time exactly when every save's write is harmless |
| WizardTheorems.OneLiveSession | src/modules/onboarding/actions/wizard-session.action.ts:18-73 | on such runs at most one session is in progress and unexpired, now or later, although the start time is read before the lock |
| WizardProtocol.SaveKeepsAnswersExactlyWhen | src/modules/onboarding/onboarding.service.ts:220-229 | a save's write keeps every saved answer exactly when the loaded row with the new step holds every step saved meanwhile |
| WizardTheorems.AnswersKeptExactlyWhenNothingIsLost | src/modules/onboarding/onboarding.service.ts:159-236 | over any run all saved answers are there all the time exactly when no save's write leaves out a step saved since its load |
| WizardTheorems.RefusedExactlyWhenAnAnswerWasLost | src/modules/onboarding/onboarding.service.ts:63-139 | under every interleaving an accepted session had three successful saves, and a live one with three is refused exactly when an answer was lost |
| WizardTheorems.CompletedExactlyAfterThreeSaves | src/modules/onboarding/onboarding.service.ts:63-139 | when no answer is lost, a live session is accepted exactly after its three saves succeeded, otherwise the reply lists exactly the unsaved steps |
| WizardTheorems.CompletedHasAllAnswers | src/modules/onboarding/onboarding.service.ts:83-115 | when no answer is lost a completed session holds all three answers |
| WizardTheorems.StaleSaveLosesAnswers | src/modules/onboarding/onboarding.service.ts:220-229 | for any valid answers some run loses an answer: all three steps saved with success and the session refused |
| WizardTheorems.StaleSaveReopensSession | src/modules/onboarding/onboarding.service.ts:220-229 | two live sessions by both routes: a stale save after a new session was inserted, or between a start's search and its insert |
| WizardSessions.WizardSessions.StartWizardSession | src/modules/onboarding/onboarding.service.ts:41-61 | returns the only live session, an old one or a new one |
| WizardSessions.WizardSessions.SaveStepAnswer | src/modules/onboarding/onboarding.service.ts:159-236 | an undisturbed save gives the checks' reply, never throws, and writes exactly when it is saved |
| WizardSessions.WizardSessions.CompleteOnboarding | src/modules/onboarding/onboarding.service.ts:63-122 | an undisturbed completion gives the checks' reply, and has all three answers when accepted |
| Pagination.NormalizePagination | src/modules/notifications/notifications.service.ts:113-121 | the page asked for, or 1; the size asked for, 20 without one, never more than 50 |
| Pagination.CollectVisitsRest | src/modules/notifications/notifications.service.ts:113-144 | from any page on, following has_next stops and yields exactly the rest of the list |
| Pagination.FollowingHasNextVisitsAll | src/modules/notifications/actions/notification.action.ts:17-39 | from page 1 every item once, in order, for every requested page size |

## Left out

- FunnelProtocol.SweepsKeepInv: the reaper may mark any GENERATING funnel at any time, which covers its age test; the age test itself is in the sweep method.
- PaymentTheorems.RepliesForOneKeyAgree: only initiatePayment; a replayed subscription reply carries whatever reference its payment row has, which may still be none.
- PasswordReset.VerificationsAtMostIssued: needs that the lock's 30 seconds do not run out before its holder's delete or inside its release; the attempt counter in front of the lock is the one in `Redis`.
- WizardTheorems.OneLiveSession: a save writes the whole row as it was loaded; what columns TypeORM really compares and skips is not part of this model.
- TokenValues.BracesInValueAreResubstituted: one token of the name in a text without braces around it; several copies of a value that opens and closes braces can form a token between them, which is not characterised.
- TokenValues.LastValueIsKeptExactlyWhenInert: the same.
- TemplateRender.RenderedTemplatePassesExactlyWhenTextsFit: the industry templates' texts are a predicate (four positions, three tasks each, well-formed tokens, room for the values); the emergency template is not modelled.
- Lower-casing covers ASCII in the template engine; in the scrubber also the one other character that lowers to an ASCII letter.
- Lengths count characters, JavaScript counts UTF-16 units; a text cut inside a surrogate pair is not modelled.
- An own `__proto__` key, class instances and `toJSON` in the two sanitisers' inputs; the length of printed JSON is a parameter.
- `(n / 100).toFixed(2)` is taken to be exact, which it is for amounts below 2^52.
- class-validator's rejection of answers that are not objects is taken from its default of forbidding unknown values.
- JSON.parse and the stripping of code fences before the LLM validator.
- Redis and Bull outages, a job delivered twice, and a counter's key that expires between the two commands of one call.
- Payment provider adapters, e-mail, object storage, cryptography and token signing: outcomes are parameters of the steps.
- Plan name, currency and payment metadata columns, and the mapping of rows to responses.
- Renaming funnels, feedback, document text budgets, listing, teams, admin users, waitlist and activity rows: single-branch code.
- What a completed onboarding writes into the user's profile (business type, target customer, goal).
- Controllers, decorators, migrations, seeders, logging and scheduling.
