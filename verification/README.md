# A verified model of the voice-agent platform's backend

The backend runs telephone agents for many companies. This project models the parts of it that hold real state, and
proves what they promise. Functions specify each operation; the operations that update rows in place are classes whose
methods are proved equal to those functions, and whose `HandleAll` and `ReadPage` drive them over whole runs; lemmas prove the
promises about the functions, over all inputs, all runs or all interleavings.

| files | what they model |
|---|---|
| `Text`, `Words`, `Paragraphs`, `DocumentText`, `Chunker`, `ChunkLayout` | turning a document's text into overlapping chunks |
| `Campaigns`, `DispatchLaws`, `DispatchExactly`, `DispatchRaces`, `CampaignRuns`, `Completion`, `CallOutcomes`, `CampaignMoves`, `Suppression`, `Contacts`, `ImportedRows`, `OutboundEngine` | outbound campaigns: dispatch, provider events, operator actions, imports |
| `Ledger`, `LedgerLaws`, `Webhooks`, `Settlement`, `PlanLaws`, `Tenancy`, `PaymentEffects`, `BillingOutcomes`, `BillingEngine` | subscriptions, invoices, payments and Stripe webhooks |
| `Knowledge`, `KnowledgeView`, `Snapshots` | a company's knowledge, its version number and the snapshots cached by it |
| `Capacity` | plan limits under concurrent creates |
| `Auth`, `AuthOutcomes`, `AuthRaces`, `AuthEngine` | login lockout and single-use tokens |
| `RateLimit` | the in-memory sliding-window limiter |
| `HtmlExtractor`, `PageTags`, `WebsiteAnalysis` | the streaming HTML extractor, the crawl and the input budget |
| `Wrappers` | `Option`, `Result` and the associativity of concatenation |

## What turned out not to hold

Each of these is proved, with the exact condition under which the code does meet the promise.

- `chunk_text` accepts every overlap below the window size. With an overlap of `size - 1` or `size - 2` it can flush the
  same text for ever; it ends on every text exactly when `overlap + 2 < size` (`Chunker.HaltsExactlyWhenSound`).
- A call outside its window is deferred to the next opening only if the window starts on a full minute, because the
  deferral drops the seconds, and before it ends, which creation checks and an update does not
  (`DispatchLaws.DeferralIsExact`). Otherwise it may be deferred to an instant already past and stay due
  (`DispatchLaws.DeferralLeavesTheDueSet`, `DispatchLaws.UnalignedWindowStarves`).
- The calls of the campaign and of the company are counted before the subscription lock is taken. Each cap can be passed by
  the calls started in between, and is safe exactly when there were none or the count had left no slot, up to the schema's
  limit on one campaign
  (`DispatchRaces.CompanyCapHoldsExactlyWhen`, `DispatchRaces.CampaignCapHoldsExactlyWhen`).
- A campaign is completed by provider events only (`Completion.CompletesExactlyWhenTheLastCallEnds`). A dispatch that gives up
  everybody, by refused last calls or unknown zones, leaves it running with nobody to call
  (`Completion.DispatchExhaustsExactlyWhen`, `Completion.RefusedLastCallExhausts`). Without attempt rows nothing ever completes it
  (`Completion.ExhaustedCampaignIsNeverCompleted`), and with them only an event on one of them does
  (`Completion.CompletedOnlyByItsOwnEvents`).
- A late answer for a recipient without a call, and an edit of the limit, can pass a cap; exactly which do is
  `CampaignRuns.ApplyKeepsCaps`.
- The repository's README says the worker enforces do-not-call suppression. The list is read when contacts are imported
  (`Contacts.ImportedIsBlockedExactlyWhen`) and for single calls, not by the worker: a recipient, listed or
  not, is safe from calls exactly when its zone is unknown, or it does not wait and was never called or has used as many attempts
  as any request can allow (`Suppression.NeverCalledExactlyWhenSilent`).
- `start` and `schedule` do not look at the campaign's status, so a cancelled campaign comes back exactly when one of them
  finds it entitled and ready (`CampaignRuns.LeavesCancelledExactlyWhenLaunched`), and a late report on an old attempt then has a
  cancelled recipient called again (`CampaignRuns.CancelledRecipientIsCalledAgain`).
- Voiding an invoice sets the amount due to zero and leaves the total, which the table's own CHECK constraint refuses
  unless the total is zero (`LedgerLaws.VoidNeedsAZeroTotal`, `LedgerLaws.VoidIsAlwaysRefused`).
- A Stripe settlement whose reference is already used marks the invoice paid and records no payment, so the ledger
  is conserved exactly when the reference is new (`LedgerLaws.HandlingConservesExactly`, `Webhooks.LedgerIsConservedOverRuns`,
  `LedgerLaws.UsedReferenceBreaksTheLedger`).
- Repeating a recorded payment is answered as a success only while its invoice is still open for at least the amount;
  the repeat of the final payment is answered as a conflict (`LedgerLaws.ReplayChangesNothing`,
  `LedgerLaws.FinalPaymentRepeatedIsAConflict`).
- A subscription update that names a known price, be it the current one, drops a pending plan and leaves its invoice open. That
  and an administrator's invoice whose metadata marks a plan change break the tie between the two, and nothing else does
  (`PlanLaws.EventsKeepTheLaw`, `PlanLaws.RequestsKeepTheLaw`, `PlanLaws.PendingLawHoldsOverRuns`).
- The two events of a first payment leave billing periods of equal length exactly under an equation between the present and
  the reported period; for a period reported with both ends, exactly when it is not empty
  (`Settlement.SettlementIsOrderIndependent`, `Settlement.LengthsByReportedEnds`, `Settlement.OneEndedPeriodsDiffer`).
- Verifying an address issues a session without looking whether the company is closed (`Auth.SessionsAreForVerifiedUsers`,
  `Auth.ClosedCompanyGetsASession`).
- Tokens and the failure counter are read without a lock. A refresh token is rotated once, and every wrong password counted,
  exactly when no request writes what another has changed since it looked (`AuthRaces.RotatedOnceExactlyWhenNobodyIsLate`,
  `AuthRaces.CountsAllExactlyWhenNobodyOverwrites`).
- The HTML extractor loses title text that follows a nested title, and raises on a `meta` whose `name` has no value
  (`HtmlExtractor.ParserReadsTheTree`, `HtmlExtractor.NestedTitleLosesText`); one such page abandons the whole crawl
  (`WebsiteAnalysis.CrawlFailsExactlyWhenAPageRaises`).
- An import row with an unreadable consent time uses up its number, so a later good row with the same number is a
  duplicate (`Contacts.NumberIsImportedExactlyWhen`, `Contacts.UnreadableConsentUsesUpTheNumber`).

## Model

| member | source | states |
|---|---|---|
| Paragraphs.NextBreak | app/modules/knowledge_base/processor.py:49 | the break found is the leftmost match of the separator, taken as long as possible, and none is missed |
| Paragraphs.PiecesHoldNoBreak | app/modules/knowledge_base/processor.py:49 | no piece of the split still contains a separator |
| Paragraphs.SplitKeepsText | app/modules/knowledge_base/processor.py:49 | the paragraphs hold the text's visible characters, all of them and in order |
| DocumentText.CleanKeepsText | app/modules/knowledge_base/processor.py:39-43 | the clean-up removes whitespace only, fails exactly on blank text, and leaves no run of blanks, no tab and no triple newline |
| DocumentText.CleanFixesExactlyTheTidy | app/modules/knowledge_base/processor.py:39-43 | exactly the trimmed, tidy texts are left alone, so cleaning is idempotent |
| Chunker.Chunks | app/modules/knowledge_base/processor.py:46-74 | every chunk is non-empty, stripped, at most `size` long and strictly extends the left-stripped last `overlap` characters of its predecessor |
| Chunker.NoTextLost | app/modules/knowledge_base/processor.py:46-74 | without the inherited prefixes and whitespace, the chunks spell out the whole input in order; there are none only for blank text |
| Chunker.FreshIsVisible | app/modules/knowledge_base/processor.py:64-73 | every chunk adds visible text to its predecessor |
| ChunkLayout.ChunksLayOutTheParagraphs | app/modules/knowledge_base/processor.py:49-73 | every chunk is the left-stripped end of its predecessor, whole consecutive paragraphs and at most one first part of a paragraph, neighbours two newlines apart and nothing else added; it ends between paragraphs only at the end or without room for a character, and within one only if that does not fit, at the last space of the second half of the room past 80 characters, else at its end |
| ChunkLayout.FittingTextIsOneChunk | app/modules/knowledge_base/processor.py:56-58 | a text whose paragraphs fit into one chunk is that one chunk, with an empty line between neighbours |
| Chunker.ChunkText | app/modules/knowledge_base/processor.py:46-74 | the nested loops return those chunks, and fail exactly when the size is below 200 or the overlap is negative or not below the size |
| Chunker.WideOverlapDiverges | app/modules/knowledge_base/processor.py:47-59 | an accepted overlap within two of the size runs for ever on one long word |
| Chunker.HaltsExactlyWhenSound | app/modules/knowledge_base/processor.py:47-74 | chunking ends on every text if and only if `overlap + 2 < size` |
| RateLimit.Limiter.EnforceRateLimit | app/core/rate_limit.py:33-40 | a request is accepted if and only if fewer than `limit` stored times lie in the window; it leaves exactly those, in order, and its own; a refused one leaves the stored times, and no request touches another key |
| RateLimit.RefusesExactlyWhenFull | app/core/rate_limit.py:33-40 | over every monotone run a request is refused if and only if at least `limit` requests accepted before it lie within the window that ends now |
| RateLimit.PrunedRefinesFull | app/core/rate_limit.py:33-40 | on every monotone run the pruning limiter decides as one that remembers every accepted request |
| RateLimit.WindowBound | app/core/rate_limit.py:36-39 | no interval of the window's length, wherever it ends, holds more accepted requests than the limit |
| DispatchLaws.DispatchKeepsCaps | app/workers/outbound_tasks.py:131-158 | one dispatch leaves the active recipients of campaign and company at most at the larger of the count before and the cap, however the gateway answers |
| DispatchRaces.StaleCountsOvershootByTheDifference | app/workers/outbound_tasks.py:137-164 | a dispatch that counted the calls of campaign and company before it got the lock passes each cap by at most the calls started since they were counted |
| DispatchRaces.CompanyCapHoldsExactlyWhen | app/workers/outbound_tasks.py:146-164 | whatever campaign a request can set up, the gateway and the other count, the company cap is kept if and only if the count left no slot or the most one campaign can start on it still fits; for caps within one campaign's largest limit, if and only if no started call was missed |
| DispatchRaces.CampaignCapHoldsExactlyWhen | app/workers/outbound_tasks.py:137-164 | the same for the limit of the campaign |
| DispatchRaces.RacingCampaignsPassTheCompanyCap | app/workers/outbound_tasks.py:146-164 | two campaigns dispatched by workers that both counted nothing start two calls under a company cap of one |
| DispatchRaces.RacingWorkersPassTheCampaignLimit | app/workers/outbound_tasks.py:137-164 | one campaign dispatched by two such workers starts two calls under a limit of one |
| DispatchLaws.DispatchAt | app/workers/outbound_tasks.py:191-301 | each recipient is left alone, put off because it was due and not callable, or called once because it was due and callable |
| DispatchExactly.ChosenIsCalled | app/workers/outbound_tasks.py:191-301 | the k-th selected recipient gets its attempt row and the k-th answer of the gateway, if the worker got that far |
| DispatchExactly.OthersAreNotCalled | app/workers/outbound_tasks.py:191-218 | everybody else is put off if the loop looked at it, being due and not callable, and left alone if not |
| DispatchExactly.ReachedIsMaximal | app/workers/outbound_tasks.py:191-208 | the loop looks at an initial part of the candidates and stops before their end only when the slots are used up |
| DispatchExactly.RowsAreAddedExactlyForTheChosen | app/workers/outbound_tasks.py:225-257 | a dispatch adds one attempt row for each selected recipient and none for anybody else |
| DispatchExactly.SlotsAreFilled | app/workers/outbound_tasks.py:174-257 | when everybody due may be called, the calls in progress grow by the slots or by everybody due, whichever is fewer |
| CampaignMoves.FreeSlotsAreUsed | app/workers/outbound_tasks.py:154-161 | with everybody due at a calling time, a dispatch starts calls until nobody is due or the campaign or the company is full, and no more |
| CampaignMoves.ActiveCountsTheBusy | app/workers/outbound_tasks.py:131-145 | the calls in progress of a campaign are its queued, dialing, ringing and answered recipients |
| CampaignMoves.CompanyCountsItsCampaigns | app/workers/outbound_tasks.py:146-153 | those of a company are those of all its campaigns |
| CallOutcomes.SelectedExactlyAtCallingTime | app/workers/outbound_tasks.py:191-208 | of the waiting, due recipients it looks at, a dispatch selects exactly those whose local time of day, in their own zone or else the campaign's, lies in the calling window |
| CallOutcomes.AnswerDecidesTheRows | app/workers/outbound_tasks.py:225-301 | the gateway's answer decides the selected recipient's status, next attempt, attempt row and call: queued without an answer, dialing when accepted; refused, failed on the last attempt and else waiting for the retry delay from the refusal |
| CallOutcomes.OthersArePutOff | app/workers/outbound_tasks.py:193-218 | who is looked at and not selected fails for an unknown zone, and else keeps everything but the next attempt, put off to the minute the window opens, today or once it has closed the day after |
| CallOutcomes.UncalledDispatchesAreExact | app/workers/outbound_tasks.py:162-223 | a dispatch without entitlement pauses the campaign and changes nothing else; one without a connection fails it, calls nobody, and puts off those looked at all the same |
| CallOutcomes.RefusedCallWaitsForTheDelay | app/workers/outbound_tasks.py:286-295 | no run repeats a refused call before the retry delay has passed, and then it is due |
| DispatchLaws.DeferralIsExact | app/workers/outbound_tasks.py:201-218 | outside the window the stored time is the first later instant inside it if and only if the window starts on a full minute and before it ends |
| DispatchLaws.WindowOpensExactlyWhenItStartsFirst | app/workers/outbound_tasks.py:201-205 | a stored window admits some moment if and only if it starts before it ends |
| DispatchLaws.DeferralLeavesTheDueSet | app/workers/outbound_tasks.py:209-218 | for every stored window, also one that starts after it ends, the stored time lies in the future unless now is in the opening minute before the window opens or would close |
| DispatchLaws.CandidatesAreFirst | app/workers/outbound_tasks.py:175-190 | the candidates are the first due recipients in creation order, as many as the limit and the due set allow |
| DispatchLaws.DispatchDoesNotStarve | app/workers/outbound_tasks.py:174-218 | a dispatch with free slots fills them all, or every one of the first `5 * slots` due recipients leaves the due set |
| DispatchLaws.DispatchProgresses | app/workers/outbound_tasks.py:174-301 | with a free slot and somebody due, the due set shrinks |
| DispatchLaws.RepeatingEmptiesTheDueSet | app/workers/outbound_tasks.py:124-301 | repeated at one moment, dispatching uses up the slots or leaves nobody due |
| DispatchLaws.UnalignedWindowStarves | app/workers/outbound_tasks.py:210-218 | with a window that opens between minutes, a dispatch can select nobody and leave its candidate due |
| CampaignRuns.AttemptsAreNumberedAndBounded | app/workers/outbound_tasks.py:225-235 | under any order of events, attempt rows carry exactly 1..attempts_count, a waiting recipient has an attempt left, and rows never exceed recipients times the highest limit |
| CampaignRuns.EventRaisesActiveExactly | app/modules/outbound_campaigns/service.py:699-750 | an event raises the active count exactly when it reports an answer for a recipient without a call in progress, and then by one |
| CampaignRuns.ApplyKeepsCaps | app/workers/outbound_tasks.py:131-158 | from a state within both caps, a step of any kind keeps them if and only if it is not an answer for a recipient without a call while campaign or company is full, not an edit of a draft, ready or paused campaign below its calls, and not a creation with a negative limit |
| CampaignRuns.CapsHoldOverRuns | app/workers/outbound_tasks.py:131-158 | starting within both caps, every state of a run is within them if and only if no step of the run, in the state it meets, is one of those three |
| Completion.CompletesExactlyWhenTheLastCallEnds | app/modules/outbound_campaigns/service.py:719-812 | over all operations, a campaign becomes completed if and only if an event, while it is running, ends the work of its last open recipient: every other one is closed, and the status ends the attempt without a retry left, or says nothing new of a recipient already closed |
| Completion.DispatchExhaustsExactlyWhen | app/workers/outbound_tasks.py:191-301 | a dispatch leaves its campaign running with nobody to call if and only if every open recipient is looked at with an unknown zone, or selected and refused on its last attempt |
| Completion.UnknownZonesExhaustACampaign | app/workers/outbound_tasks.py:193-200 | unknown zones alone do it, without any attempt row |
| Completion.ExhaustedCampaignIsNeverCompleted | app/modules/outbound_campaigns/service.py:794-812 | with nobody to call, no attempt rows, and not completed, draft or ready, no run of any steps whatever, operators' and every dispatch included, completes the campaign |
| Completion.CompletedOnlyByItsOwnEvents | app/modules/outbound_campaigns/service.py:699-812 | with attempt rows, over any run a campaign comes to be completed only through an event on one of its own attempts that ends its last open work |
| Completion.DispatchOfAnExhaustedCampaign | app/workers/outbound_tasks.py:124-223 | a dispatch of such a campaign changes no recipient; it pauses it when not entitled and fails it when the phone is not connected |
| Completion.RefusedLastCallExhausts | app/workers/outbound_tasks.py:286-301 | a refused only attempt leaves a running campaign with nobody to call |
| CampaignRuns.CancelIsSafe | app/modules/outbound_campaigns/service.py:538-573 | after it, under any dispatches and events, nobody is queued or called until `start` or `schedule` |
| CampaignRuns.CancellingStops | app/modules/outbound_campaigns/service.py:538-573 | an accepted cancellation leaves nobody waiting or queued and deletes no attempt row; a refused one changes nothing |
| CampaignRuns.LeavesCancelledExactlyWhenLaunched | app/modules/outbound_campaigns/service.py:505-536 | a cancelled campaign leaves that status if and only if a `start` or `schedule` finds the company entitled and the campaign ready |
| CampaignMoves.StatusMovesExactly | app/modules/outbound_campaigns/service.py:505-578 | every step leaves every campaign in exactly the stated status: the moves of imports, starts, schedules, status changes, due schedules, dispatches and events, each with its condition |
| CampaignMoves.TermsChangeExactly | app/modules/outbound_campaigns/service.py:220-240 | terms change only by an edit of a draft, ready or paused campaign, and the scheduled time only by a launch |
| CampaignMoves.ListsChangeExactly | app/modules/outbound_campaigns/service.py:267-391 | dispatches and events aside, the list changes only by an import into a draft or ready campaign and by a cancellation of the waiting and queued |
| CampaignMoves.NewcomersAreExact | app/modules/outbound_campaigns/service.py:349-374 | a new recipient is waiting, or blocked, with no attempt and no next attempt |
| CampaignMoves.NewCampaignsAreExact | app/modules/outbound_campaigns/service.py:173-190 | a new campaign has the terms asked for, with the smaller of the concurrency asked for and the platform's limit |
| CampaignMoves.RequestsCarryTheseTerms | app/modules/outbound_campaigns/schemas.py:24-30 | the terms a request can carry: 1 to 20 calls at a time, 1 to 5 attempts, 1 to 1440 minutes between them |
| CampaignRuns.CancelledRecipientIsCalledAgain | app/modules/outbound_campaigns/service.py:520-750 | cancelled, started again and reported busy late, a cancelled recipient is called again |
| CampaignRuns.ImportsDeleteNoAttempts | app/modules/outbound_campaigns/service.py:267-291 | campaigns that accept imports have no attempt rows, so replacing their recipients deletes none |
| CampaignRuns.SuppressedIsNeverCalled | app/modules/outbound_campaigns/service.py:350-374 | a recipient blocked at import is never called unless an import replaces it |
| Suppression.StepCallsExactly | app/workers/outbound_tasks.py:175-257 | whatever the do-not-call list holds, a recipient gets an attempt row in exactly the steps that dispatch its running campaign and select it |
| Suppression.RunCallsExactly | app/workers/outbound_tasks.py:175-257 | over a run the attempt rows added are exactly those steps |
| Suppression.NeverCalledExactlyWhenSilent | app/workers/outbound_tasks.py:175-218 | a recipient, listed or not, is called by no future run of acceptable requests that keeps its list if and only if its zone is unknown, or it does not wait and was never called or has used as many attempts as a request can allow |
| Suppression.SilentIsNeverCalled | app/modules/outbound_campaigns/service.py:719-748 | such a recipient stays uncalled over every run that sets no higher limit of attempts |
| Suppression.CallsHaveRowsOverRuns | app/workers/outbound_tasks.py:225-258 | in every state every call in progress has its attempt row |
| Contacts.ReadContacts | app/modules/outbound_campaigns/service.py:305-376 | the import loop computes the row-by-row specification, and its three counters add up to the rows |
| Contacts.ImportIsSound | app/modules/outbound_campaigns/service.py:318-376 | new rows have new, distinct, valid numbers, and listed numbers are blocked |
| Contacts.ImportedIsBlockedExactlyWhen | app/modules/outbound_campaigns/service.py:318-374 | an imported number is blocked if and only if it is listed at the time of the import or its row asks for it |
| Contacts.ImportKeepsNumbersUnique | app/modules/outbound_campaigns/service.py:292-376 | kept and imported rows together never repeat a number |
| Contacts.NumberIsImportedExactlyWhen | app/modules/outbound_campaigns/service.py:318-349 | a valid new number is imported if and only if the first row carrying it has a readable consent time |
| Contacts.UnreadableConsentUsesUpTheNumber | app/modules/outbound_campaigns/service.py:330-349 | a good row is refused as the duplicate of a row refused for its consent time |
| ImportedRows.EveryRowIsAccountedFor | app/modules/outbound_campaigns/service.py:305-376 | the rows imported are exactly those that bring a new valid number and have a readable consent time, in the order of the file and with their own zone and status; the errors name exactly the rows with a bad number or an unreadable consent time; the rest are duplicates |
| ImportedRows.NumbersAreInternational | app/modules/outbound_campaigns/service.py:61 | a number is valid if and only if it is a plus sign and eight to fifteen digits, the first not zero |
| ImportedRows.BlanksAreDropped | app/modules/outbound_campaigns/service.py:319 | blanks, and nothing else, are dropped from a number |
| OutboundEngine.Engine.SelectRecipients | app/workers/outbound_tasks.py:191-218 | the candidate loop with its early exit computes the specified selection and deferrals |
| OutboundEngine.Engine.DispatchCampaign | app/workers/outbound_tasks.py:124-301 | the worker's update of the tables is the specified dispatch step |
| OutboundEngine.Engine.ApplyEvent | app/modules/outbound_campaigns/service.py:699-812 | a provider event updates attempt, call, recipient, list and campaign as the specified event step |
| CallOutcomes.EventWritesItsRows | app/modules/outbound_campaigns/service.py:714-785 | an event writes its status on the attempt and what follows from it on the call, decides its recipient's status and next attempt, and touches no other row |
| CallOutcomes.UnansweredCallWaitsForTheDelay | app/modules/outbound_campaigns/service.py:726-741 | no run repeats a call reported busy, unanswered or failed before the retry delay has passed since the report, and then it is due |
| CallOutcomes.ListedExactlyAfterStep | app/modules/outbound_campaigns/service.py:751-765 | a number is on the do-not-call list after a step if and only if it was before or the step is an event on an existing attempt that reports an opt-out of a recipient with that number |
| CallOutcomes.ListHoldsExactlyTheOptOuts | app/modules/outbound_campaigns/service.py:751-765 | over any run the list is the first one and exactly the numbers that opted out |
| CallOutcomes.OptOutHoldsForLaterImports | app/modules/outbound_campaigns/service.py:349-374 | a number that opted out in a run is blocked in every later import, and its row is then called by no run that keeps the list |
| OutboundEngine.Engine.SetCampaignStatus | app/modules/outbound_campaigns/service.py:538-573 | a status change is the specified step: it is made only from the allowed states and cancels waiting and queued recipients only |
| OutboundEngine.Engine.Validate | app/modules/outbound_campaigns/service.py:418-449 | the counts say exactly whether somebody may be called and a broadcast has its audio |
| OutboundEngine.Engine.StartCampaign | app/modules/outbound_campaigns/service.py:520-536 | a start is the specified step, from whatever status |
| OutboundEngine.Engine.ScheduleCampaign | app/modules/outbound_campaigns/service.py:505-518 | scheduling is the specified step, from whatever status |
| OutboundEngine.Engine.UpdateCampaign | app/modules/outbound_campaigns/service.py:220-240 | an edit is the specified step and is refused exactly outside draft, ready and paused |
| OutboundEngine.Engine.DispatchDue | app/workers/outbound_tasks.py:91-106 | exactly the scheduled campaigns whose time has come start running |
| OutboundEngine.Engine.ImportList | app/modules/outbound_campaigns/service.py:267-391 | an import is the specified step, adds exactly the accepted rows and keeps numbers distinct |
| OutboundEngine.Engine.HandleAll | app/workers/outbound_tasks.py:81-301 | the operations driven over any requests end in the specified state, with attempts numbered and bounded, both caps under the exact condition above, and a row for every call |
| LedgerLaws.SettlingConservesExactly | app/modules/billing/stripe_service.py:297-323 | a Stripe settlement keeps total, paid, due, status and payments in agreement if and only if its reference is new |
| LedgerLaws.UsedReferenceBreaksTheLedger | app/modules/billing/stripe_service.py:305-322 | a settlement under the reference of an earlier payment marks its invoice paid without one |
| LedgerLaws.RecordingConserves | app/modules/billing/service.py:556-608 | every manual payment, partial or final, accepted or refused, keeps the ledger conserved |
| LedgerLaws.ReplayChangesNothing | app/modules/billing/service.py:568-584 | a used reference never changes the books, and is answered as a success exactly for a non-empty reference, the same invoice, still open, and the same amount |
| LedgerLaws.FinalPaymentRepeatedIsAConflict | app/modules/billing/service.py:564-584 | the payment that settles an invoice is a conflict when it is sent again |
| PaymentEffects.PaymentIsRecordedExactlyWhenTaken | app/modules/billing/service.py:556-638 | a manual payment is recorded if and only if it is positive, at most what an open invoice is due, under a new reference and, in full, for a plan and subscription that exist; a part lowers the amount due by itself, and the whole pays the invoice and makes its plan current for a period as long as the last, or thirty days |
| PaymentEffects.RefusalsAreExact | app/modules/billing/service.py:556-608 | each refusal of a manual payment has its condition, in the order of the checks, and the repeat of a recorded payment is answered as a success |
| LedgerLaws.VoidIsAlwaysRefused | app/modules/billing/models.py:154-157 | in a conserved ledger no void is ever committed |
| LedgerLaws.ConservedInvoicesMeetTheCheck | app/modules/billing/models.py:154-157 | in a conserved ledger every invoice that is not void meets the constraint: what is paid and what is due make the total |
| BillingOutcomes.TheConstraintRefusesVoids | app/modules/billing/service.py:640-656 | the constraint refuses the void of an open unpaid invoice if and only if it has a total |
| LedgerLaws.ServingConserves | app/modules/billing/service.py:231-290 | plan changes, checkouts, payments, invoices, voids and cancellations all conserve the ledger |
| LedgerLaws.HandlingConservesExactly | app/modules/billing/stripe_service.py:248-263 | a Stripe event conserves the ledger if and only if it settles nothing or settles under a new reference |
| PaymentEffects.CheckoutFailsExactlyUnlessAccepted | app/modules/billing/stripe_service.py:265-299 | a paid checkout fails if and only if its metadata do not name an invoice with its company and plan, or that is open and amount, currency or plan do not fit; a failed delivery changes no table and records no identifier |
| PaymentEffects.CheckoutPaysExactlyWhenAccepted | app/modules/billing/stripe_service.py:296-330 | a checkout brings an open invoice to paid if and only if it is paid, names it and is accepted; the invoice is then settled in full by one payment of the amount due, its plan is current, and Stripe's identifiers are kept |
| PaymentEffects.StripeInvoiceFailsExactlyOnAMismatch | app/modules/billing/stripe_service.py:332-385 | a paid Stripe invoice fails if and only if it is about an open local invoice and amount, currency or plan do not fit; a failed delivery changes no table and records no identifier |
| PaymentEffects.StripeInvoicePaysExactlyOnAMatch | app/modules/billing/stripe_service.py:369-395 | it brings an open local invoice to paid if and only if it is about it and fits, and then settles it in full by one payment |
| PaymentEffects.StripeInvoiceIsCopiedExactlyWhenUnknown | app/modules/billing/stripe_service.py:396-443 | it is copied if and only if it has a payer and an amount and no local invoice: as paid in full with the event's amount, and one payment of it unless the reference is used |
| Webhooks.RepeatsDoNotMatter | app/modules/billing/stripe_service.py:230-263 | a run equals the run without the deliveries of events already committed |
| Webhooks.EveryEventTakesEffectOnce | app/modules/billing/stripe_service.py:238-263 | with duplicates and failing handlers, a run equals one in which each committed event is handled once, and exactly those events are recorded |
| Webhooks.LedgerIsConservedOverRuns | app/modules/billing/stripe_service.py:230-443 | the ledger is conserved in every state of a run if and only if no committed settlement meets its reference already used |
| Webhooks.AttributedRunsNeverResettle | app/modules/billing/stripe_service.py:230-443 | that is so whenever every reference belongs to one invoice and manual payments use none of them |
| Settlement.CheckoutThenInvoice | app/modules/billing/stripe_service.py:265-443 | the exact books after the checkout event and then the invoice event of one first payment |
| Settlement.InvoiceThenCheckout | app/modules/billing/stripe_service.py:265-443 | the exact books after the same events in the other order |
| Settlement.SettlementIsOrderIndependent | app/modules/billing/stripe_service.py:265-443 | both orders succeed and agree on the paid invoice, one payment of the amount, the plan and no pending plan; the period lengths agree if and only if the reported and the present period meet the stated equation |
| Settlement.LengthsByReportedEnds | app/modules/billing/stripe_service.py:357-367 | the equation for each of the four ways to report the period: with both ends, that the period is not empty; with neither, always; with one, that it happens to meet the other |
| Settlement.OneEndedPeriodsDiffer | app/modules/billing/stripe_service.py:357-367 | a period reported without its end gives different lengths in the two orders |
| Settlement.AnyDeliveryPatternSettlesOnce | app/modules/billing/stripe_service.py:230-443 | however the two events are repeated, ordered and failed, once each gets through the invoice is paid by exactly one payment and the plan is current |
| PlanLaws.RequestsKeepTheLaw | app/modules/billing/service.py:231-290 | a local request keeps "a plan is pending if and only if exactly one open plan-change invoice asks for it" if and only if it is not an administrator's plan-change invoice |
| PlanLaws.EventsKeepTheLaw | app/modules/billing/stripe_service.py:457-499 | a Stripe event keeps that law if and only if it is not a subscription update that names a known price while a plan is pending |
| PlanLaws.PendingLawHoldsOverRuns | app/modules/billing/stripe_service.py:113-141 | the law holds in every state of a run if and only if no step commits one of those two |
| PlanLaws.PlanBecomesCurrentExactlyWhenPaid | app/modules/billing/service.py:610-638 | unless the company takes a free plan or its own subscription is repriced, another plan becomes current for it in a step if and only if the step brings an open invoice for it to full payment |
| PlanLaws.NoPaidPlanWithoutAPaidInvoice | app/modules/billing/service.py:231-290 | over every run in which its subscription is not repriced, a company has its first plan, a free one, or one with a paid invoice |
| BillingOutcomes.PlanChangesAreExact | app/modules/billing/service.py:231-290 | a plan on sale other than the present is taken unless a change is pending: at once when it is free, else by an open invoice for its price |
| BillingOutcomes.CheckoutsAreAnsweredExactly | app/modules/billing/stripe_service.py:83-173 | a checkout succeeds if and only if the plan is paid and known to Stripe, no live Stripe subscription and no other unpaid change exist, and Stripe gives a customer and a session; each failure has its condition |
| BillingOutcomes.CheckoutsAreExact | app/modules/billing/stripe_service.py:113-173 | it leaves the plan pending, the session on the open or a new invoice, and the customer; a failure leaves nothing, but for a customer Stripe has created and its invoice |
| BillingOutcomes.BillsAreExact | app/modules/billing/service.py:474-500 | an administrator's invoice is open for amount and tax together, in upper-case currency |
| BillingOutcomes.VoidsAreExact | app/modules/billing/service.py:640-656 | without the constraint exactly an open invoice without payments is voided, and the pending plan goes with it |
| BillingOutcomes.CancellationsAreExact | app/modules/billing/service.py:292-302 | a subscription that is neither cancelled nor expired is set to end with its period, or to go on |
| BillingOutcomes.UpdatesAreExact | app/modules/billing/stripe_service.py:457-499 | a subscription update writes status and period where Stripe gives them, the cancellation always, and a known price makes its plan current |
| BillingOutcomes.FailuresAndDeletionsAreExact | app/modules/billing/stripe_service.py:445-511 | a failed payment makes the subscription past due, a deletion cancels it, and nothing else changes |
| BillingOutcomes.UnknownSubscriptionsChangeNothing | app/modules/billing/stripe_service.py:445-511 | an event about a subscription no company has changes nothing |
| Tenancy.RequestsStayWithinTheirCompany | app/modules/billing/service.py:231-290 | a billing request changes rows of one company only, the one it is made for or whose invoice it names |
| Tenancy.EventsStayWithinTheirParties | app/modules/billing/stripe_service.py:248-261 | a Stripe event changes rows only of the company whose subscription it is about and the company whose local invoice it settles |
| BillingEngine.Service.CreateCheckout | app/modules/billing/stripe_service.py:83-173 | so does the checkout, with a new customer committed before the session is asked for and everything later rolled back on a failure |
| BillingEngine.Service.RecordPayment | app/modules/billing/service.py:556-608 | a manual payment updates the tables as specified, and an activation error rolls it back |
| BillingEngine.Service.VoidInvoice | app/modules/billing/service.py:640-656 | a void updates the tables as specified, and the constraint rolls it back at the commit |
| BillingEngine.Service.CheckoutCompleted | app/modules/billing/stripe_service.py:265-330 | the handler computes the specified books or error |
| BillingEngine.Service.InvoicePaid | app/modules/billing/stripe_service.py:332-443 | the handler computes the specified books or error |
| BillingEngine.Service.ProcessWebhook | app/modules/billing/stripe_service.py:230-263 | a delivery either commits its effects together with its identifier or leaves everything as it was |
| BillingEngine.Service.Answer | app/modules/billing/service.py:231-656 | every local request answers as specified, conserves the ledger and changes rows of its own company only |
| BillingEngine.Service.HandleAll | app/modules/billing/stripe_service.py:230-263 | the handlers driven over any sequence of requests and deliveries end in the specified state, conserved and with pending plans tied to their invoices under the exact conditions above |
| Knowledge.FittingIsLongest | app/modules/dashboard/internal_router.py:301-312 | a prefix of the entries fits the budget if and only if it is no longer than the one chosen |
| Knowledge.EntriesFitTheBudget | app/modules/dashboard/internal_router.py:299-326 | questions and chunks together stay within the budget |
| Knowledge.FillSnapshot | app/modules/dashboard/internal_router.py:299-326 | the two loops take the longest prefix of questions and then the longest prefix of chunks that still fits |
| KnowledgeView.SnapshotsAreAsLongAsTheyCanBe | app/modules/dashboard/internal_router.py:299-326 | a snapshot is a first part of the questions and a first part of the chunks within the budget, and one more of either would break it |
| KnowledgeView.ItemsAreSeenExactly | app/modules/dashboard/internal_router.py:273-285 | an agent sees exactly the active questions that are its own or company-wide, in order of creation, each with its question and answer |
| KnowledgeView.ChunksAreSeenExactly | app/modules/dashboard/internal_router.py:286-298 | and exactly the chunks of completed documents that are its own or company-wide, document by document and chunk by chunk |
| Knowledge.TemplatesAreIdempotent | app/modules/knowledge_base/service.py:125-176 | applied again in the same scope, a template adds nothing |
| KnowledgeView.TemplateAddsExactly | app/modules/knowledge_base/service.py:136-165 | a template adds exactly those of its questions that the scope does not hold, in its order, active and with their answers |
| KnowledgeView.ChangesAreExact | app/modules/knowledge_base/service.py:86-123 | every change adds rows at the end, or rewrites or clears the one row it names |
| Knowledge.KnowledgeBase.CreateItem | app/modules/knowledge_base/service.py:86-97 | the item is appended and the version moves by one |
| Knowledge.KnowledgeBase.UpdateItem | app/modules/knowledge_base/service.py:99-112 | an existing item is replaced and the version moves; a missing one changes neither |
| Knowledge.KnowledgeBase.DeleteItem | app/modules/knowledge_base/service.py:114-123 | an existing item is removed and the version moves; a missing one changes neither |
| Knowledge.KnowledgeBase.ApplyTemplate | app/modules/knowledge_base/service.py:125-176 | exactly the missing questions are added, the counts add up, and the version moves only if there were any |
| Knowledge.KnowledgeBase.DeleteDocument | app/modules/knowledge_base/service.py:317-329 | the document and its chunks go and the version moves |
| Knowledge.KnowledgeBase.ProcessDocument | app/workers/knowledge_tasks.py:59-107 | success replaces the chunks, completes the document and moves the version; failure only marks the document |
| Snapshots.SnapshotsAreCoherent | app/modules/dashboard/internal_router.py:267-298 | under every interleaving of writers and readers, a snapshot labelled v shows the tables after initial parts of the history that contain every change whose increment produced a version up to v |
| Snapshots.CachedKnowledgeIsCurrent | app/modules/dashboard/internal_router.py:267-331 | a call that resolves the current version and finds it cached misses no change whose increment is done |
| Snapshots.LabelReadLastIsIncoherent | app/modules/dashboard/internal_router.py:267-285 | the order of the reads is needed: with the items read before the version, a snapshot can miss a change its label claims |
| Snapshots.UndisturbedWriteIsTheChange | app/modules/knowledge_base/service.py:86-123 | a change and its increment that nobody disturbs change the tables and move the version by one |
| Snapshots.UndisturbedReadIsTheView | app/modules/dashboard/internal_router.py:267-331 | three reads that nobody disturbs give what the agent sees of the tables, under their version |
| Capacity.CreatesEndWithinTheLimit | app/modules/billing/entitlements.py:79-106 | in every interleaving, also with plan changes, a step that adds an agent or integration ends within the limit then in force |
| Capacity.PlanLimitsHoldUnderConcurrency | app/modules/billing/entitlements.py:79-106 | under a fixed plan the committed rows never exceed its limits, for any number of concurrent creates, failures and deletions |
| Capacity.CreateSucceedsExactlyWithRoom | app/modules/agents/service.py:94-110 | undisturbed, a create adds one row if and only if there is room |
| Capacity.RowsAndLimitsMoveExactly | app/modules/billing/entitlements.py:79-106 | rows come by commits and go by deletions, limits change only while the subscription row is free, and a create without entitlement ends at its lock |
| Capacity.WithoutTheLockTheLimitBreaks | app/modules/billing/entitlements.py:84-97 | the lock is needed: with one place left and no lock, two creates both get in |
| Auth.FailuresAreSpaced | app/modules/auth/service.py:158-169 | no wrong password is checked during a lock, and from the limit on each one sets a new lock |
| Auth.LockoutBound | app/modules/auth/service.py:158-182 | without a successful login or reset, from any counter, the n-th wrong password is checked at least (n - first) lock times after the one that brought the counter to the limit |
| AuthOutcomes.LoginIsExact | app/modules/auth/service.py:158-185 | a login succeeds if and only if the user is not locked, the password is right, the user active and verified and the company open; each failure has its condition; a wrong password is counted and locks from the limit on, and no other failure changes anything |
| AuthRaces.CountsAllExactlyWhenNobodyOverwrites | app/modules/auth/service.py:165-169 | under every interleaving the failure counter counts all wrong passwords if and only if nobody writes over a counter changed since it was read |
| AuthRaces.TwoGuessesCountOnce | app/modules/auth/service.py:165-169 | two wrong passwords checked before either is written count as one |
| AuthRaces.UndisturbedGuessIsTheLogin | app/modules/auth/service.py:165-169 | a check and its write that nobody disturbs are one failed login |
| Auth.TokensAreSingleUse | app/modules/auth/service.py:187-258 | over any run every refresh, verification and reset token is redeemed at most once |
| AuthRaces.RotatedOnceExactlyWhenNobodyIsLate | app/modules/auth/service.py:187-220 | under every interleaving a refresh token is rotated at most once if and only if no worker finishes after it was spent |
| AuthRaces.TwoWorkersRotateTwice | app/modules/auth/service.py:196-220 | two workers that both look before either finishes rotate it twice |
| AuthRaces.UndisturbedRotationIsTheRefresh | app/modules/auth/service.py:187-220 | a look and its finish that nobody disturbs are one refresh |
| Auth.ResetEndsSessions | app/modules/auth/service.py:310-331 | after a password reset no earlier refresh token of the user is ever redeemed |
| AuthOutcomes.ResetStoresThePassword | app/modules/auth/service.py:310-331 | after a reset the new password and no other opens the account, which is no longer locked; a reset succeeds exactly for a strong password and a good token |
| AuthOutcomes.ResetSpendsExactly | app/modules/auth/service.py:328-330 | it spends its own token and the user's open refresh tokens, and no other |
| AuthOutcomes.RefreshIsExact | app/modules/auth/service.py:187-220 | a refresh succeeds if and only if the token is good and its user may log in; the token is spent, and a new one lives exactly for its time |
| AuthOutcomes.VerificationIsExact | app/modules/auth/service.py:222-258 | a good token of a user with a company verifies and enables the user, opens a company that was waiting for it, and brings a session |
| AuthOutcomes.ResendIsExact | app/modules/auth/service.py:260-290 | a verification mail is sent if and only if the user is known and unverified and the latest token at least a minute old; it replaces the open ones |
| AuthOutcomes.ForgotIsExact | app/modules/auth/service.py:292-308 | a reset mail is sent if and only if the user is known and active; it replaces the open token |
| AuthOutcomes.SignupIsExact | app/modules/auth/service.py:84-143 | a strong password and a new address add an unverified user, a company that waits for it, and a token that lives exactly for its time |
| Auth.OneOpenTokenOverRuns | app/modules/auth/service.py:260-308 | in every state a user has at most one unused verification token and at most one unused reset token |
| Auth.SessionsAreForVerifiedUsers | app/modules/auth/service.py:158-258 | every session goes to an active user with a verified address, and the company admits its users unless, and only unless, an address is verified for a closed company |
| Auth.ClosedCompanyGetsASession | app/modules/auth/service.py:222-258 | an address verified after the company was suspended brings a session |
| Auth.DisabledUsersGetNoSessions | app/modules/auth/service.py:158-220 | over any run a disabled user gets no session until an administrator or a verification token that can be redeemed enables the account |
| AuthEngine.Service.InvalidateUnusedTokens | app/modules/auth/repository.py:40-54 | exactly the user's unused tokens of the kind are marked used |
| AuthEngine.Service.HandleAll | app/modules/auth/service.py:84-331 | the handlers driven over any requests end in the specified state; no token changes hands or becomes unused again, and nobody comes to hold two open verification or reset tokens |
| AuthEngine.Service.ResendVerification | app/modules/auth/service.py:260-290 | at most once a minute the open token is replaced by a new one |
| AuthEngine.Service.ForgotPassword | app/modules/auth/service.py:292-308 | the open reset token is replaced by a new one |
| AuthEngine.Service.ResetPassword | app/modules/auth/service.py:310-331 | the reset sets the password, clears the lock, spends its token and every open refresh token |
| HtmlExtractor.ParserReadsTheTree | app/modules/onboarding/website_analysis.py:22-68 | fed a well-nested page, the parser fails if and only if a visible `meta` has a bare `name`; otherwise text and links are the tree's, the depth is back at zero, and the title is the tree's if and only if no title text follows a nested title |
| HtmlExtractor.FlatTitlesAreNotInterrupted | app/modules/onboarding/website_analysis.py:43-44 | pages without nested titles lose no title text |
| HtmlExtractor.NestedTitleLosesText | app/modules/onboarding/website_analysis.py:52-58 | text after a nested title is missing from the collected title |
| PageTags.TagsAreKnownExactly | app/modules/onboarding/website_analysis.py:23-44 | in any case, exactly script, style, svg, noscript and template elements are skipped and exactly title elements hold the title |
| PageTags.LinksAreReadExactly | app/modules/onboarding/website_analysis.py:45-46 | a link is read exactly from an `a` whose last `href` is not empty |
| PageTags.DescriptionsAreReadExactly | app/modules/onboarding/website_analysis.py:47-50 | a description is read exactly from a `meta` named description whose last `content` is not empty |
| PageTags.BareMetasAreKnownExactly | app/modules/onboarding/website_analysis.py:47 | the handler raises exactly on a `meta` whose last `name` has no value |
| PageTags.TextIsReadExactly | app/modules/onboarding/website_analysis.py:60-68 | a piece of text keeps its words, and leaves nothing exactly when it is blank |
| HtmlExtractor.WebsiteParser.ReadPage | app/modules/onboarding/website_analysis.py:22-68 | the handlers driven over a well-nested page leave the tree's text and links in the fields and fail or lose title text under the exact conditions above |
| WebsiteAnalysis.CrawlIsSoundAndComplete | app/modules/onboarding/website_analysis.py:209-222 | no page is kept twice, added pages have content, the limit holds, and below the limit no reachable page with content is missing |
| WebsiteAnalysis.CrawlFailsExactlyWhenAPageRaises | app/modules/onboarding/website_analysis.py:209-222 | the whole crawl is abandoned if and only if, still below its limit, it meets a new page whose parsing raises |
| WebsiteAnalysis.ParsedPageHoldsTheText | app/modules/onboarding/website_analysis.py:263-268 | a well-nested page parses if and only if no visible `meta` has a bare `name`; its content is the words of the tree's text with one blank between neighbours, and its title the first 500 characters of the title's words unless text follows a nested title |
| WebsiteAnalysis.CleanTextIsItsWords | app/modules/onboarding/website_analysis.py:71-72 | cleaning gives the words of the parts, in order, with one blank between neighbours |
| WebsiteAnalysis.Crawl | app/modules/onboarding/website_analysis.py:184-227 | the loop keeps those pages, fails with the exception of a page, and otherwise fails exactly when no page has content |
| WebsiteAnalysis.BudgetIsAPrefix | app/modules/onboarding/website_analysis.py:276-285 | the pages sent hold exactly the first `remaining` characters of all pages, in order |
| WebsiteAnalysis.LimitPages | app/modules/onboarding/website_analysis.py:276-285 | the budget loop sends those pages |

## Left out

- Chunker.ChunkText: requires that an accepted overlap leaves three characters, because without it the loops need not end; `Chunker.HaltsExactlyWhenSound` states the exact condition.
- CampaignRuns.CapsHoldOverRuns: one dispatch is one atomic step; the code counts active recipients before it takes the subscription lock, and `DispatchRaces` says exactly what two dispatches at the same time can do to the caps.
- CampaignRuns.AttemptsAreNumberedAndBounded: each dispatch with its gateway answers is one step, so an event that arrives between two answers of the same dispatch is not interleaved.
- Auth.TokensAreSingleUse: one request is one step; `AuthRaces` states what simultaneous rotations do, and simultaneous redemptions of verification and reset tokens are left out.
- Auth.LockoutBound: one request is one step; `AuthRaces` states exactly when simultaneous wrong passwords are all counted.
- The bounds that the request schemas put on a campaign's terms are the predicate `Campaigns.InSchema`. They are premises only where a result needs them; elsewhere the terms are any integers, so the results hold for more than a request can carry.
- Raw tokens are abstract distinct values; JWT decoding, hashing and bcrypt are not modelled.
- HtmlExtractor.ParserReadsTheTree: stray and missing end tags are outside well-nested trees; tokenising HTML is the standard library's.
- Snapshots.SnapshotsAreCoherent: uploads, retries and failures change a document's status without a version increment, so they are part of the history and never among the changes a label promises.
- Capacity.PlanLimitsHoldUnderConcurrency: one company at a time; the entitlement check is a parameter of the lock step.
- `require_active_subscription` and `require_minutes_available`: their verdict is a parameter (`entitled`), and the sums over calls are not modelled.
- Time zones are fixed offsets or unknown; daylight saving time is not modelled.
- Clocks, Stripe's and the gateway's answers, parsed contact rows and fetched pages are parameters.
- Operators' own entries and deletions on the do-not-call list; `CallOutcomes.ListHoldsExactlyTheOptOuts` is about the modelled steps.
- Plans are fixed: creating, editing and deleting plans, and the assignment of subscriptions by administrators, are not modelled.
- A query without an order returns the earliest row; unique constraints on Stripe identifiers of subscriptions and invoices are not enforced by the model.
- Empty strings in Stripe payloads are read as absent identifiers; the currency and the paid amount are taken as given.
- Columns that no modelled decision reads (names, error texts, provider identifiers, recordings, durations) are left out.
- The limit on the number of import rows, the parsing of CSV, XLSX, PDF and DOCX files, and decoding are left out.
- Digits in phone numbers are ASCII digits; lower- and upper-casing is ASCII casing, which is exact for the names compared with.
- The Redis branch of the limiter: a fixed-window counter with its own semantics.
- Fetching, redirects, URL normalisation and the choice of candidate links.
- Routers, schemas, listings, reports, e-mail, storage, telephony provisioning and audio generation.
