# Recovery, metering and billing of the control plane

This project models the recovery and billing rules kept under `scripts/` and the browser
demo clock of `lifecycle.js`, and proves what they promise over whole runs. Everything that
is updated in place in the original is a class here, and every one of its methods is proved
equal to a function over an immutable value; the theorems are about those functions, over
every input, every run, every interleaving or every crash point.

| component | files |
|---|---|
| event ledger: fold, totals, dedupe, archive, outbox, restore | `EventFold`, `EvidenceMeans`, `FoldOverlap`, `EventTotals`, `SealedWindows`, `EventLedger`, `LedgerAnswers`, `DeliveryOrder`, `DeliveryTies`, `LedgerObject` |
| operation log: intentions, fencing, replay after a crash | `OperationLog`, `OperationInvariant`, `OperationReplay`, `OperationFencing`, `OperationLands`, `OperationFates`, `OperationRecords`, `OperationLogObject` |
| usage pricing: rate card, calendar, clipping, rounding | `RateCard`, `RateCardStore`, `RateAnswers`, `Calendar`, `CalendarDays`, `Pricing`, `PriceRun`, `PriceLines`, `PriceBill` |
| budget: stop protocol, overshoot, admission | `BudgetEnforcer`, `BudgetOrigins`, `BudgetGates`, `AdmissionGate` |
| outbox and webhooks | `Outbox`, `OutboxAnswers`, `OutboxRecorder`, `Webhooks`, `WebhookStates`, `WebhookCustomers`, `WebhookProcessor` |
| corrections and reconciliation | `Corrections`, `CorrectionAnswers`, `CorrectionRuns`, `CorrectionRecovery`, `BillingReconciler` |
| demo clock | `BoxClock`, `ClockStates` |
| create rate limit | `SlidingWindow` |

`Basics` holds the option type and two integer helpers.

## How the model reads

- Exceptions are values: a reply, a refusal, a `failed` or `raised` flag. A raise changes nothing
  unless the code had already written something, and then the model has written it too.
- Times are integer milliseconds, money is integer minor units, exact amounts are reals (only
  sums and one division by an integer occur). Ids that the code builds by gluing strings
  together are datatype values or tuples; outbox, operation and sandbox numbers are naturals.
- What the code gets from outside comes in as a value that every theorem quantifies over: the
  runtime's verdict per operation, which calls lose their response, what a stop call does, the
  payment verdict, the order in which a set of line keys is walked.
- The stop protocol is a step system: any number of enforcers, each between two lock
  acquisitions or inside a stop call, over one storage, each of which may die at any point.

- A method is proved equal to a function over values. What that function means is then said
  without it: the files `EvidenceMeans`, `LedgerAnswers`, `OperationLands`, `OperationFates`,
  `OperationRecords`, `RateAnswers`, `CalendarDays`, `BudgetOrigins`, `OutboxAnswers`,
  `WebhookStates`, `CorrectionAnswers` and `ClockStates` state answers and outcomes in terms of
  the submitted events, commands, rows and tables alone, so that a change to a rule and to the
  method that follows it shows up there.

## Where the code does less than a reader might expect

- `_fold` (scripts/resource_events.py:227-237) drops the open segment when a lease expires and no
  cut point is known; `EventFold.AccountedExactly` says which instants are then missing. A lease
  that claims to have been seen after it expired lets segments outrun the evidence
  (`EventFold.TidyExactly`), and segments overlap exactly when such a claim reaches past the start
  of a later allocation that is billed (`FoldOverlap.DisjointExactly`, with an input in
  `FoldOverlap.LateClaimOverlaps`).
- Two events of one resource with one fold key are ordered by arrival. Delivery order then shows
  exactly when the two are not a harmless tie: two state changes other than two stops, two openings
  of the same quantity or two lease expiries with the same observation (`DeliveryTies.TiesExactly`).
- Corrections are guarded by their instants only, so one past the end of what is sealed can still
  restate a sealed total (`SealedWindows.SealedTotalRestated`). With everything before an instant
  sealed it does so exactly when it finds an allocation from before that instant and changes how
  far that allocation is confirmed up to it (`SealedWindows.SealedTotalsExactly`).
- Only a resume clears the reconciliation mark, so a reconciliation from before a loss opens the
  sandbox after it (`OperationFates.EarlierReconciliationCounts`). A lost sandbox can be changed
  exactly if it was reconciled since its last resume (`OperationFates.LostOpensExactly`).
- Replacing a future rate row can open an unpriced hole: coverage survives exactly when the new
  row spans the old one (`RateCards.ReplacementKeepsCoverageExactly`).
- A sealed window whose end lies before its start is not refused and makes clipped spans overlap
  (`Pricing.ClipSafeExactly`).
- Which customer an object belongs to depends on delivery order exactly when two events on it name
  different customers (`WebhookCustomers.CustomersExactly`). A customer's `customer_state` depends
  on order exactly when some such object says more than every object that can only be the
  customer's (`WebhookCustomers.CustomerStateExactly`).
- A recovered correction records the new correction's amount, not the one the provider booked
  (scripts/billing_reconcile.py:378-380). The two agree exactly when the line's gap at recovery is
  the gap the lost write was built from (`CorrectionRecovery.RecoveredAgreesExactly`);
  `CorrectionRuns.RecoveredMayDisagree` gives an input where they differ. Without a status query
  a lost acknowledgement makes the id arrive twice (`CorrectionRuns.ArrivesAgainExactly`).
- A stop that timed out is never confirmed by the enforcer, so the phase `blocked_stop_pending`
  is as final as `blocked_stopped` (`BudgetEnforcer.PendingIsFinal`).
- `restoreClock` is a pure shift only for boxes without anchors in the future and without
  negative time (`BoxClock.RestoreIsShiftExactly`); every reachable box is one.

## Model

| member | source | states |
|---|---|---|
| EventFold.FoldOrderSorts | scripts/resource_events.py:207-211 | the fold order is a sorted rearrangement of the events |
| EventFold.FoldOrderIsStable | scripts/resource_events.py:207-211 | events with equal fold keys keep their append order |
| EventFold.Fold | scripts/resource_events.py:193-238 | the folding loop computes the specified projection |
| EventFold.FoldRefinesReading | scripts/resource_events.py:193-238 | at every millisecond the folded segments say exactly what the events say, read one instant at a time without any fold |
| EventFold.TidyExactly | scripts/resource_events.py:193-238 | segments are non-empty, ordered, disjoint and within the evidence at every point of the history if and only if no lease in force claims an observation after its expiry |
| EventFold.AccountedExactly | scripts/resource_events.py:227-237 | every instant of an ended allocation is in a segment with its quantity, unless the lease ended it with no cut point, and only then |
| EventFold.OneSegmentPerInstant | scripts/resource_events.py:203-205 | no instant is in two segments, so none is both confirmed and uncertain |
| EvidenceMeans.ReadingOrder | scripts/resource_events.py:207-211 | events are read by effective time, a lease expiry after everything else of its instant |
| EvidenceMeans.BilledUntilEnded | scripts/resource_events.py:212-238 | kind by kind: from its start to what ends it an allocation is confirmed, except that an expiry confirms it up to the stated observation, up to the last heartbeat where none is stated, and not at all where it is stated as unknown |
| EvidenceMeans.BilledOnlyUntilEnded | scripts/resource_events.py:212-238 | and a projection says something about no other instant |
| EvidenceMeans.StillOpen | scripts/resource_events.py:212-238 | the open allocation is the last start, if nothing ended it |
| FoldOverlap.DisjointExactly | scripts/resource_events.py:193-238 | folded segments are pairwise disjoint if and only if no lease in force claims an observation past its expiry and inside a later billed allocation |
| FoldOverlap.ProjectionDisjointExactly | scripts/resource_events.py:193-249 | the same of any projection, whatever order its events were appended in |
| FoldOverlap.LateClaimOverlaps | scripts/resource_events.py:227-237 | the smallest such history and its two overlapping segments |
| EventTotals.Totals | scripts/resource_events.py:263-305 | the summary loop computes clipped confirmed totals per meter, unclipped uncertain time with its capacity ranges in order, and the open capacity; a resource without usage is not reported |
| EventTotals.RangesAreUncertain | scripts/resource_events.py:292-301 | the reported ranges are the uncertain segments, each as often as projected and in their order |
| EventTotals.TotalIsIntegral | scripts/resource_events.py:280-303 | a windowed total is the millisecond-by-millisecond sum of what the events say over the window |
| EventTotals.AdjacentWindowsAdd | scripts/resource_events.py:271-291 | totals of two adjacent windows add up to the total of their union |
| EventTotals.WholeTotalIsIntegral | scripts/resource_events.py:280-303 | the unwindowed total is the sum over all time up to the last event |
| SealedWindows.ReadingsSparedExactly | scripts/resource_events.py:193-238 | an event at or after b changes what the events say of no instant before b if and only if it finds no allocation from before b or leaves its confirmed reach up to b as it was |
| SealedWindows.SealedTotalsExactly | scripts/resource_events.py:321-366 | with everything before b sealed, a correction that is not flagged leaves every total over every window ending by b the same, as the events say them, if and only if it spares b |
| SealedWindows.SealedSegmentsExactly | scripts/resource_events.py:321-366 | the same of the clipped totals of the projected segments, where no lease claims an observation past its expiry |
| SealedWindows.SealedTotalRestated | scripts/resource_events.py:321-366 | the smallest restatement: an unflagged stop at 55 lifts a total sealed up to 50 from 20 to 50 |
| EventLedger.ReachableSound | scripts/resource_events.py:430-447 | in every reachable ledger, replaying its own events rebuilds its book, and the outbox index is the outbox's |
| EventLedger.RestoreExact | scripts/resource_events.py:414-447 | restoring the image of any reachable ledger never fails and gives back the same ledger, archive, sequence numbers, outbox and flags included |
| EventLedger.NothingProjectedIsLost | scripts/resource_events.py:240-249 | a segment that was ever projected stays in the projection or the archive for the rest of the run |
| EventLedger.ReachableShaped | scripts/resource_events.py:97-121 | in every reachable ledger the indexes agree with the event list and each resource is numbered 1, 2, 3, ... without a gap |
| LedgerAnswers.AnswersExactly | scripts/resource_events.py:97-172 | over every run, from the stored events alone: duplicate exactly for content on record, quarantined exactly for a known id or source key with other content, stored otherwise unless the caller dictates another number; and what each receipt says |
| LedgerAnswers.NothingIsDropped | scripts/resource_events.py:97-187 | over every run each submitted event is on record, or in the quarantine under a number with its own flag, or flagged as a correction that touches a sealed period |
| LedgerAnswers.NothingIsInvented | scripts/resource_events.py:97-187 | over every run each stored event was submitted with that content, each quarantined one clashes with a stored one of other content, and flags are numbered 1, 2, 3, ... and each stands for one or the other reason |
| LedgerAnswers.ArchivedExactly | scripts/resource_events.py:240-249 | an appended event archives exactly the segments of its resource that are no longer projected, with itself as the cause |
| LedgerAnswers.CommittedIsNotified | scripts/resource_events.py:372-389 | over every run each committed event that is not quarantined has its notice in the outbox |
| LedgerAnswers.NoticesAreHonest | scripts/resource_events.py:372-400 | over every run notices are numbered 1, 2, 3, ..., each for a stored event committed with it, none twice, and delivered exactly if that was marked since the entry exists |
| DeliveryOrder.RearrangedFold | scripts/resource_events.py:193-238 | two sorted arrangements of the same events whose ties are all harmless fold alike |
| DeliveryOrder.DeliveryOrderIrrelevant | scripts/resource_events.py:97-172 | deliveries of the same identified events with harmless ties, in any order and with any redeliveries, give the same projection and gapless numbering |
| DeliveryTies.StepsExchangeExactly | scripts/resource_events.py:207-238 | the fold steps of two events with one key commute in every state if and only if the tie is harmless |
| DeliveryTies.TieShows | scripts/resource_events.py:97-121 | any other tie of two new events extends to a history, coherent apart from it, after which their arrival order changes the projection |
| DeliveryTies.TiesExactly | scripts/resource_events.py:97-121 | two new events with one key can be exchanged after every otherwise coherent history if and only if their tie is harmless |
| DeliveryTies.SharedKeyDependsOnOrder | scripts/resource_events.py:207-211 | the smallest input: two allocations at one instant |
| LedgerObject.EventLedger.Reproject | scripts/resource_events.py:240-249 | re-projection archives exactly the segments the new projection lost |
| LedgerObject.EventLedger.AppendEvent | scripts/resource_events.py:97-121 | append is the specified step: duplicate, quarantine, refused number, or stored and re-projected |
| LedgerObject.EventLedger.CommitWithOutbox | scripts/resource_events.py:372-389 | event and outbox entry under one sequence number, never a second entry |
| LedgerObject.EventLedger.MarkOutboxDelivered | scripts/resource_events.py:394-400 | marks the entry if there is one, changes nothing otherwise and says so |
| LedgerObject.EventLedger.ApplyCorrections | scripts/resource_events.py:341-366 | corrections hitting a sealed window are flagged, all others appended, in order |
| LedgerObject.EventLedger.ReplayEvents | scripts/resource_events.py:435-440 | replays persisted events and stops where one is not appended |
| LedgerObject.FromImage | scripts/resource_events.py:430-447 | the restored object is the specified restore, null exactly where that fails |
| OperationInvariant.StepInv | scripts/operation_reconcile.py:115-404 | every command keeps serialization, sequencing, the event trail and the rows' reports |
| OperationInvariant.RunInv | scripts/operation_reconcile.py:92-404 | so does every run |
| OperationLands.BoxFollows | scripts/operation_reconcile.py:115-442 | what each command makes of each sandbox in every reachable log, field by field; a verdict lands exactly on the operation its sandbox waits for and frees capacity only by confirmed removal |
| OperationLands.RowFollows | scripts/operation_reconcile.py:159-361 | what each command makes of each operation, field by field |
| OperationLands.NewBox | scripts/operation_reconcile.py:115-139 | only a creation adds a sandbox, reserved, certain and at version 1 |
| OperationLands.NewOp | scripts/operation_reconcile.py:239-277 | only an accepted request adds an operation, under the next number and at the accepted version |
| OperationLands.RequestAnswers | scripts/operation_reconcile.py:207-277 | the answer to every request: key, repeated destroy, version, pending operation, observed state, in that order; nothing changes unless it is accepted |
| OperationLands.StageReplies | scripts/operation_reconcile.py:279-361 | the answer to every write on an operation: unknown, outdated, decided, or its state now |
| OperationLands.BoxReplies | scripts/operation_reconcile.py:115-404 | the answer to every command on a sandbox |
| OperationLands.FlagsFollow | scripts/operation_reconcile.py:179-204 | exactly uncertain usage and unknown instances are flagged |
| OperationLands.UnnamedIsNumbered | scripts/operation_reconcile.py:117-118 | a sandbox without a name is called after the next number, in at least six digits |
| OperationFates.ReservedUntilRemoved | scripts/operation_reconcile.py:329-337 | in every run capacity is released if and only if some operation on the sandbox is confirmed and showed it destroyed |
| OperationFates.VerdictsHaveCauses | scripts/operation_reconcile.py:279-342 | in every run an operation is confirmed only by a success that shows its result, failed only by a failure with its error or by a reconciliation, and a timeout is neither |
| OperationFates.FirstVerdictCounts | scripts/operation_reconcile.py:304-342 | the first verdict on an undecided operation is its verdict after every run |
| OperationFates.ReportsNameVerdict | scripts/operation_reconcile.py:344-361 | what an operation reports is its request and then the verdict it reached |
| OperationFates.ReconciledExactly | scripts/operation_reconcile.py:159-177 | the reconciliation mark is set exactly from a reconciliation to the next accepted resume |
| OperationFates.LostStaysShut | scripts/operation_reconcile.py:407-442 | a sandbox lost without being reconciled since its last resume accepts nothing until a reconciliation, evidence on its state or the verdict it waits for |
| OperationFates.LostOpensExactly | scripts/operation_reconcile.py:407-442 | a lost sandbox can be changed if and only if it was reconciled since its last resume |
| OperationFates.EarlierReconciliationCounts | scripts/operation_reconcile.py:141-177 | the input: reconciled while active, lost afterwards, and a resume is accepted |
| OperationFates.KeysStandFor | scripts/operation_reconcile.py:219-228 | in every run a key is known if and only if a request was accepted under it, and it stands for that request |
| OperationFates.KeyIsFinal | scripts/operation_reconcile.py:219-228 | the same request under a key gets the same operation for ever, any other is refused |
| OperationRecords.EventsAreRight | scripts/operation_reconcile.py:473-520 | after every run each ledger event is a report on its operation's row or the expiry of a lease that was declared lost, with sandbox, generation and observation of that moment |
| OperationRecords.ReportsAreRecorded | scripts/operation_reconcile.py:473-520 | and every report on a row is in the ledger, a verdict with its outbox entry |
| OperationRecords.LossesAreRecorded | scripts/operation_reconcile.py:141-157 | and so is every loss |
| OperationFencing.OnePendingPerSandbox | scripts/operation_reconcile.py:207-277 | in every reachable log an operation without a verdict is its sandbox's pending one, carries the current generation, and is the only one |
| OperationFencing.SequenceRises | scripts/operation_reconcile.py:239-259 | along a sandbox's sequence accepted versions strictly rise and generations never fall |
| OperationFencing.ResumeRaisesByOne | scripts/operation_reconcile.py:417-428 | between neighbours of the sequence the generation rises by one at a resume and not otherwise |
| OperationFencing.SandboxesMoveForward | scripts/operation_reconcile.py:304-342 | versions and generations never fall and released capacity never comes back, over every run |
| OperationFencing.FencedChangesNothing | scripts/operation_reconcile.py:459-466 | an old-generation write or a late verdict changes nothing but a history list |
| OperationFencing.ErasureOfFencedWrites | scripts/operation_reconcile.py:279-404 | any run from any log ends in the same sandboxes, operations, ledger, clock and tickets as the run with all fenced submissions deleted |
| OperationFencing.VerdictIsFinal | scripts/operation_reconcile.py:315-319 | a terminal operation's state, result and error never change again |
| OperationReplay.ExecuteOk | scripts/operation_reconcile.py:75-89 | the runtime acts once per intention and always answers with the same verdict |
| OperationReplay.ScheduleKeeps | scripts/operation_reconcile.py:279-361 | whatever stages of whatever pipelines happen, repeat or stop short, the state they lead to stays the same |
| OperationReplay.ReplayConverges | scripts/operation_reconcile.py:363-382 | replay leaves every operation terminal and reported in exactly the state its verdict dictates, and executes exactly what was outstanding |
| OperationReplay.ReplayAtRest | scripts/operation_reconcile.py:363-369 | replaying a converged log changes nothing at all |
| OperationReplay.OneTerminalEvent | scripts/operation_reconcile.py:344-361 | a finished operation has exactly one terminal event, of its verdict, with an outbox entry |
| OperationReplay.RestoreLog | scripts/operation_reconcile.py:605-639 | restoring the image of any log that keeps the invariant gives back that log |
| OperationReplay.CrashConvergence | scripts/operation_reconcile.py:363-382 | crash between any two stages, restore, replay with the shared runtime: the state of every completed uncrashed run, one terminal event per operation, one effect per intention, and equally many ledger events, and a second replay changes nothing |
| OperationReplay.CrashMatrix | scripts/operation_reconcile.py:741-809 | for every reachable log, operation type, verdict and crash point the recovered run equals the clean one in state, effects and number of ledger events |
| OperationLogObject.RuntimeDouble.ExecuteOp | scripts/operation_reconcile.py:75-89 | memoising execution with its call and effect counters |
| OperationLogObject.OperationLog.RequestOp | scripts/operation_reconcile.py:207-277 | the object's request is the specified one: replay by key, repeat destroy, version check, serialization, acceptance |
| OperationLogObject.OperationLog.DispatchOp | scripts/operation_reconcile.py:279-289 | the object's dispatch is the specified one |
| OperationLogObject.OperationLog.TimeoutOp | scripts/operation_reconcile.py:291-302 | the object's timeout is the specified one, never a failure |
| OperationLogObject.OperationLog.SettleOp | scripts/operation_reconcile.py:304-342 | the object's verdict step is the specified one, fenced and late verdicts included |
| OperationLogObject.OperationLog.EmitOperationEvent | scripts/operation_reconcile.py:344-361 | the object's terminal emission is the specified one |
| OperationLogObject.OperationLog.ReplayAll | scripts/operation_reconcile.py:363-382 | the object's replay loop is the replay the theorems are about |
| OperationLogObject.OperationLog.SubmitEvidence | scripts/operation_reconcile.py:384-404 | evidence with generation fencing |
| OperationLogObject.OperationLog.MarkSandboxLost | scripts/operation_reconcile.py:141-157 | lost keeps the reservation and emits the lease expiry |
| OperationLogObject.OperationLog.MarkSandboxReconciled | scripts/operation_reconcile.py:159-177 | reconciliation fails and reports what was outstanding and opens the sandbox |
| OperationLogObject.OperationLog.MarkSandboxUncertain | scripts/operation_reconcile.py:179-187 | flags uncertain usage and touches nothing else |
| OperationLogObject.OperationLog.Create | scripts/operation_reconcile.py:115-139 | a sandbox under the given or a numbered name, refused if taken |
| RateCards.AtMostOneTruncated | scripts/usage_engine.py:181-216 | an insert truncates at most one row |
| RateCards.UpsertCard | scripts/usage_engine.py:161-216 | unique identities and disjoint rows per price key survive every upsert |
| RateCards.RunCard | scripts/usage_engine.py:161-304 | and every run of upserts and provider syncs |
| RateCards.HistoryIsImmutable | scripts/usage_engine.py:151-159 | the terms covering an instant that has passed never change, over any run |
| RateCards.TermsUnique | scripts/usage_engine.py:137-149 | on a card that keeps its invariant an instant has one price per price key |
| RateCards.SyncNeverReprices | scripts/usage_engine.py:263-304 | a sync gives no price to an instant that has passed without one |
| RateCards.InsertNeverUnprices | scripts/usage_engine.py:181-216 | an insert that replaces nothing leaves every covered instant covered |
| RateCards.ReplacementKeepsCoverageExactly | scripts/usage_engine.py:205-215 | a replacement keeps all coverage if and only if the new row spans the replaced one |
| RateCards.RateConstant | scripts/usage_engine.py:228-256 | between two boundaries the rate found does not change |
| RateCards.AmbiguityIsAboutCurrency | scripts/usage_engine.py:228-245 | on a card that keeps its invariant only two currencies can make a lookup ambiguous |
| RateAnswers.LookupFinds | scripts/usage_engine.py:228-245 | whatever the rows, a lookup finds a row of the meter in force, of exactly the state if there is one and for every state only if there is none; it finds nothing if and only if neither sort is in force |
| RateAnswers.AmbiguousExactly | scripts/usage_engine.py:228-245 | on a card it is ambiguous if and only if two rows of the sort that counts are in force |
| RateAnswers.UpsertAnswers | scripts/usage_engine.py:106-216 | the answer to every upsert from the stored rows alone: unchanged, immutable history, or taken if and only if every row of its price that it meets makes way; and which rows are cut short |
| RateAnswers.TakenRowPrices | scripts/usage_engine.py:181-216 | a row that is taken prices its whole range on its own terms, and every other price of every other instant stays, but for what a replaced row priced |
| RateAnswers.SyncTakes | scripts/usage_engine.py:263-304 | a provider's row is taken as an upsert would take it if it is new and lies in the future, and not at all otherwise |
| RateAnswers.SyncReports | scripts/usage_engine.py:263-304 | and the report says so |
| RateCardStore.RateCard.InsertRow | scripts/usage_engine.py:181-216 | the object's insert is the specified one, a refusal changes nothing |
| RateCardStore.RateCard.UpsertRow | scripts/usage_engine.py:161-179 | the object's upsert is the specified one and keeps the card invariant |
| RateCardStore.RateCard.SyncFromProvider | scripts/usage_engine.py:263-304 | the object's sync is the specified one, with one reported outcome per row |
| RateCardStore.RateCard.RateAt | scripts/usage_engine.py:228-245 | the lookup scan finds the specified rate, gap or ambiguity |
| Calendar.MonthBoundaries | scripts/usage_engine.py:70-82 | exactly the UTC month starts strictly inside the span |
| Calendar.MonthConstant | scripts/usage_engine.py:65-82 | between two month starts the month key does not change |
| CalendarDays.MonthsStartAtDays | scripts/usage_engine.py:65-82 | month starts are those of the Gregorian calendar: 365 days a year, one for each leap year between, and the days before the month |
| Pricing.OutsideSealed | scripts/usage_engine.py:308-324 | the clipping loops compute the specified spans |
| Pricing.OutsideSealedExact | scripts/usage_engine.py:308-324 | what is left is exactly the set difference with all sealed windows, as non-empty, ordered, disjoint spans |
| Pricing.ClipSafeExactly | scripts/usage_engine.py:313-323 | clipping by a window keeps every span ordered if and only if the window runs forward or ends at zero |
| Pricing.ConstantSpan | scripts/usage_engine.py:377-407 | without a month or rate boundary inside, one multiplication prices a span millisecond by millisecond |
| PriceRun.PriceSpan | scripts/usage_engine.py:366-407 | pricing a span cut by cut books its per-millisecond sum into every row; it fails exactly if some instant is ambiguous |
| PriceRun.PriceMeters | scripts/usage_engine.py:327-356 | every meter of a segment over its clipped spans |
| PriceRun.PriceSegments | scripts/usage_engine.py:359-407 | the pricing loop books all segments; it fails exactly for a backwards segment or an ambiguous instant |
| PriceRun.PriceIsPerMillisecond | scripts/usage_engine.py:327-407 | every confirmed, estimated or unpriced row is the sum over all billable milliseconds of quantity times the rate then in force, and units are conserved per meter |
| PriceRun.CuttingChangesNothing | scripts/usage_engine.py:369-407 | cutting a segment anywhere changes no row |
| PriceRun.ReorderingChangesNothing | scripts/usage_engine.py:369-407 | reordering segments changes no row |
| PriceLines.RoundFraction | scripts/usage_engine.py:53-62 | the integer formula is half-up rounding of the fraction |
| PriceLines.RoundIsNearest | scripts/usage_engine.py:53-62 | one rounding moves an amount by at most half a unit and is symmetric in sign |
| PriceLines.RoundLines | scripts/usage_engine.py:409-418 | one line per row of its kind, rounded once and naming the rate versions that priced it, and totals of rounded lines |
| PriceLines.AddFrozen | scripts/usage_engine.py:420-424 | frozen lines enter the totals unchanged |
| PriceBill.FrozenIsAll | scripts/usage_engine.py:420-424 | what sealed periods carry into a total is what all their frozen lines come to |
| PriceBill.FrozenAddsUp | scripts/usage_engine.py:420-424 | frozen amounts are plain sums per currency |
| PriceBill.AdjustmentsAddUp | scripts/usage_engine.py:426-436 | so are adjustments |
| PriceBill.LinesAddUp | scripts/usage_engine.py:409-418 | and rounded lines |
| PriceLines.TotalsWithinHalf | scripts/usage_engine.py:409-418 | a total differs from the exact sum by at most half a minor unit per line |
| PriceBill.BillUnits | scripts/usage_engine.py:409-441 | lines, estimates and unpriced gaps together hold every unit of the tables once |
| PriceBill.UncertainMillis | scripts/usage_engine.py:359-407 | the uncertain time of the price result is the per-millisecond count over the billable instants |
| RateAnswers.UseGrows | scripts/usage_engine.py:327-407 | units and uncertain time grow by the quantity, and by one per used meter, with every further billable millisecond |
| PriceBill.Price | scripts/usage_engine.py:359-461 | the whole of price: lines, estimates and gaps are exactly the due rows of per-millisecond pricing, lines and estimates rounded once each with the rates used, their units together are all units used, totals are frozen amounts plus the exact amount due up to half a unit per line, estimates stay out of them, adjustments pass through with their own totals |
| RateAnswers.DueGrows | scripts/usage_engine.py:327-407 | per-millisecond pricing grows segment by segment and instant by instant, by what the instant is billed at for every meter with a quantity |
| RateAnswers.BilledAt | scripts/usage_engine.py:377-407 | an instant is billed at the row of its own state if one is in force, else at the row for every state, into the one row of its month, workspace, currency and meter |
| RateAnswers.UnbilledAt | scripts/usage_engine.py:327-407 | nothing is billed outside the period or inside a sealed window, and what no row covers is left unpriced |
| RateAnswers.LinesNameWhatCounted | scripts/usage_engine.py:377-418 | every version a line names is the one that counted at some billable instant of a segment; a row for every state only while no row of its state was in force |
| BudgetEnforcer.StepInv | scripts/budget_gates.py:498-579 | every step of every interleaving, deaths included, keeps the protocol invariant |
| BudgetEnforcer.RunInv | scripts/budget_gates.py:498-579 | so does every run |
| BudgetEnforcer.OneCallPerResource | scripts/budget_gates.py:542-566 | no resource is ever sent two stops |
| BudgetEnforcer.CallsFollowTheirMark | scripts/budget_gates.py:551-557 | every stop call comes after a durable save that plans it and marks it issued |
| BudgetEnforcer.RecordIsHonest | scripts/budget_gates.py:533-540 | confirmed within issued within planned, none twice; a non-empty plan is stopped if and only if all of it is confirmed, each by one call; pending names a stop nobody confirmed |
| BudgetEnforcer.StoppedIsFinal | scripts/budget_gates.py:533-540 | once everything is confirmed no step changes the record |
| BudgetEnforcer.PendingIsFinal | scripts/budget_gates.py:560-569 | after a recorded timeout the record stays pending |
| BudgetEnforcer.FinalForever | scripts/budget_gates.py:498-579 | both final phases survive every continuation |
| BudgetEnforcer.BlockSurvives | scripts/budget_gates.py:498-523 | plan and figures of the block never change, issued, confirmed and alerts only grow |
| BudgetEnforcer.FinishedMeansIssued | scripts/budget_gates.py:542-579 | an enforcer that ran to its end leaves no planned stop unissued |
| BudgetOrigins.BlockIsOrdered | scripts/budget_gates.py:485-514 | in every run the stored block carries exactly the spend, limit, time and resources one enforcer was started with |
| BudgetOrigins.WantedAreStopped | scripts/budget_gates.py:485-579 | enforcers started with the same resources leave all of them issued when they finish, and phase stopped means one stop call and one receipt for each |
| BudgetOrigins.ConfirmedOnReceipt | scripts/budget_gates.py:558-574 | in every run a stop is confirmed only on its receipt, and a block is pending if and only if the timeout alert is up, which names a stop that timed out |
| BudgetGates.AloneIsARun | scripts/budget_gates.py:542-579 | one enforcer running by itself is one of the interleavings |
| BudgetGates.RestartCompletesExactly | scripts/budget_gates.py:516-531 | a restart whose stops return receipts completes the block if and only if nothing was issued and unconfirmed before |
| BudgetGates.Enforcer.AtLimit | scripts/budget_gates.py:498-514 | load the record or save a new one before any stop |
| BudgetGates.Enforcer.IssueOne | scripts/budget_gates.py:551-574 | recheck, mark, call, settle: the same effects as the protocol's steps |
| BudgetGates.Enforcer.IssueStops | scripts/budget_gates.py:542-579 | the object's wave of stops is the protocol's run of one enforcer, and it reports the number of stop calls made |
| BudgetGates.CombinedRate | scripts/budget_gates.py:319-319 | sums the highest rates |
| BudgetGates.RatesCombine | scripts/budget_gates.py:300-337 | resources that each keep to their highest rate keep to the combined rate together, and reach it if each does |
| BudgetGates.HardCap | scripts/budget_gates.py:300-337 | spend starting below the early-stop line, checked at most one interval apart and stopped within the stop bound of the first check at the line, never reaches the limit |
| BudgetGates.HardCapSoFar | scripts/budget_gates.py:300-337 | the same while no check has fired |
| BudgetGates.BoundIsTight | scripts/budget_gates.py:300-337 | some admissible trajectory ends one minor unit below the limit, for every policy |
| AdmissionGate.CommitmentUnderCeiling | scripts/budget_gates.py:216-257 | whatever limits and spends the calls show, the commitment never passes the ceiling these set, and only a call without a limit lifts it past a shown limit |
| AdmissionGate.CommitmentStaysBelowLimit | scripts/budget_gates.py:216-257 | however creates and releases are ordered, the committed spend stays below every cap that the calls' own limits respect |
| AdmissionGate.AdmittedExactly | scripts/budget_gates.py:141-249 | a create is admitted if and only if payment and block allow it and, where it shows a limit, the early line and headroom do, with the exact fraction behind the ceiling; then alone its cost is committed, below that call's own limit |
| AdmissionGate.ReleaseUndoesAdmission | scripts/budget_gates.py:251-257 | a release gives back what was reserved, never more than there is, and undoes the admission it belongs to |
| AdmissionGate.EligibilityGate.AdmitAtomically | scripts/budget_gates.py:216-249 | check and increment in one critical section |
| AdmissionGate.EligibilityGate.ReleaseBudget | scripts/budget_gates.py:251-257 | release never goes below zero |
| Outbox.StepInv | scripts/stripe_bridge.py:81-144 | entries know only what the provider holds, one billing per receipt, one call per attempt: kept by every step and crash |
| Outbox.AtMostOncePerEntry | scripts/stripe_bridge.py:54-144 | over every run each entry is billed at most once, and a confirmed entry holds the provider's own receipt for its own amount |
| Outbox.RecoverReturnsConverged | scripts/stripe_bridge.py:127-144 | whenever recovery returns, all entries are confirmed, billings equal entries, and recovering again does nothing |
| Outbox.RetriedRecoveryConverges | scripts/stripe_bridge.py:127-144 | recovery retried once more than responses are still going to be lost always converges |
| Outbox.ReceiptsAreFinal | scripts/stripe_bridge.py:152-167 | receipts are never rewritten and a confirmed entry never changes |
| OutboxAnswers.SendAnswers | scripts/stripe_bridge.py:92-109 | a delivered entry's receipt is repeated without a write; any other send is one write under the entry's id, and a lost response leaves its status as it was |
| OutboxAnswers.ConfirmAnswers | scripts/stripe_bridge.py:111-125 | a confirmation never writes, keeps the provider's receipt, and is refused if and only if the provider has none |
| OutboxAnswers.RecordAnswers | scripts/stripe_bridge.py:81-90 | a new entry under the next id, neither sent nor tried |
| OutboxAnswers.CrashLoses | scripts/stripe_bridge.py:192-203 | a crash loses the receipts that are not confirmed and nothing else |
| OutboxAnswers.RecoveryCosts | scripts/stripe_bridge.py:127-144 | recovery writes exactly once for each pending entry, and gets through if and only if none of these writes loses its response |
| OutboxRecorders.ProviderDouble.Send | scripts/stripe_bridge.py:232-244 | one write: one receipt per key, possibly a lost response |
| OutboxRecorders.OutboxRecorder.RecordPayload | scripts/stripe_bridge.py:81-90 | the intention is stored before anything is sent |
| OutboxRecorders.OutboxRecorder.SendEntry | scripts/stripe_bridge.py:92-109 | the object's send is the specified one |
| OutboxRecorders.OutboxRecorder.ConfirmEntry | scripts/stripe_bridge.py:111-125 | the object's confirm is the specified one |
| OutboxRecorders.OutboxRecorder.RecoverEntries | scripts/stripe_bridge.py:127-144 | the object's recovery loop is the specified one |
| OutboxRecorders.OutboxRecorder.Image | scripts/stripe_bridge.py:192-203 | the crash image drops unconfirmed receipts |
| Webhooks.RunFits | scripts/stripe_bridge.py:325-419 | the processor's state is determined by the set of accepted events: highest rank and a named customer per object, one receipt per id |
| Webhooks.Confluence | scripts/stripe_bridge.py:262-419 | two deliveries of the same events, reordered and repeated, end in equal invoice and subscription states, each the highest rank delivered |
| Webhooks.CustomerStateConfluence | scripts/stripe_bridge.py:431-449 | and in equal payment states when events on one object never name different customers |
| Webhooks.CustomerDependsOnOrder | scripts/stripe_bridge.py:396-397 | with two customers on one object the order shows |
| WebhookStates.InvoiceStates | scripts/stripe_bridge.py:262-402 | an invoice is paid if and only if a paid event names it, failed if and only if a failed one and no paid one does, finalized if and only if only finalized ones do, in whatever order they came |
| WebhookStates.SubStates | scripts/stripe_bridge.py:274-419 | a subscription is deleted if and only if a deleted event names it, and canceled otherwise |
| WebhookStates.CustomerStates | scripts/stripe_bridge.py:421-449 | a customer's payment state, from the accepted events alone |
| WebhookStates.FailureTime | scripts/stripe_bridge.py:398-399 | an invoice's time of failure is that of the failed event first delivered last |
| WebhookStates.ReceiptTells | scripts/stripe_bridge.py:325-419 | what every delivery is answered and changes, with the states before and after |
| WebhookCustomers.CustomersExactly | scripts/stripe_bridge.py:384-419 | all deliveries of exactly a given set of events leave every object with the same customer if and only if no two of them on one object name different customers |
| WebhookCustomers.CustomerStateExactly | scripts/stripe_bridge.py:431-449 | all deliveries of exactly a given set give one customer the same payment state if and only if every object another customer may end up with is outweighed by one that can only be this customer's |
| Webhooks.RedeliveryIsIdle | scripts/stripe_bridge.py:343-344 | a redelivered id gets its stored receipt and changes nothing |
| Webhooks.ReceiptsAreKept | scripts/stripe_bridge.py:349-350 | a receipt once given is kept for ever |
| WebhookProcessors.WebhookProcessor.DeliverOne | scripts/stripe_bridge.py:325-350 | the object's intake is the specified one, malformed and unsigned bodies included |
| CorrectionRuns.AtMostOnceOverEveryRun | scripts/billing_reconcile.py:304-389 | over every run with lost acknowledgements, lost writes and restored backups every correction id has at most one effect and every entry holds the provider's receipt; with a status query no id even reaches the provider twice |
| CorrectionRuns.ArrivesAgainExactly | scripts/billing_reconcile.py:337-389 | a correction that arrived but is not on record arrives again if and only if the ledger has no status query, and still without a second effect |
| CorrectionAnswers.JudgedExactly | scripts/billing_reconcile.py:134-210 | the judgment of a line in its numbers: waiting, units, money, no invoice or match, each if and only if |
| CorrectionAnswers.ArrivalChangesNoJudgment | scripts/billing_reconcile.py:134-141 | while units on their way arrive at the provider no judgment of any line changes |
| CorrectionAnswers.BuiltExactly | scripts/billing_reconcile.py:504-549 | a correction of units carries the missing units and no money, one of money what is charged too much and no units, as an amendment if and only if the invoice is a draft |
| CorrectionAnswers.CreditsExactly | scripts/billing_reconcile.py:404-412 | only money corrections of the line count as credits |
| CorrectionAnswers.ApplyAnswers | scripts/billing_reconcile.py:360-389 | the answer to every application and what it leaves at ledger and provider |
| CorrectionAnswers.PassReports | scripts/billing_reconcile.py:577-637 | a pass takes its lines in order over the world the ones before left, reports one row each, and ends with an error exactly at the first line that cannot be judged |
| CorrectionAnswers.CountsAddUp | scripts/billing_reconcile.py:634-635 | the summary counts every row once, under its own name |
| CorrectionAnswers.RowsAreNamed | scripts/billing_reconcile.py:520-525 | a row is named after its judgment; a waiting one is stalled if and only if its deadline has come |
| CorrectionRuns.RerunIsFixpoint | scripts/billing_reconcile.py:486-637 | after a reliable pass a second pass over the same lines changes neither ledger nor provider, which is not called |
| CorrectionRuns.NewMismatchesNetToZero | scripts/billing_reconcile.py:404-412 | every money mismatch whose correction was new nets to a zero gap |
| CorrectionRuns.UnapprovedOnlyProposes | scripts/billing_reconcile.py:559-561 | without an approver nothing changes |
| CorrectionRuns.GapCloses | scripts/billing_reconcile.py:143-146 | a money correction closes the gap it was built from, to the unit |
| CorrectionRuns.StillLinesBookAlike | scripts/billing_reconcile.py:360-389 | while the lines stand still, any passes with any lost writes and acknowledgements leave every entry, recovered ones included, booking what the provider booked |
| CorrectionRuns.AppliedAgrees | scripts/billing_reconcile.py:385-389 | an applied entry books what the provider booked, over every run |
| CorrectionRuns.RecoveredMayDisagree | scripts/billing_reconcile.py:378-383 | a lost acknowledgement and a moved gap: the recovered entry books 30 where the provider booked 10 |
| CorrectionRecovery.LostAckRecoversExactly | scripts/billing_reconcile.py:360-389 | one row whose write is done but not acknowledged, then rebuilt under the same id: the recovered entry books what the provider booked if and only if the gap is the same |
| CorrectionRecovery.RecoveredAgreesExactly | scripts/billing_reconcile.py:360-389 | the same over whole passes, after any earlier run and with any run in between, for every line and any two inputs that build the same id |
| BillingReconcilers.CorrectionsLedger.ApplyOnce | scripts/billing_reconcile.py:360-389 | approval, known id, remote receipt, action: the specified apply, with the receipt it hands back |
| BillingReconcilers.CorrectionsLedger.Credits | scripts/billing_reconcile.py:404-412 | net money recorded for a line |
| BillingReconcilers.BillingReconciler.ReconcileLines | scripts/billing_reconcile.py:577-637 | the object's pass is the specified one, with its row counts per kind and the ids on record; a malformed line ends it |
| BoxClock.ManyTicksAreOne | lifecycle.js:27-44 | any number of ticks in any order is one tick at the latest of them |
| BoxClock.AdvanceAccountsExactly | lifecycle.js:27-44 | the accounted total grows by exactly the elapsed time, no state shrinks, a repeat does nothing |
| BoxClock.AdvanceRefinesMilliseconds | lifecycle.js:27-44 | each state gets exactly the milliseconds in which a box ticked every millisecond is in it |
| BoxClock.RestoreIsShiftExactly | lifecycle.js:7-19 | a reload is a pure shift of the anchors if and only if no anchor lies in the future and no time is negative |
| BoxClock.RestoreRepairs | lifecycle.js:7-19 | whatever was stored, missing fields included, the restored box is ordered and accounts from now |
| BoxClock.ReloadCommutes | lifecycle.js:7-56 | storing any reachable box, reloading it later and going on equals going on without the pause, shifted by the pause |
| ClockStates.TickedState | lifecycle.js:21-44 | after a tick the state, since when, and the announcements are those of the instant, in closed form |
| ClockStates.UntouchedFor | lifecycle.js:21-44 | a touched box is active until idleAfter has passed, idle until suspendAfter has passed as well, and then suspended, however often it is ticked |
| ClockStates.ActionsRestartTheWait | lifecycle.js:46-56 | a switch or an activity accounts up to now and restarts the wait |
| ClockStates.RestoredAges | lifecycle.js:7-19 | a restored box is as long in its state and as long untouched as when it was stored |
| BoxClock.NormalizePolicy | lifecycle.js:2-5 | a policy keeps positive values and falls back to 120 and 300 seconds otherwise |
| BoxClock.DemoBox.constructor | lifecycle.js:7-19 | a box restored from storage |
| BoxClock.DemoBox.AdvanceTo | lifecycle.js:27-44 | the loop is the specified walk, and says whether the state changed |
| BoxClock.DemoBox.SwitchTo | lifecycle.js:46-51 | advance, then switch |
| BoxClock.DemoBox.Touched | lifecycle.js:53-56 | advance, then record activity |
| SlidingWindow.AdmissionsAreSpaced | scripts/tenant_authz.py:245-255 | the i-th and the (i + limit)-th admission are at least a window apart |
| SlidingWindow.EveryWindowHoldsAtMostLimit | scripts/tenant_authz.py:245-255 | every window, wherever it ends, holds at most limit admissions |
| SlidingWindow.RefusedExactly | scripts/tenant_authz.py:245-255 | a request is refused if and only if limit admissions lie in the window ending now |
| SlidingWindow.QuotaGate.TryCreateIn | scripts/tenant_authz.py:245-255 | the pruning loop and decision for one workspace, others untouched |
| SlidingWindow.QuotaGate.TryAdmit | scripts/tenant_authz.py:227-235 | check-then-commit keeps a workspace within its quota |

## Left out

- The event bodies of operation events (reason, target, result) beyond what ids, kinds and outbox notices carry.
- The per-sandbox index of operations: the model scans the acceptance order, from which the code rebuilds that index.
- A log handed an already populated event ledger: logs here start with an empty one or are restored.
- `Reconciler.diff` and its `apply` (scripts/operation_reconcile.py:646-738): a one-shot decision table.
- The projection of all resources at once and the summary's resource filter: totals are modelled per resource.
- Type checks of Python values (a string where an integer is wanted): types rule them out.
- DeliveryOrder.DeliveryOrderIrrelevant: assumes that an id or source key always carries one content, that ties are harmless (DeliveryTies.TiesExactly shows the condition exact) and that nobody supplies sequence numbers, because the code's result depends on order otherwise.
- EventTotals.TotalIsIntegral: assumes that no lease claims an observation after its expiry, the condition EventFold.TidyExactly shows to be exact.
- SealedWindows.SealedTotalsExactly: assumes that sealed periods leave no gap before the instant asked about; a correction in such a gap is not covered.
- PriceLines.RoundLines: says nothing about the order of lines; the code sorts them for output. The certainty label of unpriced rows and the text rendering of prices are left out as well.
- PriceBill.Price: line contents are stated for sealed windows that run forward, because the code bills overlapping spans otherwise (Pricing.ClipSafeExactly).
- Dates after the year 9999, which Python's calendar refuses.
- Thresholds below the limit (`evaluate`), storage economics and `new_period`: one-shot arithmetic.
- AdmissionGate.CommitmentStaysBelowLimit: needs every call to show a limit of at most the cap and a spend below it, because the code takes both from each caller unchecked; AdmissionGate.CommitmentUnderCeiling needs neither.
- The payment rules behind the eligibility verdict, `last_failure` (it depends on delivery order), metering and reconciliation against pending aggregates.
- Signatures, JSON parsing and deep copies: a delivery carries whether it verifies and the event it parses to; the order of meter errors and of ignored types is modelled but only their sets are compared.
- Evidence, reason and target texts of corrections.
- BillingReconcilers.BillingReconciler.ReconcileLines: the sorted order of rows and of the ids on record; lines are walked in any given order.
- CorrectionRuns.RerunIsFixpoint: the first pass is over well-formed lines, with an approver, an action for every kind and no raising action, because a raising action leaves its line open on purpose.
- Rejecting invoice or subscription events without an object id stores a receipt and changes no state; this is in the model but has no theorem of its own.
- Sub-millisecond times and floating-point seconds of the demo clock, and policies in fractions of a second.
- Tickets, tokens, authorization and the redaction helpers around the rate limit; a clock that runs backwards.
- All user interface, storage and host code of the repository.
