# Verified model of the finance assistant's money rules and protocols

This Dafny project models the parts of the backend where exact amounts or the order of steps
matter, and proves what they keep. `dafny verify dfyconfig.toml` checks all of it.

- **Saved investment plans** (`PlanModel`, `PlanRecalculation`, `PlanAcceptance`, `PlanLaws`,
  `PlanSaving`, `PlanValidation`): the payload validator, the recalculation after an edit (a class
  over the deep-copied payload, updated in place), and edits and removals.
- **Purchases and holdings** (`Holdings`, `Portfolio`, `PortfolioAnswers`, `PurchaseProtocol`,
  `ScenarioProtocol`, `Valuation`): the rounded weighted average over runs of purchases, the three
  plan requests on a database, the same requests interleaved step by step under row locks, the
  scenario's own unlocked requests beside them, and the valuation report.
- **Statement pipeline** (`StatementPipeline`, `StatementProtocol`, `StatementJobs`): the row, the
  worker task with its handlers, and every interleaving of advance requests, worker passes,
  approvals and account deletions.
- **Ledger** (`Ledger`, `BankAccounts`, `AccountProtocol`): duplicate-suppressing inserts from sync
  and approval, the displayed balance, and the rule that a connected bank is the only source of its
  accounts, for requests one by one and overlapping.
- **Authorization codes** (`AuthCodes`, `AuthProtocol`, `AuthOutcomes`, `AuthTokens`,
  `AuthOneCode`): challenge, one-time password, code and token (sections 4.1.2 and 4.1.3 of RFC
  6749), with handlers interleaved between the locked store calls and with their unlocked reads of a
  challenge that may change under them.
- **Dashboard windows and budget amounts** (`DashboardWindows`, `BudgetAmounts`).

Amounts are exact integers: cents, basis points, and units of 1e-8 (prices, quantities and
increments of a plan) or 1e-4 (prices of a holding). Every rounding step is one of the functions in
`Rounding`. Code that updates state is a class whose methods are proved equal to a specification
function; the laws are lemmas about those functions, and the lemmas named `...Exactly`, `...Answers`,
`...Leaves` or `...Outcome` say when each branch is taken and what it leaves in terms of the inputs
and stored rows, with numbers outright. A protocol is a step relation, and its theorems hold of every
run.

## Where the code differs from what its documentation suggests

- Recalculation and validation disagree on some ordinary plans. An even three-way split of 10000.00
  is refused. `PlanAcceptance.AcceptedExactly` gives the exact condition, checkable on the items
  before the call; it is always met up to 250.00 (three items) and 500.00 (two items), and those
  bounds are sharp.
- A quantity whose cost rounds down to the target passes recalculation and then fails the quantity
  check; `PlanAcceptance.SubCentExcess` says exactly when, `SubCentIsReached` shows a case.
- With three items, a last target of zero and the first share on a half basis point, the residue
  percentage is -0.01 and the edit is refused (`PlanAcceptance.ResidueInRange`, `ResidueIsReached`).
- A plan of two or three items that all have a zero target divides zero by zero, which raises
  outside the validation errors; `PlanAcceptance.DivisionUndefinedExactly` states the condition and
  `AcceptedPlanCanDivide` a plan the validator accepts that gets there.
- An edit can change the allocated amount of another item, by at most two cents, when the stored
  amount was within tolerance but not exact (`PlanLaws.EditKeepsOthers`, `EditMovesOthersLittle`,
  `OtherAmountIsMoved`).
- Changing a scenario's status or title reads the row without a lock and saves it whole. An edit or
  removal that commits in between is lost, also one of an item that was bought since, and a scenario
  deleted in between is back (`ScenarioProtocol.StaleSaveUndoes`, `StaleSaveRestores`; exact condition
  in `SerialExactly`). The results of `Portfolio` and `PurchaseProtocol` are about the purchase, edit
  and removal requests, which do lock the row.
- `is_processing` is documented as the guard against overlapping runs, but each finalizer clears it
  before the loop marks the row again for the next phase. An advance request taken in that gap starts
  a second chain, and from every such state an approved statement can fall back to `normalized`
  (`StatementProtocol.SecondChainExactlyInGap`, `FallsBackExactlyFromGap`). Without such a request all
  the documented guarantees hold (`CarefulRunsAreOrderly`), and single-phase requests leave no gap.
- Deleting a bank account unlinks it from its statements, so a normalized or approved statement can be
  left without one (`StatementProtocol.OwnedExactly`).
- If rescheduling raises anything but the queue's own retry signal, the chain ends without an event.
- An error after the normalized status is saved, while notifying the user, records a failure reason
  with no failed phase.
- `/login/verify` checks the password, and copies the customer afterwards, without the lock under which
  `/login/start` replaces both. A login start for another customer between the two makes the code, and
  then the token, that customer's, whose password nobody entered (`AuthTokens.DisturbanceIsReached`).
  `AuthTokens.DisturbanceIsExact` and `TokensAreEarned` give the exact condition.
- Two `/login/verify` requests that overlap on one challenge can mint two codes
  (`AuthOneCode.OverlapIsReached`), and exactly such an overlap makes it possible
  (`AuthOneCode.OneCodeExactly`); each code still yields at most one token.
- `apply_synced_accounts` clears manual accounts under the first reported bank name only. It keeps
  banks exclusive exactly under the condition of `BankAccounts.SyncKeepsNoShadowExactly`, which its
  assumption of one bank per connector call implies.
- Renaming a manual account is guarded with the name as given, but its trimmed form is stored, so a
  padded name of a connected bank is accepted and ends up beside it
  (`BankAccounts.PaddedRenameIsReached`; exact condition in `RenameKeepsNoShadowExactly`).
- The guard and the save of a manual account are not one transaction. A sync that connects the bank in
  between leaves the account beside it (`AccountProtocol.OvertakenIsReached`; exact condition in
  `OverlapsKeepNoShadowExactly`), and a rename saved after its row was deleted puts the row back.
- Half-up rounding of negative amounts (losses in a valuation) rounds ties away from zero.

## Model

| member | source | states |
|---|---|---|
| `PlanModel.CheckItemsAll` | core/serializers/investment_scenarios.py:127-167 | The first-failing item loop passes if and only if every item passes its five checks |
| `PlanModel.TolerancesCompose` | core/serializers/investment_scenarios.py:120-182 | In any payload the validator accepts, targets total the confirmed amount within 7 cents and item remainders total `total_remainder` within 17 cents |
| `PlanModel.TolerancesAreSharp` | core/serializers/investment_scenarios.py:133-182 | Both bounds are attained by one accepted three-item payload |
| `PlanValidation.ValidExactly` | core/serializers/investment_scenarios.py:101-214 | A payload is accepted, as it is, if and only if its fields are in range, it is saved, instruments and priorities are unique, percentages total 100, every item holds, its totals are within two cents and its metadata is the catalogue's, all with the numbers outright |
| `PlanValidation.RefusalsExactly` | core/serializers/investment_scenarios.py:101-167 | Otherwise the error is that of the first part that does not hold, and of the first item |
| `PlanValidation.ItemExactly` | core/serializers/investment_scenarios.py:126-167 | An item passes if and only if its quote is at most five minutes ahead, its target within two cents of the share rounded half to even, its quantity whole increments within the target (for a strict check the most that fit), its amount within two cents of the rounded cost and its remainder of what is left; the first of these that fails is the error |
| `PlanValidation.CostExactly` | core/serializers/investment_scenarios.py:157-157 | The cost of an item is the one nearest cent, a half going to the even one |
| `PlanValidation.ExpectedTargetExactly` | core/serializers/investment_scenarios.py:133-135 | So is the share of the confirmed amount |
| `PlanRecalculation.WorkingPlan.Recalculate` | core/serializers/investment_scenarios.py:329-381 | The in-place recalculation yields the specified plan or the specified first error, and the working copy is left equal to the accepted plan |
| `PlanRecalculation.WorkingPlan.SettleInPlace` | core/serializers/investment_scenarios.py:339-369 | The loop with its two accumulators rewrites the items to the recursive settlement of the original items and returns the sum of their allocated amounts, or stops at the first failing item |
| `PlanRecalculation.WorkingPlan.SettleAt` | core/serializers/investment_scenarios.py:351-369 | One pass refuses an off-increment or too expensive quantity unchanged, and otherwise rewrites that item only |
| `PlanRecalculation.UpdateSavedAllocation` | core/serializers/investment_scenarios.py:384-418 | Editing a copy of the payload in place has the outcome of the edit specification, errors included |
| `PlanRecalculation.RemoveSavedAllocation` | core/serializers/investment_scenarios.py:421-438 | Filtering and recalculating a copy has the outcome of the removal specification; nothing is left for the last item |
| `PlanAcceptance.AcceptedExactly` | core/serializers/investment_scenarios.py:329-381 | Recalculation followed by validation accepts a plan if and only if `Acceptable` holds, a condition on the given items alone: no rounded share drifts from its target beyond the tolerance, costs do not exceed targets by any fraction of a cent, quantities are whole increments, the residue is in range, instruments and priorities are unique, quotes are not in the future and metadata matches |
| `PlanAcceptance.RecalculationConserves` | core/serializers/investment_scenarios.py:329-374 | Every accepted recalculation totals exactly 100.00 percent and the confirmed amount, allocated plus remainder equals confirmed, and no remainder is negative |
| `PlanAcceptance.ResidueInRange` | core/serializers/investment_scenarios.py:341-349 | With at most three items every percentage lies in 0 to 100 if and only if it is not the case that the last of three targets is zero and the first share lies on a half basis point |
| `PlanAcceptance.ResidueIsReached` | core/serializers/investment_scenarios.py:341-349 | 0.01 + 199.99 + 0.00 leaves -0.01 percent and is refused whatever else the plan says |
| `PlanAcceptance.FourItemsOvershoot` | core/serializers/investment_scenarios.py:89 | With four items all having positive targets the residue can be -0.01, so the limit of three is what keeps it in range |
| `PlanAcceptance.ShareDrift` | core/serializers/investment_scenarios.py:345-349 | A half-up share misstates its target by at most half a basis point of the confirmed amount, with ties only upwards |
| `PlanAcceptance.TargetCheckByDrift` | core/serializers/investment_scenarios.py:133-136 | The target check holds if and only if the drift of the percentage is at most two and a half cents, the half depending on the parity that half-even rounding looks at |
| `PlanAcceptance.PercentagesNearShares` | core/serializers/investment_scenarios.py:341-349 | A recalculated percentage is the exact share to half a basis point, the last one to half a basis point per item before it |
| `PlanAcceptance.SettleItemsAt` | core/serializers/investment_scenarios.py:341-369 | Settling succeeds if and only if every item passes its quantity checks, and rewrites each item with its own cost and percentage |
| `PlanAcceptance.SmallPlansTolerable` | core/serializers/investment_scenarios.py:133-139 | Recalculated percentages always meet the target check for a confirmed total up to 250.00 with three items, up to 500.00 with two, and always with one |
| `PlanAcceptance.BoundsAreSharp` | core/serializers/investment_scenarios.py:133-139 | At 250.01 and 500.01 there are targets with which no recalculation is accepted |
| `PlanAcceptance.EvenSplitRejected` | core/serializers/investment_scenarios.py:341-349 | 3333.33 + 3333.33 + 3333.34 is rejected whatever else the plan says |
| `PlanAcceptance.DivisionUndefinedExactly` | core/serializers/investment_scenarios.py:343-348 | Recalculation divides zero by zero if and only if a plan of two or more items has only zero targets |
| `PlanAcceptance.AcceptedPlanCanDivide` | core/serializers/investment_scenarios.py:133-136 | A plan the strict validator accepts, 0.01 split evenly over two items, gets there by any price edit |
| `PlanAcceptance.QuantityAllowedExactly` | core/serializers/investment_scenarios.py:141-155 | A whole number of increments passes the quantity check if and only if its exact cost does not exceed the target |
| `PlanAcceptance.SubCentExcess` | core/serializers/investment_scenarios.py:353-362 | A quantity that recalculation lets through fails the quantity check if and only if its exact cost exceeds the target, and then by no more than half a cent |
| `PlanAcceptance.SubCentIsReached` | core/serializers/investment_scenarios.py:353-362 | A plan the validator accepts and a quantity edit of it that passes recalculation and is refused for a sub-cent |
| `PlanAcceptance.DerivedQuantityIsGreatest` | core/serializers/investment_scenarios.py:412-417 | A derived quantity is the greatest multiple of the increment whose exact cost is within the target |
| `PlanAcceptance.DerivedQuantityPasses` | core/serializers/investment_scenarios.py:412-417 | A derived quantity passes recalculation and the strict validator, and leaves less than one increment's cost plus half a cent |
| `PlanLaws.RecalculationKeepsBasis` | core/serializers/investment_scenarios.py:364-368 | Recalculation changes nothing of an item but percentage, allocated amount and remainder, which become the exact ones |
| `PlanLaws.RecalculationIdempotent` | core/serializers/investment_scenarios.py:329-381 | Recalculating an accepted recalculation at any other time is recalculating the original then, and at any later time gives it back |
| `PlanLaws.EditedItemIs` | core/serializers/investment_scenarios.py:403-418 | The edited item of an accepted edit has the requested fields, the derived or requested quantity, and exact amounts; only a price edit relabels and dates the quote |
| `PlanLaws.EditExactly` | core/serializers/investment_scenarios.py:384-418 | An edit is accepted if and only if the plan has the item and the edited items are acceptable |
| `PlanLaws.SettlingRefuses` | core/serializers/investment_scenarios.py:341-362 | Recalculation stops at the first item off its increment or too dear, with that item's error |
| `PlanLaws.EditKeepsOthers` | core/serializers/investment_scenarios.py:384-418 | Every other item keeps target, price, quantity and quote; its allocated amount is unchanged if and only if it was the exact one |
| `PlanLaws.OtherAmountIsMoved` | core/serializers/investment_scenarios.py:358-368 | A plan the validator accepts, an accepted edit of its first item, and the second item moved by two cents |
| `PlanLaws.EditMovesOthersLittle` | core/serializers/investment_scenarios.py:157-161 | Editing a plan the validator accepted moves another item's allocated amount by at most two cents |
| `PlanLaws.EditTwice` | core/serializers/investment_scenarios.py:384-418 | Two edits in a row, each at its own time, are both edits of the original items recalculated once at the second time |
| `PlanLaws.RecalculationSame` | core/serializers/investment_scenarios.py:126-131 | Quote times that are not in the future change nothing of a recalculation, error included, but themselves |
| `PlanLaws.EditsCommute` | core/serializers/investment_scenarios.py:384-418 | Of two edits of different items, each acceptable first, making one at t1 and the other at t2 not before t1 has the same outcome in both orders, error included, but for the quote times of price-edited items; the same outright when no price is edited |
| `PlanLaws.RemovalLeavesOthers` | core/serializers/investment_scenarios.py:421-438 | An accepted removal takes out an item that was there and keeps the others in order with everything but percentage and amounts; nothing is left if and only if the plan held no other item |
| `PlanLaws.RemovalExactly` | core/serializers/investment_scenarios.py:421-438 | A removal is accepted if and only if the plan has the item and either no other or acceptable ones |
| `PlanLaws.EditThenRemove` | core/serializers/investment_scenarios.py:421-438 | Editing an item and removing it at any other time is removing it then |
| `PlanSaving.ResaveAccepted` | core/serializers/investment_scenarios.py:232-267 | A saved payload is accepted again at any later time, against the plan first shown and against itself |
| `PlanSaving.SavedExactly` | core/serializers/investment_scenarios.py:232-267 | A save is accepted if and only if both plans pass the validator, they state the same confirmed amount, currency and disclaimer and hold the same instruments, and each payload item agrees with the original item of its instrument in every quoted field, one by one |
| `PlanSaving.RepricedIsRefused` | core/serializers/investment_scenarios.py:258-265 | A save of any plan with another unit price than was quoted is refused |
| `PlanSaving.SaveMovesTotalLittle` | core/serializers/investment_scenarios.py:247-265 | Saving cannot move the total of the targets by more than 14 cents from the plan first shown |
| `PlanSaving.AcceptedPlanIsAffordable` | core/serializers/investment_scenarios.py:141-155 | Buying every quantity of an accepted plan at its quotes costs at most 7 cents above the confirmed amount |
| `PlanSaving.RecalculatedPlanIsAffordable` | core/serializers/investment_scenarios.py:329-381 | After an edit it costs at most the confirmed amount |
| `Holdings.WeightedPriceBetween` | core/views/investment_scenarios.py:187-191 | The half-up weighted average lies between the held average and the price paid |
| `Holdings.FoldExactly` | core/views/investment_scenarios.py:177-197 | The first purchase is the holding; a later one adds quantity and fees, averages the price half up to 0.0001 and keeps the earliest date |
| `Holdings.QuantityAndFeesExact` | core/views/investment_scenarios.py:188-194 | Over any run of purchases quantity and fees are exact sums |
| `Holdings.AverageErrorBound` | core/views/investment_scenarios.py:187-193 | Over any run, quantity times average differs from what was paid by at most half a price unit per unit of the running quantities after each averaging purchase |
| `Holdings.AverageBetween` | core/views/investment_scenarios.py:189-193 | Over any run the average stays within the prices paid and the average held before |
| `Holdings.WholeIncrements` | core/views/investment_scenarios.py:157-165 | Purchases in whole increments add up to a whole number of increments |
| `Holdings.DateIsEarliest` | core/views/investment_scenarios.py:195-197 | The purchase date of a holding started without one is that of its earliest purchase |
| `Portfolio.Desk.PostPurchase` | core/views/investment_scenarios.py:121-220 | The purchase request, branch by branch, leaves the database and answers as the one-request specification says |
| `Portfolio.Desk.PatchAllocation` | core/views/investment_scenarios.py:247-279 | The edit request does what the one-request specification says |
| `Portfolio.Desk.DeleteAllocation` | core/views/investment_scenarios.py:289-324 | The removal request does what the specification says: it deletes the scenario when nothing is left to buy, and never a holding |
| `Portfolio.PurchaseIdempotent` | core/views/investment_scenarios.py:142-148 | Repeating a recorded purchase, with any amounts, changes nothing |
| `PortfolioAnswers.BuyAnswers` | core/views/investment_scenarios.py:121-165 | Each answer of a purchase request if and only if its cause holds of the stored rows: owner, status, plan items, purchase record, instrument and increments |
| `PortfolioAnswers.BuyLeaves` | core/views/investment_scenarios.py:172-216 | A recorded purchase adds its record and changes the one holding as above; any other answer changes nothing |
| `PortfolioAnswers.EditAnswers` | core/views/investment_scenarios.py:247-272 | The same for an edit, which needs a pending item of an own, unarchived plan |
| `PortfolioAnswers.EditLeaves` | core/views/investment_scenarios.py:266-273 | An accepted edit replaces that plan by the edited one and nothing else; a refused one changes nothing |
| `PortfolioAnswers.RemoveAnswers` | core/views/investment_scenarios.py:289-308 | The same for a removal |
| `PortfolioAnswers.RemovalDeletesExactly` | core/views/investment_scenarios.py:309-320 | An accepted removal deletes the scenario if and only if every item of the old plan but the removed instrument has a purchase record |
| `PortfolioAnswers.RemovalLeaves` | core/views/investment_scenarios.py:319-323 | Otherwise it keeps owner, status, purchase records and the other items; holdings, other scenarios and their records stay in any case |
| `Portfolio.RequestKeepsBought` | core/views/investment_scenarios.py:255-264 | No request that leaves the scenario in place changes more of a bought item than its percentage and, once, its amount to the exact one |
| `Portfolio.BoughtItemFrozen` | core/views/investment_scenarios.py:255-323 | The same over any run of purchases, edits and removals |
| `Portfolio.HoldingIsFold` | core/views/investment_scenarios.py:172-206 | After any run of requests a holding is the fold of exactly the purchases answered as recorded |
| `Portfolio.HoldingInIncrements` | core/views/investment_scenarios.py:157-165 | A holding a run creates is a whole number of its instrument's increments |
| `Portfolio.RemovalLeavesPending` | core/views/investment_scenarios.py:309-323 | A removal that keeps the scenario leaves an item still to buy in it |
| `PurchaseProtocol.ForwardIsExecute` | core/views/investment_scenarios.py:122-216 | Each committing step of an interleaved transaction is the whole request run alone on the database as it stands |
| `PurchaseProtocol.RunsAreSerial` | core/views/investment_scenarios.py:120-216 | Every interleaving of locking, reading and committing steps is equal, database and answers, to running the requests one by one in commit order; no transaction hits a uniqueness constraint |
| `PurchaseProtocol.NoLostUpdate` | core/views/investment_scenarios.py:167-206 | After any interleaving a holding is the fold, in commit order, of exactly the recorded purchases, within the averaging error bound |
| `PurchaseProtocol.NoDeadlock` | core/views/investment_scenarios.py:122-176 | After any interleaving that leaves a transaction unfinished, some transaction can move: the lock order scenario, user, holding does not deadlock |
| `PurchaseProtocol.WaitsExactly` | core/views/investment_scenarios.py:122-176 | A transaction waits if and only if another is in progress on its scenario, or holds the user row or the holding row it is about to lock |
| `PurchaseProtocol.ConflictExactly` | core/views/investment_scenarios.py:177-216 | A step is marked as a uniqueness conflict if and only if it would insert a second holding or purchase record, or save a scenario that is gone |
| `PurchaseProtocol.StepShortens` | core/views/investment_scenarios.py:120-220 | Every step lowers the number of steps left |
| `PurchaseProtocol.RunsAreShort` | core/views/investment_scenarios.py:120-220 | A run of n transactions has at most five steps each |
| `ScenarioProtocol.SerialExactly` | core/views/investment_scenarios.py:92-98 | With changes of status or title that read without a lock and save the whole row, the database is throughout that of the requests one by one in commit order if and only if no save finds changed what it does not mean to change |
| `ScenarioProtocol.StaysUpToDate` | core/views/investment_scenarios.py:92-98 | A save finds nothing changed when no edit, removal, deletion or other change of its scenario commits between its read and itself, whatever else does |
| `ScenarioProtocol.StaleSaveUndoes` | core/views/investment_scenarios.py:92-98 | In any state, an edit or removal accepted between the read and the save is undone: the plan is the one that was read |
| `ScenarioProtocol.LostEditIsReached` | core/views/investment_scenarios.py:92-98 | A run in which an edit is accepted, changes the plan and is lost |
| `ScenarioProtocol.StaleSaveRestores` | core/views/investment_scenarios.py:92-98 | In any state, a scenario deleted between the read and the save is back, without its purchase records |
| `ScenarioProtocol.ChangeUninterrupted` | core/views/investment_scenarios.py:92-98 | A change that nothing interrupts sets the status it names and leaves everything else |
| `ScenarioProtocol.DeletionExactly` | core/views/investment_scenarios.py:76-85 | Deleting a scenario is for its owner, and takes it and its purchase records and nothing else |
| `Valuation.Valuate` | core/views/investment_holdings.py:113-194 | The accumulator loop yields one row per holding in order, and totals exactly when every holding is priced |
| `Valuation.PricedCountAll` | core/views/investment_holdings.py:172-173 | The count of priced rows reaches the number of rows if and only if every row is priced |
| `Valuation.RowExactly` | core/views/investment_holdings.py:129-170 | A row is priced if and only if its instrument has a quote, by that quote, and each status if and only if its cause holds |
| `Valuation.ValueExactly` | core/views/investment_holdings.py:147-149 | A value is quantity times price to the nearest cent, half up |
| `Valuation.GainExactly` | core/views/investment_holdings.py:150-150 | A gain is value less cost to the nearest cent, a half going away from zero |
| `Valuation.PercentageExactly` | core/views/investment_holdings.py:151-153 | A percentage is the share of that gain in the cost to the nearest 0.0001, a half going away from zero |
| `Valuation.CostIsWhatWasPaid` | core/views/investment_holdings.py:130-130 | The cost basis of a holding bought in any run is what was paid, fees included, within the averaging error bound |
| `Valuation.RowGainsNearTotal` | core/views/investment_holdings.py:145-174 | In a complete valuation of n holdings the row gains sum to the total gain within (n+1)/2 cents |
| `Valuation.PercentageFollowsGain` | core/views/investment_holdings.py:151-153 | A gain percentage has its gain's sign or is zero, and is exact to half of its last place |
| `StatementPipeline.StatementFile.AdvanceTo` | core/views/statements.py:56-59 | The request is refused, row untouched, exactly as the guards say, and otherwise marks the row and queues a first task |
| `StatementPipeline.StatementFile.RecordFailure` | core/tasks/statements.py:146-150 | Writes reason, phase and a cleared flag and nothing else |
| `StatementPipeline.StatementFile.RecordCrash` | core/tasks/statements.py:316-322 | Clears the flag, records the reason and keeps an earlier failed phase over the one of the status |
| `StatementPipeline.StatementFile.FinalizeExtraction` | core/tasks/statements.py:48-62 | Stores the result before the status; a storing error leaves the status where it was |
| `StatementPipeline.StatementFile.FinalizeNormalization` | core/tasks/statements.py:65-137 | The same for normalization, whose notification may raise after the status is saved; a known account is kept |
| `StatementPipeline.StatementFile.RunPhase` | core/tasks/statements.py:266-311 | One pass submits or takes up a job, reads it once, and stores, fails or reschedules |
| `StatementPipeline.StatementFile.ProcessStatementPipeline` | core/tasks/statements.py:207-335 | The worker's while loop with its handlers ends in the specified row and the specified end of the task |
| `StatementJobs.RunsPollOneJob` | core/tasks/statements.py:274-312 | In every run a chain submits at most one job in a phase, before anything else it asks in that phase, and every status it then reads, at most 241 times, is that job's |
| `StatementJobs.PendingExactly` | core/tasks/statements.py:297-312 | A read that finds the job pending sends the chain back to the queue with that job if it was at most the 240th of the phase, and fails the phase otherwise |
| `StatementProtocol.AdvanceExactly` | core/tasks/statements.py:188-204 | Each refusal of an advance request if and only if its cause holds, in this order |
| `StatementProtocol.RequestExactly` | core/views/statements.py:39-59 | A request for extraction or normalization is taken if and only if that is ahead and the row unmarked; it marks the row and queues one fresh task |
| `StatementProtocol.PhaseOutcome` | core/tasks/statements.py:282-335 | What each answer to a status read makes of the row: reason, failed phase, flag, status, results |
| `StatementProtocol.SubmissionOutcome` | core/tasks/statements.py:274-280 | What a failed submission makes of the row, with no status read |
| `StatementProtocol.AccountResolved` | core/tasks/statements.py:78-101 | Normalization keeps the account its task saw and otherwise takes the one resolved |
| `StatementProtocol.ApprovalOutcome` | core/views/statements.py:447-511 | An approval clears the failure, keeps flag and results, and takes the account the request names or else the statement's own |
| `StatementProtocol.RunsAreSound` | core/tasks/statements.py:207-335 | In every interleaving of requests, passes, approvals, refused approvals and account deletions: a row at or past `extracted` has an OCR result, at or past `normalized` a normalized result, and its account is not a deleted one; no phase of a chain reads a job more than 241 times; a chain publishes nothing before it ends and exactly one event then, none only if rescheduling itself raised |
| `StatementProtocol.OwnedExactly` | core/tasks/statements.py:78-101 | A normalized or approved statement has an account throughout a run if and only if nobody deletes the account it has by then |
| `StatementProtocol.DeletionUnlinks` | core/views/profile.py:255-257 | In any run, deleting the account of a normalized or approved statement is possible and leaves it without one |
| `StatementProtocol.UnlinkIsReached` | core/views/profile.py:255-257 | Such a run exists |
| `StatementProtocol.CarefulRunsAreOrderly` | core/tasks/statements.py:176-204 | While no advance request is taken in the gap between two phases: the flag is set exactly while one chain works outside that gap, never two chains work at once, the status moves one phase at a time, a failed phase is the one that runs from the current status and has a reason, and only an approval, successful or not, or a deletion changes the account |
| `StatementProtocol.DoneIsIdle` | core/tasks/statements.py:265-268 | Then a normalized or approved statement is never processing and no chain works on it |
| `StatementProtocol.SecondChainExactlyInGap` | core/tasks/statements.py:193-197 | A further accepted advance request starts a second working chain if and only if it is taken in the gap |
| `StatementProtocol.OnePhaseRequestsAreCareful` | core/views/statements.py:39-59 | Requests for no more than the next status never leave a gap, so the above holds of them unconditionally |
| `StatementProtocol.FallsBackExactlyFromGap` | core/tasks/statements.py:265-311 | After a run clear of gaps, an accepted advance request makes it possible for the status to move back, from `approved` in particular and with no further request taken in a gap, if and only if it is taken in the gap |
| `StatementProtocol.GapIsReached` | core/tasks/statements.py:270-272 | A request for two phases reaches the gap, and a second request is accepted there |
| `StatementProtocol.StatusCanFallBack` | core/tasks/statements.py:265-311 | So a run exists after which an approved status can fall back |
| `StatementProtocol.PassShortens` | core/tasks/statements.py:265-311 | In every run each pass of a chain lowers a measure of phases and polls left, and touches no other chain |
| `StatementProtocol.WorkerRunIsARun` | core/tasks/statements.py:265-335 | The worker task run without interruption is a run of the step relation, with the same row and chain at its end |
| `Ledger.BalanceIsReplay` | core/models/profile/bank_account.py:87-115 | For distinct (date, created_at) keys the anchored balance equals sorting the rows and folding: take a stated balance, otherwise add the signed amount, from zero |
| `Ledger.OldRowIsNeutral` | core/models/profile/bank_account.py:95-106 | A row before the newest stated balance never changes the balance, wherever it is inserted |
| `Ledger.NewestStatedIsBalance` | core/models/profile/bank_account.py:88-106 | When the row latest by date, then by creation, states a balance, the account's balance is that |
| `Ledger.NewestMovementCounts` | core/models/profile/bank_account.py:95-115 | When it states none, the balance is that of the other rows plus its credit or minus its outflow |
| `Ledger.OlderThanStated` | core/models/profile/bank_account.py:100-106 | A row older, so compared, than some stated balance counts for nothing |
| `Ledger.FindKeyFinds` | core/models/aggregations/transaction.py:80-97 | The duplicate lookup finds a row if and only if one has all six fields equal, and names such a row |
| `Ledger.LedgerStore.IngestSynced` | core/tasks/bank_sync.py:38-82 | The insert loop lands the batch as specified and returns the ids of exactly the new rows |
| `Ledger.LedgerStore.ResolveBatch` | core/views/statements.py:457-506 | The approval loop lands the batch and answers entry by entry as specified |
| `Ledger.LedgerStore.Approve` | core/views/statements.py:434-511 | Refusals in the order of the code leave the ledger untouched; otherwise the batch lands and the statement becomes approved |
| `Ledger.ApprovalExactly` | core/views/statements.py:437-455 | An approval goes ahead on an account, and each refusal is given, if and only if its cause holds of the statement, the request and the user's accounts |
| `Ledger.RowsComeFromEntries` | core/tasks/bank_sync.py:46-82 | Every row a batch adds carries an entry's six fields, its stated balance and the batch's source, numbered and stamped in order |
| `Ledger.BatchKeepsWellFormed` | core/models/aggregations/transaction.py:49-61 | After a batch the ledger extends what it was, keys are unique, and are those before and those delivered |
| `Ledger.ReingestIsNothing` | core/tasks/bank_sync.py:51-59 | Delivering a batch again inserts nothing |
| `Ledger.ApprovalPartitions` | core/views/statements.py:457-506 | One entry per submitted row in order; a row is inserted if and only if its key was neither in the ledger nor earlier in the batch; every `duplicate_of` and `transaction_id` names a row of that key |
| `Ledger.RunKeepsWellFormed` | core/models/aggregations/transaction.py:49-61 | After any mix of syncs and approvals the ledger holds each delivered key exactly once |
| `Ledger.BalanceReplaysLedger` | core/models/profile/bank_account.py:87-115 | After any such mix an account's balance is the replay of its rows |
| `Ledger.BalanceIsSumOfDelivered` | core/models/profile/bank_account.py:108-115 | When no delivered row of an account states a balance, its balance is the signed sum over the distinct keys ever delivered, however batches repeat, overlap or are ordered |
| `AuthCodes.AuthStore.Get` | mock-bank-oauth/app/store.py:107-116 | Looking up yields a challenge only while unexpired, and evicts an expired one |
| `AuthCodes.AuthStore.AttachOtp` | mock-bank-oauth/app/store.py:119-138 | Attaches customer, password and expiry to that challenge only; an unknown id changes nothing |
| `AuthCodes.AuthStore.ConsumeCode` | mock-bank-oauth/app/store.py:183-194 | Check and mark in one step: a record is returned, and marked used, exactly when it was redeemable |
| `AuthCodes.AuthStore.LoginVerify` | mock-bank-oauth/app/routes_login.py:112-148 | Mints one code carrying the challenge's client, redirect URI and customer, and removes the challenge, exactly when the lookup and the password check succeed |
| `AuthCodes.AuthStore.Token` | mock-bank-oauth/app/routes_token.py:28-87 | A customer is returned exactly for a redeemable code with matching binding; a mismatch still burns the code |
| `AuthProtocol.RunsKeepInv` | mock-bank-oauth/app/store.py:87-204 | The invariant of every interleaving: challenges, codes, handlers past their check and tokens are each backed by what produced them, and no code is in two hands |
| `AuthOutcomes.LookUpsAreInTime` | mock-bank-oauth/app/store.py:107-116 | In every run a verify handler past its look-up made it within 300 seconds of the challenge's creation |
| `AuthOutcomes.LookUpExactly` | mock-bank-oauth/app/store.py:107-116 | A look-up finds a challenge if and only if it is listed and at most 300 seconds old, and otherwise leaves it unlisted |
| `AuthOutcomes.AttachExactly` | mock-bank-oauth/app/store.py:119-138 | A password is attached if and only if the challenge is listed; that challenge gets the customer and a password for 300 seconds and nothing else changes |
| `AuthOutcomes.AuthorizeExactly` | mock-bank-oauth/app/store.py:87-104 | A new challenge is listed, with its client and redirect URI, for 300 seconds, and nothing else changes |
| `AuthOutcomes.MintExactly` | mock-bank-oauth/app/store.py:153-180 | A minted code is bound to the challenge's client and redirect URI and the copied customer, for 60 seconds, and nothing else changes |
| `AuthOutcomes.PopExactly` | mock-bank-oauth/app/routes_login.py:139-140 | Then the challenge, and only it, is taken off the list and the handler ends |
| `AuthOutcomes.LockKeepsStore` | mock-bank-oauth/app/store.py:128-138 | While an attach holds the lock only its own second write changes the store |
| `AuthOutcomes.CheckExactly` | mock-bank-oauth/app/routes_login.py:121-128 | While no attach is under way, the check passes if and only if the password is the one attached last, at most 300 seconds ago |
| `AuthOutcomes.ConsumeExactly` | mock-bank-oauth/app/store.py:183-194 | A code is consumed if and only if the client is known, the code unused and minted at most 60 seconds ago; it is then used |
| `AuthOutcomes.TokenExactly` | mock-bank-oauth/app/routes_token.py:53-64 | A consumed code yields a token if and only if the request names client and redirect URI of the challenge it was minted for |
| `AuthTokens.TokensAreBacked` | mock-bank-oauth/app/routes_token.py:47-64 | Over any interleaving of handler steps and clock advances every token belongs to a code of the same client and redirect URI, whose challenge had the token's customer attached and a password checked within five minutes, redeemed within 60 seconds; no code yields two |
| `AuthTokens.TokensAreEarned` | mock-bank-oauth/app/routes_login.py:121-137 | As long as no handler is disturbed, which means that between its check and its copy no login start is under way on its challenge for a customer the checked password had not been attached for, every token's own customer is one the checked password had been attached for |
| `AuthTokens.DisturbanceIsExact` | mock-bank-oauth/app/routes_login.py:121-137 | In any run where an attach overtakes a handler between its check and its copy of the customer, the handler can go on to a token for the customer being attached, and that token is earned if and only if the handler is not disturbed: if the checked password had been attached for that customer too |
| `AuthTokens.DisturbanceIsReached` | mock-bank-oauth/app/store.py:128-138 | From the empty store: Ann's password is checked, Bob is attached, and Bob gets the token |
| `AuthOneCode.OneCodeExactly` | mock-bank-oauth/app/routes_login.py:115-140 | Over any run, the handlers under way are never able to mint two codes from one challenge without a further look-up if and only if no two handlers ever hold the same challenge at once |
| `AuthOneCode.NextCodeExactly` | mock-bank-oauth/app/routes_login.py:115-140 | After a run without such an overlap and any next step, they are able to if and only if that step made two handlers hold the same challenge |
| `AuthOneCode.OneCodePerChallenge` | mock-bank-oauth/app/routes_login.py:115-140 | A challenge yields at most one code as long as no two verify handlers hold it at once |
| `AuthOneCode.OverlapMintsTwo` | mock-bank-oauth/app/routes_login.py:115-140 | After any run that leaves two handlers on one challenge, in whatever phases short of both having minted and with whatever passwords, they can go on to two codes, as long as the challenge is listed or they have what they need to proceed |
| `AuthOneCode.OverlapIsReached` | mock-bank-oauth/app/routes_login.py:115-140 | From the empty store a run mints two codes from one challenge |
| `DashboardWindows.ResolveWindow` | core/views/budgets.py:547-585 | For every date and period the comparison window ends the day before the current one starts and has the same positive length |
| `DashboardWindows.ResolveSpan` | core/views/budgets.py:557-580 | The branches, the month loop included, give the span each period name promises |
| `DashboardWindows.LastMonthIsPreviousMonth` | core/views/budgets.py:557-563 | `last_month` holds a date if and only if it is in the calendar month before today's |
| `DashboardWindows.Last3MonthsIsFourCalendarMonths` | core/views/budgets.py:564-571 | `last_3_months` holds a date if and only if it is not after today and in this or one of the three months before |
| `DashboardWindows.SpansToToday` | core/views/budgets.py:572-580 | `this_month`, `this_year` and `last_5_years` hold a date if and only if it is not after today and in this month, this year, or this and the four years before |
| `DashboardWindows.MonthLengths` | core/views/budgets.py:563-563 | The twelve month lengths and the leap year rule |
| `DashboardWindows.WindowsPartition` | core/views/budgets.py:582-584 | The two windows share no day and leave none out between them |
| `DashboardWindows.OrdinalOrders` | core/views/budgets.py:582-582 | Day numbers order dates as the calendar does and are one-to-one |
| `DashboardWindows.YearLength` | core/views/budgets.py:563-563 | Day numbers advance by the Gregorian length of each year |
| `DashboardWindows.FirstDay` | core/views/budgets.py:582-582 | Day 1 is the first of January of the year 1 |
| `DashboardWindows.MinusDaysIsLess` | core/views/budgets.py:583-584 | Going back n days lowers the day number by n |
| `BudgetAmounts.Budget.ApplyAllocations` | core/views/budgets.py:125-141 | The loop creates one row per input in order with the half-even share of the income |
| `BudgetAmounts.AmountExactly` | core/views/budgets.py:133-141 | An amount is its percentage of the income to the nearest cent, a half going to the even one |
| `BudgetAmounts.SumExactly` | core/serializers/budgets.py:48-52 | Percentages are let through if and only if they total 100 |
| `BudgetAmounts.AmountsNearIncome` | core/serializers/budgets.py:48-52 | Amounts of n allocations that pass the 100 check sum to the income within n/2 cents |
| `BankAccounts.AccountStore.ApplySyncedAccounts` | services/bank_connectors/sync.py:31-63 | The cleanup and the upsert loop leave the accounts as specified |
| `BankAccounts.AccountStore.CreateManual` | core/views/profile.py:218-220 | Trims the name, refuses a blank one and one already synced for the user, otherwise adds one manual account |
| `BankAccounts.AccountStore.RenameManual` | core/views/profile.py:247-252 | Guards the name as given and stores its trimmed form; refuses unknown, synced, already connected and blank, in that order |
| `BankAccounts.AccountStore.DeleteManual` | core/views/profile.py:255-257 | Refused for unknown and synced accounts, otherwise removes that account only |
| `BankAccounts.CreateExactly` | core/views/profile.py:218-220 | Each answer to a creation if and only if its cause holds, and the row it adds |
| `BankAccounts.RenameExactly` | core/views/profile.py:247-252 | Each answer to a rename if and only if its cause holds of the user's own accounts; only that account's name changes |
| `BankAccounts.DeleteExactly` | core/views/profile.py:255-257 | Each answer to a deletion if and only if its cause holds; only that account goes |
| `BankAccounts.TrimExactly` | core/views/profile.py:249-252 | Trimming loses surrounding space and nothing else |
| `BankAccounts.SyncLeavesOthers` | services/bank_connectors/sync.py:31-63 | An account a sync does not report stays if and only if it is not a manual one of the user under the first reported name |
| `BankAccounts.ReportedIsStored` | services/bank_connectors/sync.py:44-62 | The last report of each external account is what its row says after the sync |
| `BankAccounts.SyncKeepsNoShadowExactly` | services/bank_connectors/sync.py:26-63 | A sync keeps manual accounts apart from connected banks if and only if no manual account carries a reported, lasting name other than the first |
| `BankAccounts.RenameKeepsNoShadowExactly` | core/views/profile.py:247-252 | An accepted rename keeps manual accounts apart from connected banks if and only if the trimmed name is not already synced |
| `BankAccounts.RunsKeepNoShadowExactly` | core/views/profile.py:278-293 | Throughout a run of manual changes and syncs a connected bank has no manual account beside it if and only if every sync is clear and no accepted rename stores the name of a connected bank |
| `BankAccounts.TidyRunsAreCareful` | services/bank_connectors/sync.py:26-30 | It holds of runs whose syncs report one bank each and whose renames give trimmed names |
| `BankAccounts.PaddedRenameShadows` | core/views/profile.py:249-252 | A connected bank's name with a space before it passes the guard, whatever the table, and is stored beside the bank |
| `BankAccounts.PaddedRenameIsReached` | core/views/profile.py:249-252 | Such a run exists, with one sync of one bank |
| `AccountProtocol.OverlapsKeepNoShadowExactly` | core/views/profile.py:218-252 | Over any interleaving of guards, loads, saves, deletions and syncs, a connected bank has no manual account beside it throughout if and only if every sync is clear and every save stores a name that is not synced at the time of the save |
| `AccountProtocol.SaveExactly` | core/views/profile.py:252-252 | Saving a renamed row, which puts it back if it was deleted, keeps the rule if and only if its name is not synced by then |
| `AccountProtocol.OvertakenShadows` | core/views/profile.py:219-220 | In any state, a creation past its guard shadows the bank that a sync of that bank alone connects before the save |
| `AccountProtocol.OvertakenIsReached` | core/views/profile.py:219-220 | Such a run exists |
| `AccountProtocol.CreateUninterrupted` | core/views/profile.py:218-220 | A guard followed at once by its save is the whole creation, refusals included |
| `AccountProtocol.RenameUninterrupted` | core/views/profile.py:247-252 | Guard, load and save in a row are the whole rename, refusals included |
| `AccountProtocol.DeletedComesBack` | core/views/profile.py:252-252 | An account deleted between the load and the save of a rename is back after the save |
| `Rounding.HalfEvenUnique` | core/serializers/investment_scenarios.py:133-135 | The default quantize is the one nearest value whose tie is even |
| `Rounding.HalfUpUnique` | core/views/investment_scenarios.py:189-191 | ROUND_HALF_UP is the one nearest value whose tie goes away from zero |

## Left out

- Holdings.AverageErrorBound: measured in the price unit of the stored average (1e-4); the bound is the sum of halves over the averaging steps, not a tighter data-dependent one.
- HTTP and framework plumbing: parsing of fields, permissions, throttling, pagination and serialization. Lower bounds the parsers enforce are types; upper limits on digits are not modelled. An edit request without any field is refused before the model starts.
- The 28-digit decimal context and the passage of stored payload amounts through floating point. The model's amounts are exact, so it says nothing about plans large enough to lose digits there.
- The chat widget's re-save, which resets a stored plan, and manual edits of transactions and holdings, which reset the baseline of the run properties.
- The steps inside a portfolio request when scenario changes run beside it: there it is one step at its commit, which `PurchaseProtocol.RunsAreSerial` justifies for the locking requests. A scenario's title.
- The steps inside a sync of accounts, which is one transaction, and inside an account deletion.
- Changes of the instrument catalogue and of increments while a run of requests goes on.
- Account creation by the normalization phase, which can put a manual account under a connected bank's name; it is not among the requests of the account runs.
- Revoked connections, account fields other than owner, bank, number and link, and the transactions deleted together with an account. Bank names stand for their case-folded text, with their surrounding space as given.
- Concurrent overlapping sync batches and approvals: each batch is one step, so the uniqueness constraint is never what stops a duplicate.
- Requests on a statement that overlap within themselves: the check and set of an advance request is one step, and so is an approval from reading the row to writing it.
- A second reading of the clock within one request: an edit dates its quote and validates it at the same moment, and a save validates both plans at the same moment.
- Equal creation stamps: every inserted row gets its own stamp. `BalanceIsReplay` states the distinctness it needs.
- The queue's own retry counter, a worker killed mid-task, failure to build the AI client before the task's handlers apply, and deletion of a statement while a task runs on it.
- Results' contents: OCR text, normalized rows, transaction dates stored on the statement, notifications, events' payloads, embeddings and the post-ingestion analysis.
- Passwords' and tokens' text, e-mail delivery, the customer lookup, and a customer's e-mail and name beside the id. The two store calls of a login start are separate events; attaching a password writes the customer in one step and the password with its expiry in a second, a handler's check of the password is one step, and a code's redemption time is the time of the consuming store call.
- Python's limit of years to 1..9999 in the calendar; years are unbounded here.
- The stability score, category keywords, goals, feedback, chat relay, market quote filtering, seeders and migrations: finite tables or single-branch rules that would only add easy members.
