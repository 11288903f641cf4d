# Verification of the billing and scheduling core

A Dafny model of the parts of this back end that move money and job state, with proofs of what they promise. The code
is Go over a relational database; a database transaction is one atomic step here, and a run is any sequence of such
steps, so a theorem about runs covers every interleaving of handlers, workers, schedulers and restarts.

* **Credits.** `CreditsLedger` holds the tables (accounts, jobs, call records, Credits events, deposits, referral
  bindings and rewards, with the earnings and statistics tables inside) and twenty transactions over them.
  `CreditsInvariant` and `CreditsRuns` prove the invariant of every reachable state, `CreditsSteps` says what a step of
  each kind leaves alone, and `CreditsTheorems` states the promises; `CreditsStore` has the transactions as methods that
  update the tables in place, each proved to move them exactly as the matching action does; `CreditsEffects` says,
  action by action and in terms of its inputs alone, when it goes through and what it writes. The table of payouts is
  history kept for the theorems: what each Provider settlement paid, under the call record it wrote.
* **Earnings.** `Earnings` is the key owners' ledger with its two-phase withdrawals, `EarningStore` the same in place.
* **Pricing.** `ProviderBilling` (estimate, settlement, conversions), `Admission` (Credits cap and minimum fee, both
  binary searches), `ProviderAdmission` (shared minimum priority and the billing snapshot), `StaticPriority`, and
  `ProviderSettlement`, which ties the quote to the debit in the Credits tables.
* **Scheduling.** `KeySlots` (the slot table), `ProviderScheduler` (one scheduler and any number of runners, step by
  step), `ProviderRunner` (the attempt loop), `QueuePriority` (fixed-width ordering and the keyset scan).
* **Derived data.** `UsageStats` and `UsageStore` (aggregation), `DepositScanner` (at-least-once scan, exactly-once
  credit), `Referral` (configuration and reward arithmetic).
* **Printers and assemblers.** `CanonicalJson`, `JsonParser`, `JsonPrefixes`, `CacheKeys`; `StreamEvents`, `OpenAIStream`,
  `GoogleStream`, `PublicStream`; `FormPaths`, `FormValues`, `MultipartForm`, `MultipartContents`,
  `MultipartAcceptance`.

A table is the sequence of the rows ever inserted and an auto-increment key is an index into it; a deleted job leaves a
gap. Exact rationals (`big.Rat`) are reals. uint64 arithmetic wraps where it can. Clocks, random choices, upstream
answers, chain contents and signature checks are inputs of the steps that use them. `dafny verify dfyconfig.toml` checks
the project.

## What turned out false of the code

Each with the condition under which it does hold.

* *A terminal job stays as it is.* A node job that `FailTaskJob` marked failed has no call record, and a late result
  completes and bills it. The status of a terminal job survives every step exactly when the job has a call record or is
  a Provider job (`CreditsTheorems.TerminalStaysIff`). `CreditsTheorems.LateCompletionIsReached` is a run that gets there
  from the empty tables; nothing in the repository calls `FailTaskJob`, and runs without it keep terminal and recorded
  equivalent (`CreditsTheorems.RunIsRecorded`).
* *The locked Credits never pass the project's cap.* The searches look at the floored fee, the hold at the unfloored one.
  The hold stays within a cap exactly when (cap + 1) / credits_per_gwei is a whole number or the maximum task fee is too
  low to cost cap + 1 Credits (`Admission.HoldWithinCapIff`, without a maximum fee `Admission.NoOvershootIff`, for
  Provider jobs `ProviderAdmission.ProviderHoldWithinCapIff`); it never passes the cap by more than
  ceil(credits_per_gwei) (`Admission.FloorOvershoot`). At 1.9 Credits a Gwei a cap of 1 Credit can lock 3
  (`Admission.OvershootIsAttained`); at 1 or 1/2 Credit a Gwei no cap is ever passed.
* *Padded priorities order as numbers.* They do for all numbers below a bound exactly when the bound is at most 10^78
  (`QueuePriority.TextOrderHoldsBelowIff`).
* *At the shared Provider minimum every model reaches the providers minimum fee.* It does exactly when the configured
  maximum priority did not lower it (`ProviderAdmission.ClampedMinimumReachesIff`), and under every maximum there is an
  accepted configuration in which it is lowered (`ProviderAdmission.ClampCanLower`).
* *The quote covers the settlement.* For a given usage it does under every quoted snapshot exactly when the usage stays
  within both token estimates (`ProviderBilling.QuoteCoversIff`).
* *The cache key of a raw quantization configuration depends on its whole text.* Text appended to a readable configuration
  never changes the key, unless it could continue a number (`CacheKeys.TrailingTextIsIgnored`).
* *Fields that fit together make a request.* A bracket field whose text reads as NaN or an infinity is taken, and then the
  object cannot be encoded: such a form is refused exactly when it has one (`MultipartForm.EncodesIff`; with the whole
  condition of acceptance, `MultipartAcceptance.AcceptedIff`).
* *Google text chunks are concatenated.* They are exactly when no chunk extends, or begins, the text before it
  (`GoogleStream.JoinedIff`).

Where comments and code differ the code is followed. `FormatSortablePriority` pads to 78 digits but its text for a
missing priority (`models/llm_job.go:212`) has 76 zeros; no job row has a missing priority.

## Model

| member | source | states |
|---|---|---|
| `CreditsTheorems.RunIsSolvent` | service/credits_lock.go:17-177 | after any run every account has 0 <= locked <= balance, locked is the sum of its held jobs, balance is its signed ledger, the available amount needs no clamp and reconcile finds nothing to do |
| `CreditsTheorems.RunChargesAtMostOnce` | service/llm_charge.go:259-368 | after any run a job has at most one call record and a (type, ref id) pair at most one ledger event |
| `CreditsTheorems.RunRecordsDescribeJobs` | service/llm_charge.go:270-345 | after any run a recorded job's call record carries the job's own user, project, model and outcome, the source of a success, the job's times (a Provider job's own completion may be read off the clock later), and no tokens for a failure |
| `CreditsTheorems.RunRewardsAreCovered` | service/referral.go:276-364 | after any run the rewards of a referrer are at most the Credits deposited by the users bound to them |
| `CreditsTheorems.RunEarningsAreExact` | service/earning_withdrawal.go:171-415 | after any run: available is income minus withdrawals plus refunds and not negative, locked is the sum over pending withdrawals, income is available plus locked plus paid, refund event iff failed, fee event iff fulfilled, daily limits hold |
| `CreditsTheorems.RunStatsMatchLedger` | service/usage_stats.go:23-118 | after any run every table counts one request per aggregated record and carries exactly the ledger's charges for those records; with an empty queue, all charges ever posted |
| `CreditsTheorems.FinishCommits` | service/llm_job.go:277-347 | closing a job without a call record commits iff the Credits are not negative: release, unique key and charge never fail |
| `CreditsTheorems.SettlementCharge` | service/llm_charge.go:232-268 | a success is charged the computed Credits clamped to what the user has outside other holds; event, balance and hold move together |
| `CreditsTheorems.HeldSettlementIsExact` | service/provider_job.go:166-193 | Credits at most the hold are debited in full, without clamp, and the whole hold is released |
| `CreditsTheorems.ApplyRowStep` | service/llm_job.go:277-578 | in any step a released hold stays released, a row with a call record changes no more (retention aside), a record is written only with a terminal status and a released hold; user, hold amount and workload never change |
| `CreditsTheorems.RecordedStatusStays` | service/llm_job.go:294-304 | no step changes the status of a job that has a call record |
| `CreditsTheorems.UnrecordedFailureCanComplete` | service/llm_job.go:231-352 | a node job failed without a record is completed and billed by a later success |
| `CreditsTheorems.FailedProviderStatusStays` | service/llm_job.go:255-257 | a failed Provider job stays failed even without a record: it has no billing data a completion could charge from |
| `CreditsTheorems.TerminalStaysIff` | service/llm_job.go:231-464 | a terminal job's status survives every possible step iff the job has a call record or is a Provider job |
| `CreditsTheorems.LateCompletionIsReached` | service/llm_job.go:440-464 | sign up, reserve, fail without a record, complete: the run ends with the job completed and the Credits taken |
| `CreditsTheorems.RunIsRecorded` | service/llm_job.go:369-431 | in runs without FailTaskJob a job is terminal iff it has a call record |
| `CreditsTheorems.SettlementPaysOwner` | service/provider_job.go:156-213 | settling a Provider job completes it and pays its key owner the computed wei, in one event for the record it writes |
| `CreditsTheorems.RunPaysOwnersOnce` | service/provider_job.go:189-213 | after any run a call record has one income event if it is a successful Provider record settled for positive wei, to the settled owner and of the settled wei; every other record has none |
| `CreditsTheorems.RunPaysCompletedProviderJobs` | service/provider_job.go:106-215 | after any run every completed Provider job's record has a payout for that job, paid once iff its wei are positive |
| `CreditsTheorems.PayoutsAreSettlements` | service/provider_job.go:106-215 | the payout history grows by a settlement's own job, owner and wei and by nothing else |
| `CreditsTheorems.PaymentsAreFinal` | service/earning.go:62-104 | no later step changes a call record, what was charged for it or what was paid for it |
| `CreditsTheorems.WithdrawalSettlesOnce` | service/earning_withdrawal.go:281-415 | a fulfilled or failed withdrawal never changes again |
| `CreditsRuns.ApplyKeeps` | service/llm_charge.go:207-369 | each of the twenty transactions keeps the whole invariant |
| `CreditsRuns.RunKeeps` | service/credits_lock.go:17-177 | every state of every run satisfies the invariant of accounts, jobs, ledger, referrals, statistics, earnings and payouts |
| `CreditsSteps.ClosingStep` | service/llm_job.go:277-347 | a closing step leaves the tables alone or finishes its job: one record with the job's columns and times and the usage, applicability, outcome and source of the action, the job's final columns, at most one charge and, for a settlement, one payout |
| `CreditsSteps.OtherStepIsQuiet` | service/llm_charge.go:207-369 | every other step writes no call record, charges nothing, pays nobody and loses no user |
| `CreditsEffects.ClosesIff` | service/llm_job.go:231-436 | which closing step goes through for which job: on the record, the source, the task type, the Credits and the status; it then writes one record, otherwise nothing |
| `CreditsEffects.ClosingMoney` | service/llm_charge.go:232-268 | a closing step gives back the hold and debits its Credits, but no more than the user has outside other holds; a failure debits nothing; the charge is posted when positive |
| `CreditsEffects.RunRecordsReport` | service/llm_charge.go:270-345 | after any run each call record was written by a step of it that could close its job, and reports that step's tokens, applicability, outcome and source and the job's columns and times as that step found them |
| `CreditsEffects.CreateEffect` | service/llm_job.go:47-151 | a job is created iff its amount is positive and covered by balance minus locked; then the amount is locked and the row holds it, otherwise nothing changes |
| `CreditsEffects.FailEffect` | service/llm_job.go:440-471 | the unrecorded failure marks an open job failed and not billed and gives back its hold |
| `CreditsEffects.UpdateEffect` | service/llm_job.go:496-578 | each guarded update writes its columns of its job exactly when its guard holds |
| `CreditsEffects.PurgeEffect` | service/llm_job.go:593-649 | a job is deleted iff it has a call record and completed before the cutoff |
| `CreditsEffects.SignUpEffect` | service/referral.go:74-180 | a new address gets an account with the sign-up bonus; an inviter known before it is bound to it and adds the invitee bonus; each positive bonus is posted |
| `CreditsEffects.DepositEffect` | service/referral.go:276-364 | a deposit is credited iff its amount is positive, its user exists and its key is new; the referrer of a bound user gets the reward for the number of earlier purchases of the users bound to them, when it comes to a Credit |
| `CreditsEffects.WithdrawalEffect` | service/earning_withdrawal.go:126-415 | a withdrawal step touches the earnings tables alone, by the configured networks and the clock in seconds |
| `CreditsEffects.AggregateEffect` | service/usage_stats.go:23-118 | a batch takes the first 200 queued records, or all, each with what the ledger charged for it |
| `CreditsRuns.ChargeIsStable` | service/llm_charge.go:346-368 | what the ledger charged for a record does not depend on later history |
| `CreditsInvariant.HoldIsLocked` | service/credits_lock.go:58-95 | a held job's amount is part of its user's locked total, so release never underflows |
| `CreditsInvariant.AvailableIsExact` | service/credits_lock.go:17-31 | the clamp in the available amount never fires |
| `CreditsInvariant.ReleaseMoney` | service/credits_lock.go:58-95 | a release commits, subtracts exactly the job's amount and keeps the accounts exact |
| `CreditsInvariant.FinishHasShape` | service/llm_job.go:277-347 | all a closing transaction does: one job row, one record, one queue entry, at most one charge |
| `CreditsInvariant.ReconcileFindsNothing` | service/credits_lock.go:118-177 | in a state with exact accounts reconcile changes nothing |
| `CreditsStore.CreditsTables.ReserveCreditsTx` | service/credits_lock.go:39-54 | reserves iff the amount is positive and available, adding it to locked |
| `CreditsStore.CreditsTables.ReleaseCreditsHoldTx` | service/credits_lock.go:58-95 | the in-place release equals the release of the model, errors included |
| `CreditsStore.CreditsTables.SumHeldCreditsLocked` | service/credits_lock.go:99-112 | the loop returns the sum over the user's held jobs |
| `CreditsStore.CreditsTables.ReconcileCreditsLocked` | service/credits_lock.go:118-177 | from any locked totals every account ends equal to its held jobs, balances untouched, and the result is the number of accounts changed |
| `CreditsStore.CreditsTables.ReserveCreditsAndCreateJob` | service/llm_job.go:47-151 | hold and job row appear together or not at all |
| `CreditsStore.CreditsTables.ProcessTaskCallTx` | service/llm_charge.go:207-369 | clamped debit, record, queue entry and charge event as in the model, or an error |
| `CreditsStore.CreditsTables.CompleteAndSettleTaskJob` | service/llm_job.go:231-352 | the in-place completion is the model's; it reports success iff the job was closed before or is closed now |
| `CreditsStore.CreditsTables.CompleteAndSettleImageTaskJob` | service/raw_task_job.go:119-182 | the in-place image completion is the model's, with the same report |
| `CreditsStore.CreditsTables.FailAndRecordTaskJob` | service/llm_job.go:354-436 | the in-place recorded failure, also the last step of an abort, is the model's, with the same report |
| `CreditsStore.CreditsTables.FailTaskJob` | service/llm_job.go:440-471 | the in-place unrecorded failure is the model's; it errs iff the job is missing or its hold cannot be released |
| `CreditsStore.CreditsTables.FailProviderTaskJob` | service/provider_job.go:217-264 | the in-place Provider failure is the model's; it errs only when the job cannot be closed |
| `CreditsStore.CreditsTables.SettleProviderTaskJob` | service/provider_job.go:106-215 | release, record, charge and owner income commit together or roll back together; success iff the job was closed before or the tables changed |
| `CreditsStore.CreditsTables.EnsureUserWithReferral` | service/referral.go:74-180 | the in-place sign-up with both bonuses is the model's |
| `CreditsStore.CreditsTables.CountInviteePurchases` | service/referral.go:252-265 | counts the earlier deposits of the referrer's invitees |
| `CreditsStore.CreditsTables.ApplyDepositReferralReward` | service/referral.go:276-364 | the in-place reward is the model's, errors included |
| `CreditsStore.CreditsTables.ProcessDeposit` | service/credits.go:45-106 | the in-place deposit is the model's; it reports success iff a positive amount of an existing account has its key on record afterwards, and a repeated key changes nothing |
| `CreditsStore.CreditsTables.FailBatch` | service/provider_job.go:294-299 | one batch of the restart sweep closes exactly its jobs and never errs |
| `CreditsStore.CreditsTables.FailPriorProcessProviderJobs` | service/provider_job.go:266-304 | the restart sweep terminates without error, closes exactly the interrupted Provider jobs and keeps the invariant |
| `CreditsStore.CreditsTables.DeleteExpiredTerminalTaskJobs` | service/llm_job.go:593-649 | a batch deletes expired recorded jobs only, completed before failed and then in order of completion, and is short only when none is left |
| `CreditsStore.CreditsTables.RunTaskJobRetentionCleanup` | service/llm_job.go:653-670 | with a cutoff that moves on from batch to batch the loop terminates having deleted exactly the jobs expired at the last one, and returns their number |
| `Earnings.CreateCommitsIff` | service/earning_withdrawal.go:126-240 | a request is accepted iff its amount is positive and at least the minimum of a configured network, it is at most 120 seconds old and 60 ahead, its benefit address and signature are right, the account covers amount plus fee, both counts of today are below the limit and its authorization is new |
| `Earnings.CreateErrors` | service/earning_withdrawal.go:126-240 | each error exactly on its condition, in the order of the checks |
| `Earnings.CreateMoves` | service/earning_withdrawal.go:171-240 | an accepted request locks amount plus fee and adds one pending row, with the network's fee and the request's own columns, and one withdraw event |
| `Earnings.FulfillIs` | service/earning_withdrawal.go:281-347 | fulfilling settles a pending withdrawal, repeats on a fulfilled one without effect, conflicts on a failed one and finds no other |
| `Earnings.RejectIs` | service/earning_withdrawal.go:349-415 | rejecting likewise, with the outcomes exchanged |
| `Earnings.IncomeIs` | service/earning.go:62-104 | a positive amount is added to the owner's available earnings and posted, once per record |
| `Earnings.CreateKeeps` | service/earning_withdrawal.go:171-230 | an accepted request keeps balances, events and daily limits exact |
| `Earnings.SinceIsToday` | service/earning_withdrawal.go:254-279 | counting rows since midnight UTC counts exactly today's rows |
| `Earnings.PendingSettles` | service/earning_withdrawal.go:281-415 | a pending withdrawal can always be fulfilled and can always be rejected; the inconsistency error and the ignored duplicate events never occur |
| `Earnings.FulfillKeeps` | service/earning_withdrawal.go:281-347 | fulfilling keeps balances, events and limits exact |
| `Earnings.RejectKeeps` | service/earning_withdrawal.go:349-415 | rejecting keeps balances, events and limits exact |
| `Earnings.IncomeKeeps` | service/earning.go:62-104 | income keeps balances and events exact |
| `EarningStore.EarningTables.CreateTaskIncome` | service/earning.go:62-104 | the in-place income is the model's, errors included |
| `EarningStore.EarningTables.CountNonFailed` | service/earning_withdrawal.go:242-279 | the loop counts the non-failed rows of one requester or one beneficial address |
| `EarningStore.EarningTables.CreateWithdrawal` | service/earning_withdrawal.go:126-240 | the in-place request is the model's, with the same error |
| `EarningStore.EarningTables.FulfillWithdrawal` | service/earning_withdrawal.go:281-347 | the in-place fulfilment is the model's, with the same error |
| `EarningStore.EarningTables.RejectWithdrawal` | service/earning_withdrawal.go:349-415 | the in-place rejection is the model's, with the same error |
| `Referral.CheckCreditsConfig` | config/config.go:336-367 | start-up accepts exactly the configurations whose ratios are in [0,1], tiers distinct and positive, and total at most 1 |
| `Referral.PurchaseBonusExtra` | config/config.go:716-734 | the loop sums the reached tiers, reports the highest, and fails iff a reached ratio is unreadable |
| `Referral.RewardBounds` | service/referral.go:267-325 | under an accepted configuration a reward is base plus extra, at most the deposit, and non-decreasing in the purchase count |
| `Referral.RewardIs` | service/referral.go:276-325 | the reward is the deposit at the base ratio plus the extra ratio of the purchase count, rounded down, and none below one Credit; its base part is the deposit at the base ratio |
| `Referral.ExtraIsOfReached` | config/config.go:716-734 | the extra ratio is the sum over exactly the tiers whose minimum the purchase count reaches |
| `UsageStats.DurationBucketID` | service/usage_stats_buckets.go:37-50 | the scan finds the one bucket that holds the duration |
| `UsageStats.KeyIs` | service/usage_stats.go:120-170 | accounts and projects are counted by hour, models and durations by ten minutes, each under the record's own columns, durations in the bucket between its two bounds |
| `UsageStats.UpsertRows` | service/usage_stats.go:179-218 | an upsert adds to the row of its key or inserts it, and leaves every other row |
| `UsageStats.AggregateMoves` | service/usage_stats.go:44-118 | a batch moves exactly its records from the queue to the counted ones |
| `UsageStats.AggregateKeeps` | service/usage_stats.go:23-337 | after a batch the queue is exactly the records not counted and every row of every table the total of its key |
| `UsageStats.AggregateAgrees` | service/usage_stats.go:120-170 | all four tables count one request per counted record, modulo 2^64 |
| `UsageStats.AggregateAgreesOnCredits` | service/usage_stats.go:120-170 | every table that carries Credits carries those of all counted records |
| `UsageStats.PeriodStarts` | service/usage_stats_buckets.go:169-176 | hour and ten-minute starts are the boundary at or before the moment, and the periods nest |
| `UsageStats.TotalIsSum` | service/usage_stats.go:120-170 | in every table each counter of a key is the sum of what its records contribute to that table, modulo 2^64 |
| `UsageStats.TotalCreditsAreSum` | service/usage_stats.go:120-170 | a key's Credits are exactly the sum of its records' Credits, and the duration table has none |
| `UsageStats.RowIsSum` | service/usage_stats.go:179-315 | every stored row of every table holds those sums |
| `UsageStats.EnqueueKeeps` | service/llm_charge.go:346-350 | queueing a new record keeps queue and tables exact |
| `UsageStore.UsageTables.UpsertRow` | service/usage_stats.go:179-337 | the in-place upsert is the model's |
| `UsageStore.UsageTables.ApplyCallRecord` | service/usage_stats.go:120-170 | one record goes once into each table |
| `UsageStore.UsageTables.RunUsageStatsBaseAggregation` | service/usage_stats.go:23-118 | the in-place batch is the model's, and reports how many records left the queue |
| `ProviderBilling.InputDetailsReplace` | service/provider_billing.go:216-224 | cached, cache-write and tool-use tokens are billed in place of the input total iff they fit in it |
| `ProviderBilling.ReasoningReplaces` | service/provider_billing.go:225-228 | reasoning is billed once iff it is absent or a reported subset of the output |
| `ProviderBilling.CalculateProviderUnits` | service/provider_billing.go:195-253 | units are the weighted sum of the billed components; an error iff a billed one has no usable weight |
| `ProviderBilling.SettledUnitsAre` | service/provider_billing.go:195-253 | units are the sum over the eight components, each at its own weight, with input and output less the details billed apart; priced iff every component with tokens has a weight |
| `ProviderBilling.MaxFeeIs` | config/config.go:828-839 | a maximum price is refused iff it is unreadable or below one Gwei; otherwise the maximum fee is price * 10^9 rounded down |
| `ProviderBilling.MinFeeIs` | config/config.go:843-850 | a minimum price is refused iff it is unreadable or negative; otherwise the minimum fee is price * 10^9 rounded down |
| `ProviderBilling.BillableIs` | service/provider_billing.go:270-296 | the fee is priority times units, or the maximum fee of the price when that is less |
| `ProviderBilling.CreditsAre` | service/provider_billing.go:270-312 | a workload can be priced iff priority, units, price and rate are usable; it costs the fee at the rate rounded down, but at least one Credit |
| `ProviderBilling.MaxWeight` | service/provider_billing.go:44-71 | the loop returns the greatest present weight, zero without one, and fails iff one is unreadable |
| `ProviderBilling.HeaviestIsMaximum` | service/provider_billing.go:44-71 | that weight bounds every key's and is attained |
| `ProviderBilling.EstimateProviderUnits` | service/provider_billing.go:255-268 | the admission estimate prices each side at its greatest weight |
| `ProviderBilling.EstimateCoversUnits` | service/provider_billing.go:195-268 | usage within the token estimates settles to at most the estimated units |
| `ProviderBilling.EstimateIsAttained` | service/provider_billing.go:255-268 | some usage with exactly the estimated tokens settles to exactly the estimated units, so no smaller estimate covers |
| `ProviderBilling.CreditsAreMonotone` | service/provider_billing.go:270-312 | more units never cost fewer Credits, and Credits are at least one |
| `ProviderBilling.CreditsAreTheFee` | service/provider_billing.go:298-312 | Credits are the fee at the configured rate rounded down, but at least one |
| `ProviderBilling.WeiIsTheFee` | service/provider_billing.go:314-320 | a settlement charges Credits and pays wei for one and the same fee: the wei are 10^9 times the fee rounded down, never more than 10^9 times the maximum fee of the price |
| `ProviderBilling.QuoteCoversSettlement` | service/provider_job.go:136-153 | such usage is settled for at most the quoted Credits |
| `ProviderBilling.SettlesIff` | service/provider_job.go:136-153 | a quoted job's usage can be priced iff every billed component has a weight |
| `ProviderBilling.OverrunEscapes` | service/provider_billing.go:195-312 | for every usage beyond an estimate some snapshot with these estimates settles it for more than its quote |
| `ProviderBilling.QuoteCoversIff` | service/provider_billing.go:195-312 | a usage settles within the quote under every snapshot with given estimates iff it stays within both |
| `ProviderSettlement.QuotedJobSettlesExactly` | service/provider_job.go:136-193 | a job that locked its quote and stayed within its estimates is debited exactly its settled Credits and gets the rest of the hold back |
| `Admission.MaxPriorityWithinAutoMaxCredits` | service/task_fee.go:262-330 | the search returns the greatest priority in bounds within the cap, and fails iff there is none |
| `Admission.EnforceAdmissionMinTaskFee` | service/task_fee.go:123-208 | Static: each error exactly on its condition. Auto: refused iff no priority meets cap and minimum fee; a priority that has to be raised is raised to the least that does |
| `Admission.CapFee` | service/task_fee.go:595-614 | the capped fee is the floor of the capped exact fee |
| `Admission.TaskFeeIs` | service/task_fee.go:595-614 | the fee the searches see is the floor of the product, or the maximum when that is less |
| `Admission.FloorOvershoot` | service/task_fee.go:522-546 | Credits of the exact fee exceed those of its floor by at most ceil(credits_per_gwei) |
| `Admission.HoldWithinCapIff` | service/task_fee.go:522-614 | the Credits of the unfloored capped fee stay within every cap that those of its floor meet iff (cap + 1) / credits_per_gwei is whole or the maximum fee cannot reach cap + 1 Credits |
| `Admission.NoOvershootIff` | service/task_fee.go:522-546 | without a maximum fee, iff (cap + 1) / credits_per_gwei is whole |
| `Admission.WholeFeeIsCheckable` | service/task_fee.go:522-546 | that condition is one division |
| `Admission.HoldIsNearCap` | service/task_fee.go:595-614 | a hold is within the cap plus ceil(credits_per_gwei), and within the cap when that condition holds |
| `Admission.EstimateTaskFee` | service/task_fee.go:649-749 | every error on its condition; an admitted request meets the minimum fee and locks at most the cap plus ceil(credits_per_gwei), at most the cap when that is exact |
| `ProviderAdmission.EnforceAdmissionSharedMinPriority` | service/provider_billing.go:427-499 | Auto: the priority moves the least it can into [lower bound, greatest within cap], refused iff that range is empty. Static: each error exactly on its condition |
| `ProviderAdmission.CeilPriorityFromFeeAndUnits` | service/provider_billing.go:348-368 | the least positive priority whose exact fee reaches the minimum |
| `ProviderAdmission.CheapestProviderUnits` | service/provider_billing.go:372-394 | the loop returns the least positive units of the models of the kind, and fails iff one cannot be estimated |
| `ProviderAdmission.ResolveProviderSharedMinPriority` | service/provider_billing.go:399-423 | that least priority for the cheapest model, clamped; none when there is no minimum or no charged model |
| `ProviderAdmission.SharedMinimumIsThreshold` | service/provider_billing.go:348-423 | a priority makes the post-cap fee of every charged model reach the minimum iff it is at least the shared minimum |
| `ProviderAdmission.ClampedMinimumReachesIff` | config/config.go:446-484 | at the clamped shared minimum all reach it iff the clamp did not lower it |
| `ProviderAdmission.ClampCanLower` | config/config.go:446-484 | under every maximum priority some accepted configuration has its shared minimum lowered |
| `ProviderAdmission.ProviderHoldWithinCapIff` | service/provider_billing.go:427-499 | the Credits of the exact post-cap fee stay within a cap that those of its floor meet iff (cap + 1) / credits_per_gwei is whole or the maximum fee costs less than cap + 1 Credits |
| `ProviderAdmission.CappedFeeIs` | service/provider_billing.go:270-296 | the fee the searches see at a priority is the fee the job is billed |
| `ProviderAdmission.BuildProviderBillingData` | service/provider_billing.go:501-560 | every error on its condition, down to a maximum price below one Gwei; the snapshot's own quote is the Credits returned, within the cap plus ceil(credits_per_gwei), within the cap in Static mode or when the cap is exact |
| `StaticPriority.BoundsAreTight` | service/priority_gwei.go:87-122 | the Static bounds are the least and greatest valid level, an error iff there is none |
| `StaticPriority.NormalizeIsNearest` | service/priority_gwei.go:152-172 | normalizing gives the nearest valid level, the higher of two equally near |
| `KeySlots.ReleaseUndoesReserve` | service/provider_key_slots.go:53-74 | a release undoes a reservation, also after another one |
| `KeySlots.ReservedCounts` | service/provider_key_slots.go:53-61 | a reservation adds one to its key's count and to no other |
| `KeySlots.ReleasedCounts` | service/provider_key_slots.go:64-74 | a release takes one off its key's count unless it is zero, and off no other |
| `KeySlots.ProviderKeySlotManager.Reserve` | service/provider_key_slots.go:53-61 | reserves iff below the limit, which is never passed |
| `KeySlots.ProviderKeySlotManager.Release` | service/provider_key_slots.go:64-74 | gives one slot back and drops the entry at zero |
| `KeySlots.ProviderKeySlotManager.SelectRandomEligibleKey` | service/shared_api_key.go:307-323 | some listed, untried key with a free slot; none iff there is none |
| `ProviderScheduler.StepKeeps` | service/provider_scheduler.go:87-175 | every step of scheduler, runners and environment keeps the invariant |
| `ProviderScheduler.SlotsAreExact` | service/provider_key_slots.go:53-74 | in every run a key's count is its number of live holders and at most the limit |
| `ProviderScheduler.CallsRunOnHeldKeys` | service/provider_runner.go:27-66 | an upstream call runs only on a key whose slot its runner holds |
| `ProviderScheduler.QuiescentIsEmpty` | service/provider_runner.go:20-25 | when all runners have returned the slot table is empty |
| `ProviderScheduler.ClaimedAtMostOnce` | service/provider_scheduler.go:144-175 | no two runners ever have the same job |
| `ProviderScheduler.RunnerCalls` | service/provider_runner.go:27-159 | at most max(1, MaxAttemptsPerJob) calls, distinct keys, distinct try indexes; every call but the last was a key-specific definite refusal before public output and before the timeout |
| `ProviderScheduler.RunnerCanMove` | service/provider_runner.go:27-159 | a runner that has not returned always has a next step once its call is answered |
| `ProviderScheduler.RunnerStepsAreBounded` | service/provider_runner.go:27-159 | in any run a runner takes at most 8 * max(1, MaxAttemptsPerJob) + 2 steps |
| `ProviderScheduler.LoadEffect` | service/provider_runner.go:27-66 | an attempt calls iff its key is usable, the job is open and its timeout has not passed |
| `ProviderScheduler.AnsweredEffect` | service/provider_runner.go:71-158 | the runner goes on to another key iff the answer is a key-specific definite refusal, neither confirmed nor cancelled, without public output, before the timeout, and fewer than MaxAttemptsPerJob calls were made |
| `ProviderScheduler.SwitchEffect` | service/provider_runner.go:133-135 | a switch gives the key's slot back first |
| `ProviderScheduler.ChooseEffect` | service/provider_runner.go:136-145 | then an untried key with a free slot is chosen, or the runner ends |
| `ProviderScheduler.ReserveNextEffect` | service/provider_runner.go:142-149 | then its slot is taken, unless it filled up meanwhile |
| `ProviderScheduler.LeaveEffect` | service/provider_runner.go:20-24 | leaving gives back the held slot, if any |
| `ProviderScheduler.SelectEffect` | service/provider_scheduler.go:113-125 | the scheduler selects a key with a free slot for a job whose timeout has not passed |
| `ProviderScheduler.ReserveEffect` | service/provider_scheduler.go:126-128 | it takes the slot, or starts over when the key filled up |
| `ProviderScheduler.ClaimEffect` | service/provider_scheduler.go:129-175 | it claims the job iff it is still pending and in time, and starts one runner with the reserved key |
| `ProviderScheduler.GiveBackEffect` | service/provider_scheduler.go:130-133 | a reservation without a claim is given back |
| `ProviderRunner.RunProviderJob` | service/provider_runner.go:15-159 | the loop terminates, its calls follow the answers, on every exit exactly the slot it was given is given back, and it stops only on an answer that rules a switch out, at the limit, without a listed, untried key that has room, or on an unusable attempt |
| `QueuePriority.TextOrderHoldsBelowIff` | models/llm_job.go:210-220 | the padded texts order as the numbers below a bound iff the bound is at most 10^78 |
| `QueuePriority.FormatReadsBack` | models/llm_job.go:210-220 | the text is decimal, reads back as the priority, has 78 digits for priorities below 10^78 and no padding above |
| `QueuePriority.BeforeIsNumeric` | service/provider_queue_priority.go:113-128 | rows come by priority as numbers and then by id, and in descending order exactly the other way round |
| `QueuePriority.CursorMatchesRest` | service/provider_queue_priority.go:113-128 | the keyset condition selects exactly the rows after the cursor |
| `QueuePriority.FirstNonExpiredProviderQueuedJob` | service/provider_queue_priority.go:101-149 | the paged scan terminates with the row an unpaged search finds |
| `QueuePriority.ProviderQueuePriority.Refresh` | service/provider_queue_priority.go:46-99 | the bounds are the least live priority when the first search ran and the greatest when the second did, absent iff the first found none; a failed second search keeps the old snapshot |
| `DepositScanner.ConvertTokenAmountToCredits` | service/credits.go:17-40 | the greatest number of Credits the amount pays for |
| `DepositScanner.DepositCommits` | service/credits.go:45-106 | a deposit of a registered user is on record after its transaction, whether new or repeated |
| `DepositScanner.RangesAreContiguous` | service/blockchain_processor.go:69-109 | completed ranges start after the start block, follow without gap or overlap, and never pass the confirmed tip |
| `DepositScanner.ScansAreConfirmed` | service/blockchain_processor.go:75-98 | in any run the end of every completed range and of the running scan, plus the confirmations, is at most the greatest block number the node reported |
| `DepositScanner.CreditsAreConfirmed` | service/blockchain_processor.go:75-98 | so is the block of every credited log, whose key and worth the deposit has |
| `DepositScanner.TickStarts` | service/blockchain_processor.go:75-93 | an idle scanner with a confirmed block past its cursor starts a scan from the next block to the last of its range or the last confirmed one, whichever comes first; otherwise it starts none |
| `DepositScanner.ScanSteps` | service/blockchain_processor.go:95-188 | a scan processes its logs in order, each once, and moves the cursor after the last one only; a crash leaves the cursor |
| `DepositScanner.WorthIs` | service/credits.go:17-40 | a well-formed log of a configured token that is no mint is worth the most Credits its amount pays for, any other log nothing |
| `DepositScanner.CreditedAtMostOnce` | service/blockchain_processor.go:111-188 | whatever crashes and rescans happen, a log is credited at most once and every deposit is for a log of the chain |
| `DepositScanner.PassedLogsAreCredited` | service/blockchain_processor.go:69-188 | a log at or below the cursor, worth a Credit and sent by a user registered before the first scan, is credited exactly once |
| `DepositScanner.CreditIsTheLogsWorth` | service/blockchain_processor.go:137-188 | such a deposit has the log's worth and sender |
| `CanonicalJson.WriteCanonicalString` | models/canonical_json.go:97-127 | the written text is the quoted, escaped string |
| `CanonicalJson.EscapeIs` | models/canonical_json.go:97-127 | quote, backslash and control characters are escaped, in short or as a code point with lower-case digits, and no other character is |
| `CanonicalJson.WriteCanonicalValue` | models/canonical_json.go:58-95 | whatever order the map yields its keys in, the text is the canonical one |
| `JsonParser.PrintParses` | models/canonical_json.go:58-127 | parsing a canonical text, followed by anything that cannot continue it, returns the tree and the rest |
| `JsonParser.NumberIsRead` | models/canonical_json.go:21-28 | a number text in a parsed tree is a number of section 6 of RFC 8259: no leading zero, digits after point and exponent mark |
| `JsonParser.NumberIsTaken` | models/canonical_json.go:21-28 | and every number of that section is read whole |
| `JsonParser.PairIsRead` | models/canonical_json.go:21-28 | a surrogate pair is read as its character, as section 7 has it |
| `JsonParser.LaterMemberCounts` | models/canonical_json.go:21-28 | of two members with one name the later one counts |
| `CacheKeys.PrintIsInjective` | models/canonical_json.go:13-32 | trees share a canonical text iff they are equal |
| `CacheKeys.ParsedIsWellFormed` | models/canonical_json.go:21-28 | every parsed tree has number texts of the grammar, so the theorems apply to it |
| `CacheKeys.QuantizationConfigKey` | models/canonical_json.go:36-56 | the key is the canonical text of what the configuration stands for, an error iff it cannot be read |
| `CacheKeys.TrimSpaceIs` | models/canonical_json.go:40-43 | white space is cut off at both ends, none is left there, and nothing else is cut off |
| `CacheKeys.KeysAgreeIff` | models/canonical_json.go:36-56 | two readable configurations share a key iff they stand for the same tree |
| `CacheKeys.KeyIsIdempotent` | models/canonical_json.go:36-56 | the key of a key is the key |
| `JsonPrefixes.ValueExtends` | models/canonical_json.go:21-28 | what a text parses to, it still parses to with text appended, unless that could continue a number |
| `CacheKeys.TrailingTextIsIgnored` | models/canonical_json.go:40-48 | appending to a readable configuration never changes what it stands for, unless the text could continue a number |
| `CacheKeys.TextAfterPrintIsIgnored` | models/canonical_json.go:40-48 | a canonical text stands for its tree whatever follows it, with the same exception |
| `OpenAIStream.OpenAIStreamAccumulator.AddToolDelta` | provider/openai.go:274-294 | id, name, arguments and emitted deltas of an index stay in step; the events are the start, when the delta is the first to name its index, and the arguments |
| `OpenAIStream.OpenAIStreamAccumulator.FinalizeTools` | provider/openai.go:189-206 | the tool calls of the non-negative indexes in ascending order |
| `OpenAIStream.ReadChatStream` | provider/openai.go:208-342 | the events are exactly those of the choices in turn: the text, each tool delta's start when it is the first to name its call and its arguments, and on a finish a completion for every tool call and the reason; then the usage or the error; the accepted message's content and every tool call's arguments are the concatenated deltas, received and emitted; public output began iff a public event was emitted |
| `OpenAIStream.LastIdAndName` | provider/openai.go:274-294 | a tool call has the last id and the last name sent for its index |
| `StreamEvents.PublicIs` | provider/openai.go:208-342 | everything counts as public output except the start of the stream, the end of a tool call, the usage and an error |
| `GoogleStream.ReadStreamText` | provider/google.go:189-204 | the concatenated deltas are the final text |
| `GoogleStream.CumulativeIsLast` | provider/google.go:189-204 | when every chunk repeats the text so far, the result is the last chunk |
| `GoogleStream.JoinedIff` | provider/google.go:189-204 | chunks come out concatenated iff each only adds to the text before it |
| `PublicStream.PublicStreamEncoder.EncodeChatCompletions` | provider/public_sse.go:56-177 | the frames of an event, the role frame first when it is still missing; stop iff the event is an error |
| `PublicStream.RoleIsSentOnceAndFirst` | provider/public_sse.go:56-106 | the role frame goes out iff a content or tool-start frame does, once, and before all of them |
| `PublicStream.FramesShowEvents` | provider/public_sse.go:56-177 | without the role frame, the frames are those of the shown events one by one, each carrying its event, the finish included |
| `PublicStream.ClientReadsWhatWasEmitted` | provider/public_sse.go:56-124 | concatenating the frames gives exactly the emitted text and arguments |
| `PublicStream.ClientReadsTheMessage` | provider/openai.go:208-342 | what a client concatenates is the stored message's content, and the arguments of each of its tool calls, if any |
| `FormPaths.ParseMultipartBracketField` | llmadapter/images_edits.go:212-248 | the loop is the parse |
| `FormPaths.PrintedPathParses` | llmadapter/images_edits.go:212-248 | printing a path in bracket form and parsing it returns the path |
| `FormPaths.ParsedPathPrints` | llmadapter/images_edits.go:212-248 | a parsed path is valid and prints back to its field, so different fields are different paths |
| `FormValues.InsertionsCommute` | llmadapter/images_edits.go:250-305 | insertions at different paths commute, errors included |
| `FormValues.InsertedIsFound` | llmadapter/images_edits.go:250-305 | an inserted leaf is found at its path; nothing was overwritten and a list only grew |
| `FormValues.InsertKeepsLeaves` | llmadapter/images_edits.go:250-305 | an insertion leaves every leaf at another place as it was |
| `FormValues.InsertEncodes` | llmadapter/images_edits.go:307-327 | an insertion leaves an encodable object iff it was one and no new value reads as NaN or an infinity |
| `FormValues.NonFiniteIs` | llmadapter/images_edits.go:307-327 | the texts that read as a number JSON cannot carry: NaN without a sign, an infinity with or without one, in any case, between white space |
| `MultipartForm.AddField` | llmadapter/images_edits.go:144-198 | one field's checks and effect |
| `MultipartForm.StepsCommute` | llmadapter/images_edits.go:144-198 | any two different fields commute, errors included |
| `MultipartForm.OrderDoesNotMatter` | llmadapter/images_edits.go:139-210 | every order of the fields gives the same result |
| `MultipartForm.MultipartFormValuesToRaw` | llmadapter/images_edits.go:139-210 | the loops over the maps return the result of every order |
| `MultipartForm.EncodeNested` | llmadapter/images_edits.go:202-209 | every nested object joins the others, or the form is refused because one cannot be encoded |
| `MultipartForm.EncodesIff` | llmadapter/images_edits.go:139-210 | a form whose fields fit together is refused iff a bracket field has a text that reads as NaN or an infinity |
| `MultipartForm.MixedFormIsRefused` | llmadapter/images_edits.go:165-196 | an object field given as JSON text and as a bracket field is refused in every order |
| `MultipartContents.AcceptedFormHolds` | llmadapter/images_edits.go:139-210 | an accepted form is taken in full and nothing is added: a field with values is one of the allowed plain fields and leaves its last value as that field asks, or the bracket field of a path into one of the two objects and leaves its values there; every member and every leaf comes from such a field |
| `MultipartAcceptance.AcceptedIff` | llmadapter/images_edits.go:139-327 | a form is accepted iff every field with values is a supported plain field, an object field blank or JSON, or the bracket field of a path into one of the two objects, with one value unless it ends in a list; the place of no path is at or above that of another; no object comes both ways; and no bracket field has NaN or an infinity |

## Left out

- Isolation levels, SQL dialects and row locks: a transaction is atomic, and a unique-key violation is its only conflict.
- HTTP clients and handlers, Bridge, Relay and provider calls: their answers are arbitrary inputs of steps.
- Floating point: fees are exact rationals or any monotone function of the priority; a fee calculator that fails is not modelled.
- Encryption, signatures, tokens and referral codes: a signature check is an input, and an invite code is the user it belongs to.
- Task result directories: deleting a job removes its row only, and the row leaves a gap.
- Guarded status updates (`UpdateTaskJobStatus`, `UpdateTaskJobPhase`, `ResetTaskJobToPending`, `UpdateTaskJobBridgeTask`): actions of the model without an in-place method; targets are non-terminal, as all callers pass.
- Abort: its last transaction is the recorded failure; the Bridge call before it is an input.
- Legacy rows with a missing user or project id, and opening-balance migration events.
- API key usage counters, unavailable counts, cooldown and token limits: which keys are listed is an input of the scheduler.
- Statistics snapshots, dirty generations, day summaries, recent-failure windows and `MergeDurationDisplayBuckets`: they are rebuilt from the base tables.
- FormValues.InsertionsCommute: nested objects are values, not shared mutable maps, so update in place is not captured; scalar coercion is a function of the text and is kept as the text.
- MultipartForm.MultipartFormValuesToRaw: which error a refused form reports is not modelled; it does depend on the order.
- ProviderRunner.RunProviderJob: without interference on the slot table; interference is in `ProviderScheduler`, where each step is separate.
- ProviderScheduler.RunnerStepsAreBounded: counts steps of the attempt loop only; the settlement retry loop depends on the database answering.
- JsonParser.PrintParses: the decoder's nesting limit of 10000 is not modelled.
- QueuePriority.FirstNonExpiredProviderQueuedJob: the rows do not change between pages; priorities are not negative.
- OpenAIStream.ReadChatStream: response id, model and creation time of the stream are not modelled.
- Google tool-call merging, Anthropic blocks, the Responses encoder and non-streaming results.
- Token estimation from request bodies, image validation, and the execution-time cache and its key.
