# Money state of the trading worker

A Dafny model of the parts of the worker that keep money state right under losses,
retries, crashes and stops, with proofs over all inputs and all runs. Money is whole
cents (units of 1e-8 for the trade metrics), payout ratios are reals, times are
integers or reals, and every database block of the program is one step.

Where the program works in place (rows, dictionaries, sets, lists), a class or a loop
does so here and is proved equal to a function on values; the theorems are about that
function and about runs of it.

| file | what it models |
|---|---|
| `UncertainPurchase.dfy` | a BUY whose acknowledgement may be lost, over account, network and provider |
| `RecoveryStake.dfy`, `AidrRecovery.dfy`, `RiskAccount.dfy`, `AidrRuns.dfy` | AIDR recovery: stake arithmetic, recorder, planner and strict guard; the risk row in place; whole runs |
| `Lifecycle.dfy` | status and enabled writes, and Stop racing a settlement |
| `AidrRouting.dfy` | the account partition at purchase time |
| `Scheduler.dfy`, `SchedulerFates.dfy`, `SchedulerStore.dfy` | the persistent scheduler as transactions, why a row gets its status, and the tables in place |
| `ContractCycle.dfy`, `SignalVotes.dfy` | contract and signal bookkeeping, and the majority behind a shared update |
| `BulkPurchase.dfy` | sharding of a bulk purchase and its results |
| `TradeMetrics.dfy`, `TradeEvents.dfy` | the metrics cursor against the full rescan and against the events |
| `SplitRecovery.dfy` | split-by-wins recovery |
| `LossRotation.dfy` | the loss-rotation list |
| `RateLimit.dfy` | the sliding-window limiter |
| `BulkReply.dfy`, `BulkReplyPipeline.dfy`, `Strings.dfy` | reconciliation of bulk replies over JSON trees |

## What the proofs found

Each of these is a promise the code does not keep for every input. A lemma gives the
input; the exact condition, where a second lemma states it, is named after it.

- A recovery contract that settles at exactly zero on a later UTC day leaves the
  account VIRTUAL without debt (`AidrRuns.BreakEvenLeavesVirtual`; exact condition
  `AidrRuns.ConsistentExactly`). It costs a virtual confirmation that no debt calls for
  and an OVER-4 trade at the base stake (`AidrRuns.BreakEvenCostsConfirmation`).
- The planner's new day clears the debt but keeps the post-virtual marker, so the next
  first loss is recovered at OVER-4 without virtual confirmation
  (`AidrRuns.KeptMarkerIsReached`; `AidrRuns.UnmarkedExactly`).
- A crash between a virtual promotion and its marker can repeat OVER-3 in one episode
  (`AidrRuns.LostMarkerRepeatsOver3`; `AidrRuns.OneShotExactly`).
- A planned recovery can exceed the spendable balance, because the stake is raised to a
  target in whole cents after the limits were applied to a lower quote
  (`AidrRecovery.RecoveryOverspends`; `AidrRecovery.RecoveryWithinBalanceExactly`).
- A Stop that commits after the settlement's re-check is undone exactly on two branches
  (`Lifecycle.StopAfterCheckExactly`).
- A task cancelled between its BUY and the reply forgets the BUY
  (`UncertainPurchase.CancelledTaskForgetsBuy`), and a closed deal of the same stake
  within 45 seconds can be taken for one on the wire
  (`UncertainPurchase.StaleDealIsMistaken`). The steps at which a BUY escapes are listed
  exactly by `UncertainPurchase.GuardedExactly`; in a fair environment none of them
  occurs (`UncertainPurchase.FairNeverLeaks`).
- A Stop between a claim and its apply lets two schedules own one account
  (`Scheduler.StopInsideCycleBreaksOwnership`; `Scheduler.SingleOwnerExactly`), and a
  worker that applies a row another one has started marks the running schedule failed
  (`Scheduler.SecondApplyFailsRunning`).
- A Wait schedule that was admitted to waiting is skipped when a later claim of it is
  interrupted and expires after the grace (`SchedulerFates.WaitingRowIsSkipped`;
  `SchedulerFates.SkippedExactly`).
- Registering a contract after its signal closed applies the shared strategy update
  twice (`ContractCycle.LateRegistrationUpdatesTwice`; `ContractCycle.SecondUpdateExactly`).
- An incremental metrics step that settles out of order disagrees with the rescan for
  every non-zero profit (`TradeMetrics.RefinesExactlyInOrder`), and a metrics step whose
  exception is swallowed leaves the cursor behind by the trade's profit until the next
  repair (`TradeMetrics.MissedStepLags`, `TradeMetrics.LagStays`, `TradeMetrics.RepairEndsLag`).
- A loss on a market that is not configured frees the oldest blocked market of a full
  list (`LossRotation.UnknownLossExactly`).
- The limiter reads its clock before it takes the lock; a late request can make it
  refuse with room left (`RateLimit.LateClockReadRefuses`; `RateLimit.RefusedWithRoomExactly`).
- Turning an account-keyed entry into a member can replace the account the entry states
  under another name (`BulkReplyPipeline.MappingReplacesAccount`;
  `BulkReplyPipeline.MappingKeepsAccountExactly`), and a blank
  account field ahead of a real one makes a second pass differ from the first
  (`BulkReply.BlankAccountTakesTwoPasses`; `BulkReplyPipeline.IdempotentExactly`).
- A list or object under an id field that is searched raises TypeError, so the member
  becomes neither a purchase nor an error (`BulkReplyPipeline.ListUnderIdRaises`;
  `BulkReplyPipeline.RaisesExactly`).

Two places where documentation and code differ: README.md line 63 of the repository
says an uncertain BUY is reconciled before any later purchase; the code lets go of the
lock after 75 seconds, on disable and on restart (`UncertainPurchase.WindowEndForgetsBuy`,
`DisableForgetsBuy`, `RestartForgetsBuy`). The docstrings of the reconciler say that
undecodable members become explicit errors; it can raise TypeError instead, which the
model keeps as `None`.

## Model

| member | source | states |
|---|---|---|
| RecoveryStake.CeilCents | app/recovery.py:7-8 | the result is the least whole number of cents not below the value |
| RecoveryStake.StakeSuffices | app/ai_digit_recovery_v1.py:67-96 | a win at the planned stake clears all debt even when the realised payout ratio has fallen to the planned one divided by 1.06 |
| RecoveryStake.TargetIsLeast | app/ai_digit_recovery_v1.py:67-83 | the target is the least whole number of cents five cents and six percent above the debt |
| RecoveryStake.StakeIsLeast | app/ai_digit_recovery_v1.py:67-83 | the stake is the least, not below 35 cents and the base stake, whose payout reaches the target |
| RecoveryStake.SharedQuoteExactly | app/recovery.py:20-71 | the shared quote is the least stake that covers debt and cushion, and when it is allowed |
| RecoveryStake.GeometricGrowth | app/ai_digit_recovery_v1.py:67-83 | after k straight recovery losses the debt lies between g^k D0 and g^k D0 plus a geometric sum, g = 1 + 1.06/r |
| RecoveryStake.GrowthUpperBoundClosedForm | app/ai_digit_recovery_v1.py:67-83 | the upper bound in closed form, c (g^k - 1)/(g - 1) |
| AidrRecovery.RequiredWins | app/repositories/rf_dir5_repository.py:161-189 | the least number of virtual wins that is at least the hook's, 2 from trap score 1 and 3 from trap score 3 |
| AidrRecovery.ClassifiersAgree | app/ai_digit_recovery_v1.py:158-184 | for a single row, reachable or not: grouping and action name the same barrier and kind exactly unless it is NORMAL, without debt, and flagged |
| AidrRecovery.RecoveryPlanHasDebt | app/aidr_strict_recovery_guard.py:315-430 | a recovery stake is planned only for a row with debt outside VIRTUAL |
| AidrRecovery.VirtualNeverStaked | app/aidr_strict_recovery_guard.py:315-430 | a stake leaves a VIRTUAL row only with the hook disabled on a new day, and never as a recovery |
| AidrRecovery.SettlementConserves | app/ai_digit_recovery_v1.py:526-568 | within a day a settlement never lowers profit plus debt; only a win that clears the debt raises it |
| AidrRecovery.RecorderForgivesExactly | app/ai_digit_recovery_v1.py:477-586 | the recorder alone gives up debt exactly on a win outside recovery that is smaller than the debt |
| AidrRecovery.SettledMoney | app/ai_digit_recovery_v1.py:477-586 | day, profit, losses and debt after a settlement, recorder and guard together, on the same day and on a new one |
| AidrRecovery.SettledMode | app/aidr_strict_recovery_guard.py:432-646 | mode, pending flag and marker after a settlement: when it is VIRTUAL, REAL_RECOVERY or NORMAL |
| AidrRecovery.SettledTrap | app/aidr_strict_recovery_guard.py:432-646 | when the adaptive trap is cleared, tightened by one up to 5, or kept |
| AidrRecovery.SettledWithRecoveryOff | app/aidr_strict_recovery_guard.py:432-646 | the whole row after a settlement with recovery off |
| AidrRecovery.PlannedRowExactly | app/aidr_strict_recovery_guard.py:315-430 | the row a plan leaves: forced to VIRTUAL, rolled into a new day that keeps marker and trap, attempted, or as it was |
| AidrRecovery.AttemptTakenBack | app/custom_execution_consistency_authority.py:231-241 | an attempt that was planned but not bought is undone |
| AidrRecovery.ConfirmedExactly | app/aidr_strict_recovery_guard.py:231-290 | which rows the confirmation pass promotes, and what a crash between its blocks leaves |
| AidrRecovery.PlannedStakeExactly | app/ai_digit_recovery_v1.py:589-648 | a recovery plan stakes the least amount that reaches the target, any other plan the base stake within the spendable balance |
| AidrRecovery.RecoveryPlanRepays | app/ai_digit_recovery_v1.py:589-648 | a win at the stake of a recovery plan leaves no debt down to ratio / 1.06, and the stake is at most base + target/ratio + 1 |
| AidrRecovery.RefusedExactly | app/repositories/rf_dir5_repository.py:601-716 | a plan is refused exactly in VIRTUAL, for a base stake that cannot be spent, or when no affordable stake covers an owed recovery |
| AidrRecovery.PlannedWithRecoveryOff | app/ai_digit_recovery_v1.py:631-634 | with recovery off every plan stakes the base stake |
| AidrRecovery.RecoveryWithinBalanceExactly | app/ai_digit_recovery_v1.py:631-647 | a planned recovery stays within the spendable balance exactly when that balance is itself at least 35 cents and reaches the target |
| AidrRecovery.RecoveryOverspends | app/ai_digit_recovery_v1.py:631-647 | a recovery of 192 cents planned with 191 to spend |
| AidrRecovery.PromotedExactly | app/repositories/rf_dir5_repository.py:1036-1062 | over any observations a VIRTUAL row is promoted exactly once enough wins stood in a row, and until then counts streaks, losses and observations |
| AidrRecovery.StreakExactly | app/repositories/rf_dir5_repository.py:1036-1051 | the win counter reaches n exactly when the last n observations were all wins |
| RiskRows.RiskAccount.ForceVirtualMode | app/aidr_strict_recovery_guard.py:193-214 | the row enters VIRTUAL; progress and marker are dropped on entry only |
| RiskRows.RiskAccount.EnterVirtualMode | app/ai_digit_recovery_v1.py:454-464 | the recorder's own entry to VIRTUAL starts from zero counters |
| RiskRows.RiskAccount.ResetAfterStop | app/aidr_strict_recovery_guard.py:167-190 | the row becomes the stopped state |
| RiskRows.RiskAccount.RecordPostVirtualRecoveryLoss | app/aidr_adaptive_virtual.py:114-129 | the trap tightens by one up to its maximum |
| RiskRows.RiskAccount.RecordAccountOutcome | app/ai_digit_recovery_v1.py:477-586 | the row after a settlement is the recorder function of the row before |
| RiskRows.RiskAccount.StrictRecordOutcome | app/aidr_strict_recovery_guard.py:432-646 | the recorder under the strict guard, field by field, refines the settlement function of the run theorems |
| RiskRows.RiskAccount.PlanAidrStake | app/ai_digit_recovery_v1.py:589-648 | base plan and AIDR stake refine the planner function, whose stake and refusals `PlannedStakeExactly` and `RefusedExactly` state |
| RiskRows.RiskAccount.StrictPlanStake | app/aidr_strict_recovery_guard.py:315-430 | the guarded planner refines the planner function of the run theorems, whose row and stake `PlannedRowExactly` and `RecoveryPlanRepays` state |
| RiskRows.RiskAccount.SettleVirtual | app/repositories/rf_dir5_repository.py:961-1079 | one virtual observation refines the function that `PromotedExactly` counts over: wins in a row promote, a loss starts over |
| RiskRows.RiskAccount.PromoteConfirmed | app/aidr_strict_recovery_guard.py:231-290 | the promotion commit of one row, and whether it promoted |
| RiskRows.RiskAccount.MarkConfirmed | app/aidr_strict_recovery_guard.py:231-290 | the marker commit of one row, which a crash can lose |
| RiskRows.ReconcileConfirmations | app/aidr_strict_recovery_guard.py:231-290 | the pass promotes each due row and no other |
| AidrRuns.ConsistentExactly | app/ai_digit_recovery_v1.py:511-568 | one event keeps pending, debt, mode, attempt, counters and open contract in step exactly unless a recovery breaks even across midnight |
| AidrRuns.RunsAreConsistent | app/aidr_strict_recovery_guard.py:339-430 | every state of a run is consistent exactly when no recovery breaks even across midnight |
| AidrRuns.OrderlyStays | app/ai_digit_recovery_v1.py:511-568 | every event, without exception, keeps: NORMAL rows are clear, debt is pending, attempts are real recoveries, no real contract is open in VIRTUAL |
| AidrRuns.ReachableClassifiersAgree | app/aidr_execution_flow_fix.py:26-41 | grouping and action agree in every state of every run |
| AidrRuns.UnmarkedExactly | app/repositories/rf_dir5_repository.py:601-716 | after any event a NORMAL row has no marker exactly unless the planner rolled an armed row into a new day |
| AidrRuns.RunsLeaveNormalUnmarked | app/aidr_strict_recovery_guard.py:508-595 | the same for every state of every run |
| AidrRuns.StepConserves | app/ai_digit_recovery_v1.py:526-568 | within a day and without Stop no event lowers profit plus debt |
| AidrRuns.PotentialNeverFalls | app/ai_digit_recovery_v1.py:86-96 | nor does any run |
| AidrRuns.EpisodeRestoresProfit | app/ai_digit_recovery_v1.py:526-568 | when debt returns to 0 the day's profit is at least what it was before the losing episode |
| AidrRuns.RecoveryWinClears | app/ai_digit_recovery_v1.py:526-647 | on a run, a recovery bought and won the same day with ratio slipped at most by 1.06 ends without debt, NORMAL |
| AidrRuns.BuyExactly | app/aidr_strict_recovery_guard.py:315-430 | a contract is open after a purchase event exactly when one was before or an admitted plan was accepted; its action is the row's |
| AidrRuns.SettleCloses | app/aidr_strict_recovery_guard.py:432-678 | a settlement closes the contract whatever became of the account, and what it leaves owed |
| AidrRuns.ObservedExactly | app/aidr_strict_recovery_guard.py:681-775 | an observation changes VIRTUAL rows of accounts that are not stopped only, and writes the marker with a promotion only |
| AidrRuns.ControlsExactly | app/account_lifecycle.py:60-127 | Stop, Pause, Start and the absence of a purchase, each with all it changes |
| AidrRuns.OneShotExactly | app/aidr_strict_recovery_guard.py:597-646 | with the hook on, any event keeps "at most one OVER-3 per episode, and VIRTUAL while a failed recovery is owed a promotion" exactly unless it loses the marker of an episode that has bought its OVER-3 |
| AidrRuns.OneShotRecovery | app/aidr_strict_recovery_guard.py:217-290 | every state of every run with fixed hook settings keeps it exactly when no event loses such a marker |
| AidrRuns.PurchaseNotOwed | app/aidr_strict_recovery_guard.py:315-430 | no real purchase is made between a failed recovery and its promotion |
| AidrRuns.PromotionsAreEarned | app/aidr_strict_recovery_guard.py:231-290 | every promotion out of VIRTUAL has the wins that the trap asks for |
| AidrRuns.RequirementNeverFalls | app/aidr_adaptive_virtual.py:114-171 | within an episode the wins asked for never fall |
| AidrRuns.BreakEvenLeavesVirtual | app/aidr_strict_recovery_guard.py:495-646 | a reachable account VIRTUAL without debt, against the invariant, which the confirmation pass skips |
| AidrRuns.WinningObservationReleases | app/repositories/rf_dir5_repository.py:1036-1062 | enough virtual wins promote and mark a VIRTUAL row without debt like any other |
| AidrRuns.BreakEvenCostsConfirmation | app/repositories/rf_dir5_repository.py:1036-1062 | the price of that account: no purchase until a virtual win, then an OVER-4 trade at the base stake that is no recovery; a win makes it NORMAL and consistent |
| AidrRuns.KeptMarkerSkipsConfirmation | app/repositories/rf_dir5_repository.py:601-716 | from any armed row, a kept marker turns the next first loss into an OVER-4 recovery |
| AidrRuns.KeptMarkerIsReached | app/repositories/rf_dir5_repository.py:601-716 | the armed row is reached from the start state, and any loss the next day is then recovered at OVER-4 |
| AidrRuns.LostMarkerRepeatsOver3 | app/aidr_strict_recovery_guard.py:681-775 | a lost marker leads to a second OVER-3 in one episode |
| Lifecycle.OnlyStartEnables | app/account_mode_execution_lock.py:117-202 | a disabled row is enabled after any writes exactly when a Start came after the last disabling write; without a Start it is never executable, with a Start at the end it is |
| Lifecycle.EnabledExactly | app/final_public_controls.py:125-157 | the same for every row: enabled exactly when nothing disabled it or a Start came after |
| Lifecycle.LockedWriteKeepsClosed | app/account_mode_execution_lock.py:117-177 | a locked status write leaves a stopped, paused or settling row closed exactly unless the row is enabled and the status is none the lifecycle code names |
| Lifecycle.PhaseExactly | app/account_mode_execution_lock.py:76-114 | the phase of every row, and exactly which rows may start new execution |
| Lifecycle.WriteExactly | app/account_mode_execution_lock.py:117-177 | status, permission and stamp after any of the seven writes: which are ignored and which take the permission away |
| Lifecycle.WorkersKeepClosed | app/aidr_strict_recovery_guard.py:67-91 | no sequence of worker writes changes the status of a closed row or opens it |
| Lifecycle.ManagedAccount.SetAccountActive | app/aidr_strict_recovery_guard.py:67-91 | the guarded status write, and when it writes nothing |
| Lifecycle.ManagedAccount.RestoreDisabledLifecycle | app/aidr_strict_recovery_guard.py:94-110 | the restore of a paused or stopped row |
| Lifecycle.ManagedAccount.SetStatusWithAutomaticPause | app/account_lifecycle.py:87-105 | the status writer that pauses |
| Lifecycle.ManagedAccount.SetStatusLocked | app/account_mode_execution_lock.py:117-177 | the locked writer over it refines the write function |
| Lifecycle.StopBeatsSettlement | app/aidr_strict_recovery_guard.py:440-493 | a Stop that commits at any place before the re-check ends with debt 0, NORMAL, no marker and a stopped, disabled row |
| Lifecycle.StopAfterCheckExactly | app/aidr_strict_recovery_guard.py:597-678 | after the re-check the Stop survives exactly unless the hook branch or the paused restore still writes |
| Lifecycle.SettledRowExactly | app/aidr_strict_recovery_guard.py:432-678 | without a Stop, the row status a settlement leaves on a stopped, paused or running account |
| Lifecycle.StopAfterSettlement | app/aidr_strict_recovery_guard.py:167-190 | a Stop after the settlement returned wins |
| Lifecycle.SettlementNeverEnables | app/aidr_strict_recovery_guard.py:432-678 | wherever Stop commits, the row ends disabled |
| AidrRouting.Route | app/aidr_execution_flow_fix.py:144-205 | the loop fills each collection with exactly its accounts; with own ids and masks the four returned collections are a partition |
| AidrRouting.LaneExactly | app/aidr_execution_flow_fix.py:26-41 | the barrier each account trades at, and its lane for any signal |
| AidrRouting.LanesPartition | app/aidr_execution_flow_fix.py:144-205 | what the router collects shares no account, misses no managed eligible account, and the four sizes add up |
| AidrRouting.OpenedCount | app/aidr_execution_flow_fix.py:144-205 | the reported number of opened virtual contracts is the size of its lane |
| AidrRouting.PurchaseScopeIsRealLane | app/ai_digit_recovery_v1.py:692-704 | with one row per account the purchase scope is the real lane, so no VIRTUAL account enters it |
| UncertainPurchase.CandidateFromTransactions | app/custom_execution_consistency_authority.py:244-267 | the loop returns the match exactly when it is the only one |
| UncertainPurchase.UniqueExactly | app/custom_execution_consistency_authority.py:244-267 | what "the only one" means: this entry matches and no other does |
| UncertainPurchase.PassRegistersExactly | app/custom_execution_consistency_authority.py:270-304 | a pass registers the portfolio's unique match whatever the profit table holds, without one the profit table's unique match, otherwise nothing |
| UncertainPurchase.GuardedExactly | app/custom_execution_consistency_authority.py:305-399 | every step keeps a BUY at large under the lock exactly unless it is one of the listed leaks |
| UncertainPurchase.GuardedIsSafe | app/custom_execution_consistency_authority.py:428-505 | a guarded account has at most one open real contract, and none while it may buy |
| UncertainPurchase.GuardedRuns | app/custom_execution_consistency_authority.py:305-399 | in any environment a run is guarded throughout exactly when none of its steps leaks |
| UncertainPurchase.LeakFreeRunsAreSafe | app/custom_execution_consistency_authority.py:428-505 | such runs never send a second BUY and have at most one open contract |
| UncertainPurchase.FairNeverLeaks | app/custom_execution_consistency_authority.py:305-399 | with the account enabled, only timeouts hiding, truthful replies, the hidden deal visible within the window, and every other visible deal unlike it unless the answered portfolio shows it open, no step leaks |
| UncertainPurchase.NoDuplicateBuy | app/custom_execution_consistency_authority.py:244-505 | on every run in that environment no BUY is sent while an earlier one is executed but unregistered or on the wire, and at most one real contract is open in every state |
| UncertainPurchase.TimeoutIsReconciled | app/custom_execution_consistency_authority.py:305-399 | such a run exists for every stake: a lost reply ends monitored and unlocked |
| UncertainPurchase.CancelledTaskForgetsBuy | app/seamless_execution_recovery.py:23-37 | a cancelled task leaves an open deal unknown and the account free to buy |
| UncertainPurchase.WindowEndForgetsBuy | app/custom_execution_consistency_authority.py:357-379 | so does the end of the window before the BUY executes |
| UncertainPurchase.DisableForgetsBuy | app/custom_execution_consistency_authority.py:314-379 | so does disabling the account while it is reconciled |
| UncertainPurchase.RestartForgetsBuy | app/custom_execution_consistency_authority.py:76-89 | so does a restart, since the lock is in memory |
| UncertainPurchase.UniqueMatchIsReconciled | app/custom_execution_consistency_authority.py:270-376 | on such a run the hidden BUY is registered, as the very deal that executed, by the first answered pass after it became visible and at the latest when 75 seconds are over |
| UncertainPurchase.LookAlikeIsOutranked | app/custom_execution_consistency_authority.py:279-304 | a closed deal of the same stake in the profit table loses against the hidden deal in the portfolio |
| UncertainPurchase.StaleDealIsMistaken | app/custom_execution_consistency_authority.py:244-267 | a closed deal of the same stake is accepted for a BUY still on the wire |
| UncertainPurchase.AmbiguityLock.Schedule | app/custom_execution_consistency_authority.py:382-399 | the timeout step of the account in the shared maps; a running reconciliation is not doubled |
| UncertainPurchase.AmbiguityLock.Finish | app/custom_execution_consistency_authority.py:376-379 | the release of the account in the shared maps, no other account touched |
| UncertainPurchase.AmbiguityLock.OpenActual | app/custom_execution_consistency_authority.py:667-672 | busy exactly when the account's state has an open contract or the lock |
| Scheduler.StartKeepsSingleOwnerExactly | app/automation_scheduler_action5.py:643-798 | a start keeps one running schedule per account exactly unless it meets an account stopped under a running schedule |
| Scheduler.SingleOwnerExactly | app/automation_scheduler_action5.py:565-798 | along every interleaving an account has a single owner throughout exactly when no apply meets such an account |
| Scheduler.ReconcileNeverStarts | app/automation_scheduler_action5.py:450-559 | on sound states the reconcile pass never starts a session |
| Scheduler.ReconcilePassGuarantee | app/automation_scheduler_action5.py:450-559 | after a pass over an up-to-date listing every running schedule's account is enabled and no starting schedule has an expired claim |
| Scheduler.SingleOwnerAlways | app/automation_scheduler_action5.py:827-861 | with whole cycles every reachable state has at most one running schedule per account |
| Scheduler.StatusesOnlyAdvance | app/automation_scheduler_action5.py:420-798 | along every interleaving of create, claim, apply, reconcile, cancel, replace and mark-terminal by any workers, with Stops and Starts in between, statuses only move up before-running, running, terminal; terminal is absorbing; a schedule starts, and enables its account, at most once |
| Scheduler.StopInsideCycleBreaksOwnership | app/automation_scheduler_action5.py:565-798 | a run from an empty table that ends with two running schedules of one account |
| Scheduler.SecondApplyFailsRunning | app/automation_scheduler_action5.py:845-852 | applying a row that another worker has started marks it failed and leaves its account enabled |
| SchedulerFates.SkippedExactly | app/automation_scheduler_action5.py:683-702 | the exact steps that skip a row: its own Skip policy on an active account, or lateness |
| SchedulerFates.WaitingExactly | app/automation_scheduler_action5.py:683-726 | the exact steps that make a row wait: its Wait policy, open contracts, or a claim found on an active account |
| SchedulerFates.RunningExactly | app/automation_scheduler_action5.py:703-798 | the exact condition under which a row starts |
| SchedulerFates.CompletedExactly | app/automation_scheduler_action5.py:618-640 | a row completes exactly when finished so, taken over by a Replace row of its account, or found stopped without a failure |
| SchedulerFates.FailedExactly | app/automation_scheduler_action5.py:450-559 | the reconcile pass fails exactly rows without an account and running rows stopped by a failure |
| SchedulerFates.StartingExactly | app/automation_scheduler_action5.py:565-615 | which claims start a row rather than skip it |
| SchedulerFates.ScheduledExactly | app/automation_scheduler_action5.py:492-526 | an expired claim returns to the queue exactly within the grace |
| SchedulerFates.CancelledExactly | app/automation_scheduler_action5.py:1026-1059 | only rows that have neither run nor ended are cancelled |
| SchedulerFates.RowFrame | app/automation_scheduler_action5.py:450-798 | what no step changes of a row, and where a claim's 45 seconds are written and cleared |
| SchedulerFates.AccountsExactly | app/automation_scheduler_action5.py:703-798 | which steps change an account, and to what: started under the row's name, or stopped by a takeover that could not start |
| SchedulerFates.ClaimsComeInOrder | app/automation_scheduler_action5.py:565-585 | the claimed row is due, and no free due row comes before it by time and creation |
| SchedulerFates.StartFailsExactly | app/automation_scheduler_action5.py:845-852 | the start loop fails a claimed row exactly when it cannot be applied |
| SchedulerFates.OutcomeNamesStatus | app/automation_scheduler_action5.py:643-824 | the answer of an apply names the row's new status |
| SchedulerFates.RunsAreSteps | app/automation_scheduler_action5.py:827-861 | every run with whole passes is a run of single transactions with the same result |
| SchedulerFates.SkippedOnlyWhenLate | app/automation_scheduler_action5.py:683-702 | over every run a Wait or Replace row is not skipped unless a claim or reconcile of it came late |
| SchedulerFates.OnlyWaitWaits | app/automation_scheduler_action5.py:683-702 | over every run a Skip or Replace row never waits for a session |
| SchedulerFates.WaitingRowIsSkipped | app/automation_scheduler_action5.py:492-526 | a Wait row admitted to waiting is skipped when a later claim expires after the grace |
| SchedulerTables.SchedulerStore.MarkScheduleTerminal | app/automation_scheduler_action5.py:420-447 | the transaction, and whether it changed the row |
| SchedulerTables.SchedulerStore.CancelSchedule | app/automation_scheduler_action5.py:1026-1059 | running and terminal rows are left alone |
| SchedulerTables.SchedulerStore.ReconcileRunning | app/automation_scheduler_action5.py:450-559 | listing and loop are the reconcile pass of the run theorems |
| SchedulerTables.SchedulerStore.ReconcileOne | app/automation_scheduler_action5.py:465-559 | one row's transaction, by the expiry listed before it |
| SchedulerTables.SchedulerStore.ClaimNextDue | app/automation_scheduler_action5.py:565-615 | the row found is due and first among those no other worker holds locked, and is claimed or skipped |
| SchedulerTables.SchedulerStore.FinishReplacedRunning | app/automation_scheduler_action5.py:618-640 | exactly the other running schedules of the account complete |
| SchedulerTables.SchedulerStore.ApplySchedule | app/automation_scheduler_action5.py:643-824 | the start transaction refines the apply function, whose overlap policies `SkippedExactly`, `WaitingExactly` and `CompletedExactly` state |
| SchedulerTables.SchedulerStore.RunCycle | app/automation_scheduler_action5.py:827-861 | one whole pass is one cycle step of the run theorems |
| ContractCycle.ReleaseExactly | enhanced_bot.py:2748-2780 | release reports closed exactly at the signal's last contract, leaves the contract in no set or map, and touches no other signal |
| ContractCycle.ReleaseIsIdempotent | enhanced_bot.py:2748-2780 | releasing again changes nothing |
| ContractCycle.StepBalances | enhanced_bot.py:4703-4783 | at every step closings plus open equal openings plus open before; an update needs a closing |
| ContractCycle.RunBalances | enhanced_bot.py:4901-4934 | the same summed over any order of updates, duplicates and prune passes |
| ContractCycle.CycleClosesOnce | enhanced_bot.py:4703-4934 | with all contracts registered before the cycle closes it closes at most once, exactly when all are released, with at most one shared update |
| ContractCycle.LoneContractUpdates | enhanced_bot.py:4901-4934 | a single contract's cycle yields exactly one update, with its outcome |
| ContractCycle.LateRegistrationUpdatesTwice | app/account_execution_session.py:265-272 | registering after the close yields two updates for one signal, whatever the outcomes |
| ContractCycle.ReopenedExactly | app/account_execution_session.py:265-272 | a cycle is opened a second time exactly when a contract is registered after the close |
| ContractCycle.UpdatedExactly | enhanced_bot.py:4901-4934 | a step applies the shared update exactly when it first settles the signal's last contract and the outcomes are not tied; `UpdateIsMajority` says with which result |
| ContractCycle.SecondUpdateExactly | enhanced_bot.py:4703-4934 | over a run a second shared update is applied exactly when two settlements do that, and only after a registration past the close |
| ContractCycle.OrderStays | enhanced_bot.py:2748-2780 | every step keeps the insertion order naming each open signal once and nothing else |
| SignalVotes.TableIsLastNoted | enhanced_bot.py:4901-4911 | the outcome table of a signal is what the run's first-time settlements noted last for each account since its cycle closed |
| SignalVotes.UpdateIsMajority | enhanced_bot.py:197-209 | over any run a step applies a shared update with a result exactly when it closes the cycle and that result has more accounts, counted over the run's settlements; none on a tie |
| ContractCycle.ContractBook.ReleaseContract | enhanced_bot.py:2748-2780 | the in-place release refines the release function |
| ContractCycle.ContractBook.RegisterPurchase | app/account_execution_session.py:265-272 | the sets and maps after a registration |
| ContractCycle.ContractBook.HandleTerminal | enhanced_bot.py:4672-4934 | a terminal update in place refines the step whose shared update `UpdateIsMajority` states |
| ContractCycle.ContractBook.PruneStale | enhanced_bot.py:2842-2871 | exactly the pending contracts without a durable open trade are released |
| BulkPurchase.EligibleAccounts | enhanced_bot.py:4489-4506 | account ids are distinct, every client id is kept, and its first entry is the one kept |
| BulkPurchase.GroupByStake | enhanced_bot.py:3963-3980 | each group holds exactly its accounts in arrival order; the rest is rejected |
| BulkPurchase.CutGroup | enhanced_bot.py:3982-3986 | the shards of a group concatenate to it and are numbered from 1 |
| BulkPurchase.PlanShards | enhanced_bot.py:3963-3986 | every capable account is in exactly one shard, shards are uniform, sorted and in order |
| BulkPurchase.ShardOrderExactly | enhanced_bot.py:3977-3980 | demo before live, plain before martingale, lower stake first, then by index |
| BulkPurchase.MemberOrderExactly | enhanced_bot.py:3977-3980 | members by managed id, those without one last, then by account id |
| BulkPurchase.PurchaseShard | enhanced_bot.py:4075-4238 | on every path the shard yields one result per account with the outcome its reply calls for; the size guard fires exactly above 100 |
| BulkPurchase.PurchaseByStake | enhanced_bot.py:3954-4015 | for any replies exactly one result per eligible account, each earned by the PAT check or its shard's reply |
| BulkPurchase.OneResultEach | enhanced_bot.py:3954-4015 | with distinct ids every account occurs once |
| BulkPurchase.BoughtIsReported | enhanced_bot.py:4190-4219 | a bought contract stands in the shard's reply under that account |
| BulkPurchase.ReportedExactly | enhanced_bot.py:4188-4219 | the outcome of an account whose last transaction stands in the reply: its contract whatever the errors say, else failed or missing |
| BulkPurchase.UnreportedExactly | enhanced_bot.py:4188-4219 | the outcome of an account no transaction names |
| BulkPurchase.ShardRefusedExactly | enhanced_bot.py:4075-4175 | the one reason a shard whose reply is not evaluated refuses all its accounts for |
| TradeMetrics.RescanOrder | app/account_trade_metrics_authority.py:85-96 | the rescan visits exactly the session's settled trades by settlement time and id |
| TradeMetrics.HighWaterIsLargestPrefix | app/account_trade_metrics_authority.py:97-101 | high water is the largest prefix sum or 0 |
| TradeMetrics.RescanIsNoop | app/account_trade_metrics_authority.py:77-111 | a rescan changes no row exactly when every row carries its prefix sum and drawdown |
| TradeMetrics.RepairSettles | app/account_trade_metrics_authority.py:77-111 | repairing twice is repairing once, and seeds the cursor |
| TradeMetrics.CursorRefinesRescan | app/account_trade_metrics_authority.py:114-198 | settling last in the session leaves every account as a full rescan would, other accounts untouched |
| TradeMetrics.RunsAgreeWithRescan | app/account_trade_metrics_authority.py:173-198 | the same over every run, across session restarts, worker startups and failing metrics steps: every account is as a full rescan would leave it, save those with a missed step and no repair since |
| TradeMetrics.MissedStepLags | app/account_trade_metrics_authority.py:181-197 | a missed step leaves the cursor behind by exactly the trade's profit |
| TradeMetrics.LagStays | app/account_trade_metrics_authority.py:114-163 | later incremental steps carry that lag unchanged |
| TradeMetrics.RepairEndsLag | app/account_trade_metrics_authority.py:77-111 | a repair ends it |
| TradeMetrics.CursorProfitIgnoresOrder | app/account_trade_metrics_authority.py:114-163 | the running profit equals the rescan's in any settlement order |
| TradeMetrics.RefinesExactlyInOrder | app/account_trade_metrics_authority.py:114-163 | for a non-zero profit the incremental step agrees with the rescan exactly when the trade settles last |
| TradeEvents.StateFollowsEvents | app/repositories/test2_repository.py:1180-1232 | after any events the trade table, session starts and run total are what the events say: each purchase with its first settlement |
| TradeEvents.CursorFollowsEvents | app/account_trade_metrics_authority.py:77-198 | over allowed runs a cursor without a missed step holds the sum over the account's settled trades bought since its session began |
| TradeEvents.SettleSameTrades | app/repositories/test2_repository.py:1180-1232 | a settlement touches one open trade and the run totals, and a duplicate changes nothing |
| TradeMetrics.MetricsLedger.RepairAccountSession | app/account_trade_metrics_authority.py:77-111 | the loop over the rows refines the rescan |
| TradeMetrics.MetricsLedger.ApplyIncremental | app/account_trade_metrics_authority.py:114-163 | when the incremental step applies and what it writes |
| TradeMetrics.MetricsLedger.SettlePlain | app/repositories/test2_repository.py:1180-1232 | the plain settlement with its run-wide totals, a transaction of its own |
| TradeMetrics.MetricsLedger.SettleTradeWithAccountMetrics | app/account_trade_metrics_authority.py:173-198 | plain settlement, then incremental step or repair; an exception in the second part is swallowed and leaves the first |
| SplitRecovery.StakePaysShare | enhanced_bot.py:2208-2227 | a win at the uncapped stake pays the debt's share but for the rounding guard |
| SplitRecovery.StakeIsLeast | enhanced_bot.py:2208-2227 | the stake is the base stake or a cent less would not pay the share; 0 stored wins read as the configured number |
| SplitRecovery.PlannedStakeExactly | enhanced_bot.py:2229-2246 | base stake without debt or usable ratio, otherwise the least paying stake up to the cap |
| SplitRecovery.WinPaysShare | enhanced_bot.py:2208-2246 | a planned win pays its share but for two cents |
| SplitRecovery.WinsRemainingClear | enhanced_bot.py:2262-2331 | from any debt, as many planned wins as remain bring debt to 0 and the stake to base |
| SplitRecovery.UpdateKeepsPlan | enhanced_bot.py:2262-2331 | after every update the stored stake is the one planned for the client it leaves, and pending means owing |
| SplitRecovery.FieldsFollowRun | enhanced_bot.py:2262-2331 | over every run the loss streak counts losses since the last win, and the wins to come are the configured number less the wins since the last loss |
| SplitRecovery.StepForgivesACent | enhanced_bot.py:2262-2331 | a settlement lowers profit plus debt only by completing an episode, by at most a cent |
| SplitRecovery.EpisodesForgiveACentEach | enhanced_bot.py:2271-2331 | over every run the shortfall is at most a cent for each completed episode |
| SplitRecovery.GuardCostsACent | enhanced_bot.py:2208-2210 | an honest win that is one cent short and still closes the episode |
| SplitRecovery.ClientRecovery.UpdateClientRecoveryState | enhanced_bot.py:2262-2331 | the dictionary update refines the update function |
| LossRotation.RecencyIsByLastLoss | enhanced_bot.py:2543-2582 | the reference list is the distinct lost markets in order of last loss |
| LossRotation.BlockedIsRecentlyLost | enhanced_bot.py:2523-2596 | with n > 1 markets the blocked list always is the n-1 most recently lost since the last release |
| LossRotation.OneMarketEligible | enhanced_bot.py:2569-2576 | no market twice, and one always eligible |
| LossRotation.UnknownLossExactly | enhanced_bot.py:2543-2582 | a loss on an unconfigured market keeps the list exactly while it has room |
| LossRotation.RefreshExactly | enhanced_bot.py:2523-2538 | what the cleaned list holds and what its legacy field names, with or without configured markets |
| LossRotation.LossWithFewMarkets | enhanced_bot.py:2543-2582 | with at most one market configured a loss releases nothing |
| LossRotation.MarketRotation.LossRotationMarkets | enhanced_bot.py:2523-2541 | the cleaning loop refines its function |
| LossRotation.MarketRotation.RegisterExecutionMarketOutcome | enhanced_bot.py:2543-2582 | the list after a win, a loss or anything else |
| LossRotation.MarketRotation.CompleteMarketRotationAfterPurchase | enhanced_bot.py:2584-2596 | a purchase releases the list exactly when its market is not blocked |
| RateLimit.AcceptedAreSpaced | app/api.py:1272-1287 | for each key under a forward clock any limit+1 consecutive accepted requests span more than 60 seconds |
| RateLimit.RefusedExactly | app/api.py:1272-1287 | a request is refused exactly when the limit was accepted in the minute before |
| RateLimit.LateClockReadRefuses | app/api.py:1280-1287 | a clock read before the lock can refuse with room left |
| RateLimit.RefusedWithRoomExactly | app/api.py:1283-1287 | with any clock that happens exactly when more of the history has expired than it is over the limit, but not so much of its front |
| RateLimit.Limiter.EnforceRateLimit | app/api.py:1272-1287 | the deque of one key is pruned and appended; no other key changes |
| BulkReply.WalkExactly | app/bulk_response_member_reconciliation.py:151-174 | the walk holds exactly the dictionaries within five wrapper keys |
| BulkReply.WalkInOrder | app/bulk_response_member_reconciliation.py:151-174 | a dictionary comes before those below it, and those in the order of the wrapper keys |
| BulkReply.FoundIsExplicit | app/bulk_response_member_reconciliation.py:177-186 | a found value stands under one of the keys and is not null, empty or a container |
| BulkReply.FirstExactly | app/bulk_response_member_reconciliation.py:177-186 | the first dictionary with a value under one of the keys decides, and within it the first such key |
| BulkReply.NestedErrorExactly | app/bulk_response_member_reconciliation.py:189-202 | the first dictionary that states an error decides |
| BulkReply.StatedErrorExactly | app/bulk_response_member_reconciliation.py:189-202 | the error one dictionary states: its error object, or its code, message and status and nothing more |
| BulkReply.NormalizedExactly | app/bulk_response_member_reconciliation.py:205-243 | every field of a normalized member, read off the member as it came |
| BulkReply.AccountExactly | app/seamless_execution_runtime.py:48-59 | a dictionary's account: its own first account field that is not blank, else that of its first wrapper that has one |
| BulkReply.AccountNeverReplaced | app/bulk_response_member_reconciliation.py:205-243 | a member that states an account keeps it through normalizing and marking |
| BulkReply.PromotedContractStoodThere | app/bulk_response_member_reconciliation.py:225-229 | a new contract id stood under an explicit contract-id key within five wrappers |
| BulkReply.PromotedErrorStoodThere | app/bulk_response_member_reconciliation.py:189-202 | a new error is the one stated by a dictionary within five wrappers |
| BulkReply.MarkedIsResolved | app/bulk_response_member_reconciliation.py:342-389 | a marked member has a contract id, an error or its own code and message; marking twice is marking once |
| BulkReply.MarkedExactly | app/bulk_response_member_reconciliation.py:360-389 | which members are marked unresolved, and that nothing but their error changes |
| BulkReply.SecondPassExactly | app/bulk_response_member_reconciliation.py:205-243 | normalizing a member again changes nothing exactly when its account search is settled |
| BulkReply.BlankAccountTakesTwoPasses | app/bulk_response_member_reconciliation.py:219-223 | a blank account ahead of a real one takes two passes |
| BulkReplyPipeline.MappingKeepsAccountExactly | app/bulk_response_member_reconciliation.py:50-60 | an account-keyed entry keeps the account it states exactly when the key is blank, `account_id` is there, or both agree |
| BulkReplyPipeline.MappingReplacesAccount | app/bulk_response_member_reconciliation.py:50-60 | an entry under one account that states another by `loginid` takes the key's |
| BulkReplyPipeline.EntryExactly | app/bulk_response_member_reconciliation.py:50-60 | an object entry without `account_id` gets its key as one, any other keeps its own, and every other field stays |
| BulkReplyPipeline.FailureExactly | app/bulk_response_member_reconciliation.py:50-60 | any other entry becomes a member of failure containers only, with its text as message, under its key |
| BulkReplyPipeline.UnnamedEntryTakesKey | app/bulk_response_member_reconciliation.py:58-59 | an entry that names no account belongs to its key |
| BulkReplyPipeline.EntryInPlace | app/bulk_response_member_reconciliation.py:63-71 | members stand in the order of their entries |
| BulkReplyPipeline.MappingCounts | app/bulk_response_member_reconciliation.py:63-71 | every failure entry and every object success entry becomes one member |
| BulkReplyPipeline.ListsAreKept | app/bulk_response_member_reconciliation.py:74-114 | a list that is there is neither converted nor replaced by promotion |
| BulkReplyPipeline.PromoteExactly | app/bulk_response_member_reconciliation.py:74-92 | the objects of both alias lists become the transactions exactly when no canonical list has members |
| BulkReplyPipeline.ObjectsInPlace | app/bulk_response_member_reconciliation.py:80-86 | the objects of an alias list keep their order and nothing else is taken over |
| BulkReplyPipeline.CanonicalizeIsCanonical | app/bulk_response_member_reconciliation.py:117-127 | no account-keyed container and nothing to promote is left, at the top and in `data` |
| BulkReplyPipeline.CanonicalStays | app/bulk_response_member_reconciliation.py:117-127 | canonical responses are unchanged |
| BulkReplyPipeline.PositionalIsRequested | app/bulk_response_member_reconciliation.py:276-339 | if anything is assigned, every member at index i resolves to requested[i]; stated accounts are untouched |
| BulkReplyPipeline.AssignedExactly | app/bulk_response_member_reconciliation.py:276-339 | a member without an account is given one exactly for a request of as many accounts, none twice, that no stated account contradicts |
| BulkReplyPipeline.RequestedInPlace | app/bulk_response_member_reconciliation.py:130-135 | the requested accounts are the stripped texts of the entries that have one, in order |
| BulkReplyPipeline.ItemsExactly | app/bulk_response_member_reconciliation.py:138-148 | the list under `data` takes precedence |
| BulkReplyPipeline.AccountProvenance | app/bulk_response_member_reconciliation.py:205-339 | a member's account is its own, its place's, or stated within five wrappers |
| BulkReply.MemberRaisesExactly | app/bulk_response_member_reconciliation.py:177-243 | normalizing a member raises exactly when one of the searches it calls for meets a list or object before a scalar |
| BulkReplyPipeline.RaisesExactly | app/bulk_response_member_reconciliation.py:246-273 | the reconciler raises exactly on replies whose list of transactions holds such a member |
| BulkReplyPipeline.ListUnderIdRaises | app/bulk_response_member_reconciliation.py:184 | a reply with an empty list as contract id |
| BulkReplyPipeline.EveryMemberResolved | app/bulk_response_member_reconciliation.py:342-403 | on every other reply with a list, every object member ends resolved, and no member is added or dropped |
| BulkReplyPipeline.ReplyProvenance | app/bulk_response_member_reconciliation.py:423-439 | through the whole reconciler every member's account, contract id and error stood in the reply, in the request at its place, or mark it unresolved |
| BulkReplyPipeline.MemberSettledExactly | app/bulk_response_member_reconciliation.py:205-243 | a second pass leaves a member exactly unless its own blank account field stands ahead of a real one |
| BulkReplyPipeline.IdempotentExactly | app/bulk_response_member_reconciliation.py:423-439 | a second reconciliation changes nothing exactly when the request places every member or no member's own blank account field stands ahead of a real one, read off the canonical reply |
| BulkReplyPipeline.IdempotentWhenSettled | app/bulk_response_member_reconciliation.py:423-439 | the same read off the result: no account search has anything left to find |
| BulkReplyPipeline.NoBlanksNeedOnePass | app/bulk_response_member_reconciliation.py:423-439 | so it is idempotent on every reply without blank account fields |
| BulkReplyPipeline.MembersOfMapping | app/bulk_response_member_reconciliation.py:63-71 | the loop over an account-keyed object refines its function |
| BulkReplyPipeline.NormalizeMembers | app/bulk_response_member_reconciliation.py:246-273 | the loop, with its TypeError, refines its function |
| BulkReplyPipeline.CorrelateMembers | app/bulk_response_member_reconciliation.py:276-339 | the two loops with their early returns refine the correlation |
| BulkReplyPipeline.MarkUnresolvedMembers | app/bulk_response_member_reconciliation.py:342-403 | the loop refines its function |

## Left out

- RecoveryStake.CeilCents: the 1e-9 guard before rounding up is dropped with float error; amounts are exact. `SplitRecovery` keeps its guard.
- Float rounding in general: every `round(x, 2)` on cents and `round(x, 8)` on metric units is the identity here.
- Balances, equity and the lazily created risk row: the planner takes the balance as an input.
- WebSockets, REST, OAuth, encryption, Telegram, routing, dashboard, logging and monkey-patch installation: I/O without a state to keep.
- SQLAlchemy sessions: each database block is one atomic step; locks and isolation levels are not modelled.
- UncertainPurchase.GuardedExactly: a handler exception in the reconcile loop is a further iteration; the permanent-credential error reply is an ordinary error reply; the two history requests of a pass see one state of the book; trades made on the account from elsewhere are not steps.
- UncertainPurchase.NoDuplicateBuy: the environment it asks for is spelled out by `Fair`; the profit table's limit of 50 entries is part of its truthful reply.
- Split-stake planning of app/custom_execution_consistency_authority.py (`_exact_split_stake`, the pure multiplier and the hidden-cleanup variant): a different planner than the AIDR one.
- Reading the virtual hook settings: a settings row that fails to load reads as its defaults, which enter as the `Hook` value.
- A worker restart that flips `is_running` is the `Restart` step of `UncertainPurchase`.
- AidrRuns.OneShotRecovery: hook settings are fixed and on along the run; the run plans and settles with recovery on.
- Lifecycle: `stop_account` and `stop_mode_account` are the same write as the Stop modelled here in the fields kept.
- Scheduler fairness: the earliest waiting row stays first in line, so none is claimed.
- Scheduler strategies: compiling and validating the saved strategy is the input `snapshotValid`, the credential check is `tokenReady`.
- Scheduler.SingleOwnerAlways: claims are applied inside their own cycle, because the property fails otherwise; `SingleOwnerExactly` covers the other runs.
- AidrRouting.Route: whether a virtual observation is open is read once per account; eligible accounts are distinct, so an opening in the same pass concerns no later entry. Masks that collide make the two mask sets smaller.
- Lifecycle.OnlyStartEnables: the scheduler's and the browser's own starts count as Start.
- ContractCycle: signal statistics, trade counters and per-account recovery updates of `handle_contract_update`; its profit arithmetic is the outcome won or not.
- `_purchase_for_multiple_accounts` as a registration path: it fills the signal table only after awaits; app/account_execution_session.py is modelled instead.
- BulkPurchase.PurchaseShard: the request, its audit rows, status messages and the random leader are dropped; account ids are numbers, and a managed id of 0 sorts as an ordinary one.
- TradeMetrics.RunsAgreeWithRescan: the plain settlement and the metrics step of one trade are one event, or the second is missed; two settlements do not interleave their parts. Settlements of one account come one at a time in (time, id) order and a new session carries a new time stamp; both are conditions of the events.
- LossRotation.BlockedIsRecentlyLost: lost markets are configured ones and configured names are distinct and unpadded; the unconfigured loss has its own exact lemma.
- LossRotation: with a single configured market the code blocks it (`LossWithFewMarkets`); that one market stays eligible is claimed for two and more.
- RateLimit.AcceptedAreSpaced: requests of one key reach the lock in clock order; `LateClockReadRefuses` shows the other case.
- BulkReply: tuples (never in parsed JSON), log markers and the credential-safe key list; `str` of a list or object is only known not to be blank; numbers are integers.
- The original normalizer that runs after the reconciler, and the counts it logs.
- SplitRecovery.WinsRemainingClear: the ratio lies above 1e-9, where the code stops planning, and at most 1e9, below which the guard costs at most one cent.
- SplitRecovery: missing dictionary keys are present with their defaults.
