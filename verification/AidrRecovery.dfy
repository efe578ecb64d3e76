/** The AIDR recovery state of one account: the recorder and planner of
    app/ai_digit_recovery_v1.py over the base planner of
    app/repositories/rf_dir5_repository.py, wrapped by the strict guard of
    app/aidr_strict_recovery_guard.py, with the adaptive trap of
    app/aidr_adaptive_virtual.py.

    `Risk` is one AccountRiskState row together with the two runtime preferences
    kept beside it (post-virtual marker and adaptive trap).  The functions say
    what each database block does to it; class `RiskAccount` updates the fields
    as the source does and is proved against them. */
module AidrRecovery {
  import opened RecoveryStake

  /** NORMAL_MODE, REAL_RECOVERY_PENDING and VIRTUAL_WAITING_FOR_WIN. */
  datatype Mode = Normal | RealRecovery | Virtual

  type Setting = n: nat | 1 <= n <= 50 witness 1

  /** VirtualHookSettings; both counts are clamped to 1..50 by the source. */
  datatype Hook = Hook(enabled: bool, enterAfter: Setting, exitAfter: Setting)

  const MAX_TRAP_SCORE := 5

  datatype Risk = Risk(
    day: int,
    profit: int,
    losses: nat,
    debt: nat,
    pending: bool,
    attempt: bool,
    mode: Mode,
    observations: nat,
    wins: nat,
    virtualLosses: nat,
    virtualStreak: nat,
    marker: bool,
    trap: nat,
    trapLosses: nat)
  {
    predicate CountersZero() {
      observations == 0 && wins == 0 && virtualLosses == 0 && virtualStreak == 0
    }

    /** What the trader is worth to the recovery logic: realised profit plus the
        losses still to be recovered. */
    function Potential(): int { profit + debt }
  }

  /** The value a Stop writes for the empty trading day. */
  const NO_DAY := -1

  // -------------------------------------------------- blocks shared by the layers

  function ZeroCounters(r: Risk): Risk {
    r.(observations := 0, wins := 0, virtualLosses := 0, virtualStreak := 0)
  }

  /** `_reset_virtual_counters` */
  function ResetVirtual(r: Risk): Risk { ZeroCounters(r).(mode := Normal) }

  /** `_enter_virtual_mode` */
  function EnterVirtual(r: Risk): Risk {
    ZeroCounters(r).(mode := Virtual, pending := true, attempt := false)
  }

  /** `_force_virtual_mode`: progress and marker are dropped only on entry. */
  function ForceVirtual(r: Risk): Risk {
    var entered := if r.mode != Virtual then ZeroCounters(r).(marker := false) else r;
    entered.(mode := Virtual, pending := true, attempt := false)
  }

  function ClearTrap(r: Risk): Risk { r.(trap := 0, trapLosses := 0) }

  /** `record_post_virtual_recovery_loss_in_session` on a normalized trap. */
  function TightenTrap(r: Risk): Risk {
    r.(trap := Min(MAX_TRAP_SCORE, r.trap + 1), trapLosses := r.trapLosses + 1)
  }

  /** `_reset_state_after_stop`, and the same fields under an atomic Stop. */
  function StoppedState(): Risk {
    Risk(NO_DAY, 0, 0, 0, false, false, Normal, 0, 0, 0, 0, false, 0, 0)
  }

  /** `_required_virtual_wins` over `adaptive_virtual_wins_required_for_state`. */
  function RequiredWins(hook: Hook, trap: nat): (n: nat)
    ensures n >= 1 && (hook.enabled ==> n >= hook.exitAfter)
    ensures (trap >= 1 ==> n >= 2) && (trap >= 3 ==> n >= 3)
    ensures n == 1 || (hook.enabled && n == hook.exitAfter) || (trap >= 1 && n == 2) || (trap >= 3 && n == 3)
  {
    var base := if hook.enabled then hook.exitAfter else 1;
    if trap >= 3 then Max(base, 3) else if trap >= 1 then Max(base, 2) else base
  }

  // ------------------------------------------------------------------- recorder

  /** The recorder's day change clears debt, mode, marker and trap. */
  function RecorderNewDay(r: Risk, today: int): Risk {
    ClearTrap(ResetVirtual(r.(day := today, profit := 0, losses := 0, debt := 0,
                              pending := false, attempt := false)).(marker := false))
  }

  predicate IsRecovering(r: Risk) { r.attempt || r.mode == RealRecovery }

  function RecordLoss(r: Risk, wasRecovery: bool, loss: nat, recovery: bool): Risk {
    var lost := r.(losses := r.losses + 1, debt := r.debt + loss, pending := recovery && r.debt + loss > 0);
    if !lost.pending then ResetVirtual(lost).(marker := false)
    else if wasRecovery then EnterVirtual(lost.(marker := false))
    else lost.(mode := RealRecovery)
  }

  function RecordWin(r: Risk, wasRecovery: bool, profit: int, recovery: bool): Risk {
    var residual: nat := if wasRecovery then RemainingDebt(r.debt, profit) else 0;
    var won := r.(debt := residual, pending := recovery && residual > 0, losses := 0);
    if won.pending then EnterVirtual(won.(marker := false))
    else ClearTrap(ResetVirtual(won).(marker := false))
  }

  /** `_record_account_outcome_aidr` */
  function RecordAidr(row: Risk, profit: int, today: int, recovery: bool): Risk {
    var r0 := if row.day != today then RecorderNewDay(row, today) else row;
    var r := r0.(profit := r0.profit + profit, attempt := false);
    if profit <= 0 then RecordLoss(r, IsRecovering(r0), -profit, recovery)
    else RecordWin(r, IsRecovering(r0), profit, recovery)
  }

  // --------------------------------------------------------------- strict guard

  /** `previous` describes a recovery that the settled contract belonged to. */
  predicate WasInRecovery(previous: Risk) {
    previous.mode != Virtual &&
    (previous.attempt || previous.pending || previous.debt > 0 || previous.mode == RealRecovery)
  }

  predicate FailedRecovery(previous: Risk, profit: int) {
    profit <= 0 && WasInRecovery(previous)
  }

  predicate WonRecovery(previous: Risk, profit: int) {
    profit > 0 && (WasInRecovery(previous) || (previous.mode != Virtual && previous.marker))
  }

  /** The guard's block after a winning recovery. */
  function GuardAfterWin(r: Risk, hook: Hook): Risk {
    if r.debt == 0 then
      ClearTrap(ZeroCounters(r).(pending := false, attempt := false, losses := 0,
                                 mode := Normal, marker := false))
    else if hook.enabled then ForceVirtual(r)
    else r.(pending := true, attempt := false, mode := RealRecovery)
  }

  /** The guard's block after a losing recovery, with the hook enabled. */
  function GuardAfterLoss(previous: Risk, r: Risk): Risk {
    ForceVirtual(if previous.marker && r.losses >= 3 then TightenTrap(r) else r)
  }

  /** `strict_record_outcome` for an account that is not stopped. */
  function StrictRecord(row: Risk, profit: int, today: int, recovery: bool, hook: Hook): Risk {
    var r0 := RecordAidr(row, profit, today, recovery);
    var r1 := if WonRecovery(row, profit) then GuardAfterWin(r0, hook) else r0;
    if FailedRecovery(row, profit) && hook.enabled then GuardAfterLoss(row, r1) else r1
  }

  // -------------------------------------------------------------------- planner

  datatype PlanRequest = PlanRequest(
    requested: int, minimum: int, ratio: real, balance: int, reserve: int, fraction: real,
    recoveryEnabled: bool, virtualProtection: bool, maskChanged: bool, today: int)

  datatype StakePlan = Refused | Staked(stake: int, isRecovery: bool)

  /** The base planner's day change: it leaves the marker and the trap alone. */
  function PlannerNewDay(r: Risk, today: int): Risk {
    ResetVirtual(r.(day := today, profit := 0, losses := 0, debt := 0, pending := false, attempt := false))
  }

  predicate RollsDay(r: Risk, q: PlanRequest) { !q.maskChanged && r.day != q.today }

  /** `RFDir5Repository.plan_stake` */
  function BasePlan(row: Risk, q: PlanRequest): (Risk, StakePlan) {
    var r := if RollsDay(row, q) then PlannerNewDay(row, q.today) else row;
    var balance := Max(0, q.balance);
    var base := Max(0, Max(q.minimum, q.requested));
    var spendable := Max(0, balance - q.reserve);
    var isRecovery := r.pending && !r.attempt && r.debt > 0;
    if q.virtualProtection && r.mode == Virtual then (r, Refused)
    else if base > spendable then (r, Refused)
    else if isRecovery && q.recoveryEnabled then
      var quote := SharedRecoveryStake(base, r.debt, q.ratio, spendable, balance, q.fraction);
      (r, if quote.allowed then Staked(quote.stake, true) else Refused)
    else (r, Staked(base, isRecovery))
  }

  /** `_plan_stake_aidr` */
  function AidrPlan(row: Risk, q: PlanRequest): (Risk, StakePlan) {
    var (r, plan) := BasePlan(row, q);
    if plan.Refused? then (r, plan)
    else if r.mode == Virtual then (r, Refused)
    else if !(r.pending && r.debt > 0) || !q.recoveryEnabled then (r, plan)
    else (r, Staked(FullRecoveryStake(Max(0, Max(q.minimum, q.requested)), r.debt, q.ratio), true))
  }

  /** `_debt_requires_virtual` */
  predicate DebtRequiresVirtual(r: Risk, hook: Hook) {
    r.debt > 0 && !r.marker && hook.enabled && r.losses >= hook.enterAfter
  }

  /** `strict_plan_stake` for a running account. */
  function StrictPlan(row: Risk, q: PlanRequest, hook: Hook): (Risk, StakePlan) {
    if row.mode == Virtual && hook.enabled then (row, Refused)
    else if DebtRequiresVirtual(row, hook) then (ForceVirtual(row), Refused)
    else
      var (r, plan) := AidrPlan(row, q);
      if plan.Staked? && plan.isRecovery && r.mode != Virtual then
        (r.(pending := true, attempt := true, mode := RealRecovery), plan)
      else (r, plan)
  }

  /** `mark_recovery_attempt_started`, called again after a recovery plan. */
  function MarkAttempt(r: Risk): Risk {
    if !r.pending || r.attempt then r else r.(pending := false, attempt := true)
  }

  /** `_clear_unconfirmed_recovery_attempt` */
  function ClearAttempt(r: Risk): Risk {
    if r.attempt then r.(attempt := false, pending := r.debt >= 1) else r
  }

  // -------------------------------------------------------- virtual confirmation

  /** One due virtual observation in `settle_due_virtual_trades`. */
  function ObserveVirtual(r: Risk, win: bool, hook: Hook): Risk {
    if r.mode != Virtual then r
    else if !win then
      r.(observations := r.observations + 1, wins := 0, virtualLosses := r.virtualLosses + 1,
         virtualStreak := r.virtualStreak + 1)
    else
      var seen := r.(observations := r.observations + 1, wins := r.wins + 1, virtualStreak := 0);
      if seen.wins >= RequiredWins(hook, r.trap)
      then seen.(mode := RealRecovery, pending := r.debt >= 1)
      else seen
  }

  /** The marker the AIDR and strict wrappers write after a promotion commits. */
  function MarkPromoted(before: Risk, after: Risk): Risk {
    if before.mode == Virtual && after.mode == RealRecovery then after.(marker := true) else after
  }

  predicate Confirmable(r: Risk, hook: Hook) {
    r.mode == Virtual && r.debt >= 1 && r.wins >= RequiredWins(hook, r.trap)
  }

  /** `reconcile_existing_virtual_confirmations`: the marker is one block, the
      promotion the next; `committed` is false when a crash separates them. */
  function Reconcile(r: Risk, hook: Hook, committed: bool): Risk {
    if !Confirmable(r, hook) then r
    else if committed then r.(marker := true, mode := RealRecovery, pending := true)
    else r.(marker := true)
  }

  // --------------------------------------------------------------- classification

  /** The barrier and execution kind of one entry. */
  datatype Action = NormalOver1 | FirstRecoveryOver3 | FullRecoveryOver4 | VirtualOver4

  /** `_required_aidr_action` on the protection payload of the row. */
  function RequiredAction(r: Risk): Action {
    if r.mode == Virtual then VirtualOver4
    else if r.mode == RealRecovery || r.debt > 0 then
      if r.marker then FullRecoveryOver4 else FirstRecoveryOver3
    else NormalOver1
  }

  /** `_account_recovery_groups`: the scan-time group, as the action it stands for. */
  function ScanGroup(r: Risk): Action {
    if r.debt == 0 && !r.pending && !r.attempt && r.mode == Normal then NormalOver1
    else if r.mode == Virtual then VirtualOver4
    else if r.marker then FullRecoveryOver4
    else FirstRecoveryOver3
  }

  /** Scan and purchase name the same action exactly when no flag is left set on
      a debt-free NORMAL row. */
  lemma ClassifiersAgree(r: Risk)
    ensures ScanGroup(r) == RequiredAction(r)
       <==> !(r.mode == Normal && r.debt == 0 && (r.pending || r.attempt))
  {
  }

  // ---------------------------------------------------------- properties of blocks

  /** Every plan that sizes a recovery has a debt behind it, and the second
      marking of the attempt is a no-op. */
  lemma RecoveryPlanHasDebt(row: Risk, q: PlanRequest, hook: Hook)
    ensures var (r, plan) := StrictPlan(row, q, hook);
            plan.Staked? && plan.isRecovery ==> r.debt >= 1 && r.mode != Virtual && MarkAttempt(r) == r
  {
  }

  /** A real stake is never planned out of a virtual row. */
  lemma VirtualNeverStaked(row: Risk, q: PlanRequest, hook: Hook)
    ensures var (r, plan) := StrictPlan(row, q, hook);
            row.mode == Virtual && plan.Staked? ==> !hook.enabled && RollsDay(row, q) && !plan.isRecovery
  {
  }

  /** A settlement conserves profit + debt; only a win that clears the debt adds
      to it, by the profit in excess of the debt. */
  lemma SettlementConserves(row: Risk, profit: int, hook: Hook)
    requires row.mode != Virtual && (row.debt >= 1 ==> row.mode == RealRecovery)
    ensures var r := StrictRecord(row, profit, row.day, true, hook);
            if profit > 0 && row.debt <= profit
            then r.debt == 0 && r.Potential() == row.Potential() + profit - row.debt
            else r.Potential() == row.Potential()
  {
  }

  /** The recorder forgives debt only when a win settles outside recovery. */
  lemma RecorderForgivesExactly(row: Risk, profit: int, recovery: bool)
    ensures RecordAidr(row, profit, row.day, recovery).Potential() >= row.Potential()
       <==> IsRecovering(row) || profit <= 0 || profit >= row.debt
  {
  }

  // ------------------------------------------------------- what a settlement leaves

  /** What every event of a run keeps of a row. */
  predicate OrderlyRow(r: Risk) {
    && (r.mode == Normal ==> r.debt == 0 && !r.pending && !r.attempt && r.CountersZero())
    && (r.debt >= 1 ==> r.pending)
    && (r.attempt ==> r.mode == RealRecovery)
  }

  lemma {:induction false} GuardKeepsMoney(row: Risk, profit: int, today: int, recovery: bool, hook: Hook)
    ensures var r, t := RecordAidr(row, profit, today, recovery), StrictRecord(row, profit, today, recovery, hook);
            && t.day == r.day && t.profit == r.profit && t.losses == r.losses && t.debt == r.debt
            && (!r.attempt ==> !t.attempt) && (r.CountersZero() ==> t.CountersZero())
  {
    hide RecordLoss, RecorderNewDay, IsRecovering, WasInRecovery;
  }

  /** The money after a settlement, recorder and guard together; a new day starts from no
      debt and no losses. */
  lemma {:induction false} SettledMoney(row: Risk, profit: int, today: int, hook: Hook)
    requires OrderlyRow(row) && row.mode != Virtual
    ensures var t, same := StrictRecord(row, profit, today, true, hook), row.day == today;
            var owed, losses := if same then row.debt else 0, if same then row.losses else 0;
            var recovering, lost := row.mode == RealRecovery, profit <= 0;
            && t.day == today && t.profit == (if same then row.profit else 0) + profit
            && t.losses == (if lost then losses + 1 else 0) && !t.attempt && t.CountersZero()
            && t.debt == (if lost then owed - profit else if recovering then Max(0, owed - profit) else 0)
  {
    GuardKeepsMoney(row, profit, today, true, hook);
    hide StrictRecord;
  }

  /** The mode after a settlement: a recovery that failed goes to VIRTUAL, even one opened the
      day before, and so does one that won too little; only a first loss keeps a marker. */
  lemma {:induction false} SettledMode(row: Risk, profit: int, today: int, hook: Hook)
    requires OrderlyRow(row) && row.mode != Virtual
    ensures var t, same := StrictRecord(row, profit, today, true, hook), row.day == today;
            var recovering, lost := row.mode == RealRecovery, profit <= 0;
            && t.mode == (if recovering && lost && hook.enabled then Virtual
                          else if t.debt == 0 then Normal
                          else if recovering && same && (lost || hook.enabled) then Virtual
                          else RealRecovery)
            && (t.pending <==> t.mode != Normal)
            && (t.marker <==> row.marker && same && !recovering && profit < 0)
  {
  }

  /** The trap after a settlement: cleared by a new day and by a win without debt, tightened when
      a recovery confirmed by virtual wins fails and at least three losses stand in a row. */
  lemma {:induction false} SettledTrap(row: Risk, profit: int, today: int, hook: Hook)
    requires OrderlyRow(row) && row.mode != Virtual
    ensures var t, same := StrictRecord(row, profit, today, true, hook), row.day == today;
            var tightens := row.mode == RealRecovery && profit <= 0 && hook.enabled && row.marker && row.losses >= 2;
            if !same || (profit > 0 && t.debt == 0) then t.trap == 0 && t.trapLosses == 0
            else if tightens then t.trap == Min(5, row.trap + 1) && t.trapLosses == row.trapLosses + 1
            else t.trap == row.trap && t.trapLosses == row.trapLosses
  {
  }

  /** With recovery off the debt is kept but no loss is pending, and every win clears the trap;
      the guard still forces a failed recovery to VIRTUAL and a won one to pay the rest. */
  lemma {:induction false} SettledWithRecoveryOff(row: Risk, profit: int, today: int, hook: Hook)
    requires OrderlyRow(row) && row.mode != Virtual
    ensures var t, same := StrictRecord(row, profit, today, false, hook), row.day == today;
            var owed, losses := if same then row.debt else 0, if same then row.losses else 0;
            var recovering, lost := row.mode == RealRecovery, profit <= 0;
            var tightens := same && recovering && lost && hook.enabled && row.marker && row.losses >= 2;
            && t.day == today && t.profit == (if same then row.profit else 0) + profit
            && t.losses == (if lost then losses + 1 else 0) && !t.attempt && !t.marker && t.CountersZero()
            && t.debt == (if lost then owed - profit else if recovering then Max(0, owed - profit) else 0)
            && t.mode == (if recovering && (lost || t.debt > 0) && hook.enabled then Virtual
                          else if lost || t.debt == 0 then Normal
                          else RealRecovery)
            && (t.pending <==> t.mode != Normal)
            && t.trap == (if !same || !lost then 0
                          else if tightens then Min(MAX_TRAP_SCORE, row.trap + 1) else row.trap)
            && t.trapLosses == (if !same || !lost then 0
                                else if tightens then row.trapLosses + 1 else row.trapLosses)
  {
    GuardKeepsMoney(row, profit, today, false, hook);
  }

  /** The row a planner leaves: forced to VIRTUAL for a debt that needs confirming, rolled
      into a new day that keeps marker and trap, attempted by a planned recovery, or as it
      was. */
  lemma {:induction false} PlannedRowExactly(row: Risk, q: PlanRequest, hook: Hook)
    requires OrderlyRow(row)
    ensures var (r, plan) := StrictPlan(row, q, hook);
            if hook.enabled && row.mode == Virtual then r == row && plan.Refused?
            else if hook.enabled && row.debt > 0 && !row.marker && row.losses >= hook.enterAfter then
              && plan.Refused?
              && r == row.(mode := Virtual, pending := true, attempt := false,
                           observations := 0, wins := 0, virtualLosses := 0, virtualStreak := 0)
            else if !q.maskChanged && row.day != q.today then
              r == Risk(q.today, 0, 0, 0, false, false, Normal, 0, 0, 0, 0, row.marker, row.trap, row.trapLosses)
            else if plan.Staked? && plan.isRecovery then
              && row.debt >= 1 && row.mode != Virtual
              && r == row.(mode := RealRecovery, pending := true, attempt := true)
            else r == row
  {
    hide SharedRecoveryStake, FullRecoveryStake;
  }

  /** An attempt that was never bought is taken back, and a debt is pending again. */
  lemma AttemptTakenBack(row: Risk, q: PlanRequest, hook: Hook)
    requires OrderlyRow(row)
    ensures var (r, plan) := StrictPlan(row, q, hook);
            plan.Staked? && plan.isRecovery ==>
              ClearAttempt(MarkAttempt(r)) == row.(mode := RealRecovery, attempt := false)
    ensures !row.attempt ==> ClearAttempt(row) == row
  {
    hide SharedRecoveryStake, FullRecoveryStake;
  }

  /** The pass promotes exactly the VIRTUAL rows with a debt and the wins their trap asks for, and
      writes the marker first: a crash in between leaves a marked row that stays VIRTUAL. */
  lemma ConfirmedExactly(r: Risk, hook: Hook, committed: bool)
    ensures var t := Reconcile(r, hook, committed);
            if r.mode == Virtual && r.debt >= 1 && r.wins >= RequiredWins(hook, r.trap)
            then t == r.(marker := true, mode := if committed then RealRecovery else Virtual,
                         pending := if committed then true else r.pending)
            else t == r
  {
  }

  // ------------------------------------------------------------ what a plan stakes

  function BaseStake(q: PlanRequest): int { Max(0, Max(q.minimum, q.requested)) }

  function Spendable(q: PlanRequest): int { Max(0, Max(0, q.balance) - q.reserve) }

  /** A recovery plan stakes the least amount, not below 35 cents and the base stake, whose
      ideal payout reaches the debt and its cushion; any other plan stakes the base
      stake, within what may be spent. */
  lemma {:induction false} PlannedStakeExactly(row: Risk, q: PlanRequest, hook: Hook)
    requires q.recoveryEnabled
    ensures var (r, plan) := StrictPlan(row, q, hook);
            plan.Staked? && plan.isRecovery ==>
              var target := TargetProfit(r.debt) as real;
              var ratio := if q.ratio > MINIMUM_RATIO then q.ratio else MINIMUM_RATIO;
              && plan.stake >= MINIMUM_STAKE && plan.stake >= BaseStake(q) && Pays(plan.stake, ratio, target)
              && (plan.stake == MINIMUM_STAKE || plan.stake == BaseStake(q) || !Pays(plan.stake - 1, ratio, target))
    ensures var (r, plan) := StrictPlan(row, q, hook);
            plan.Staked? && !plan.isRecovery ==>
              plan.stake == BaseStake(q) && plan.stake <= Spendable(q) && (r.debt == 0 || !r.pending)
  {
    var (r, plan) := StrictPlan(row, q, hook);
    StakeIsLeast(BaseStake(q), r.debt, q.ratio);
    hide Pays, TargetProfit, SharedRecoveryStake, FullRecoveryStake;
  }

  /** A win at the stake of a recovery plan clears the debt down to a payout ratio of
      q.ratio / 1.06. */
  lemma {:induction false} RecoveryPlanRepays(row: Risk, q: PlanRequest, hook: Hook, realised: real)
    requires q.recoveryEnabled && q.ratio > MINIMUM_RATIO && realised * 1.06 >= q.ratio
    ensures var (r, plan) := StrictPlan(row, q, hook);
            plan.Staked? && plan.isRecovery ==>
              && RemainingDebt(r.debt, WinProfit(plan.stake, realised)) == 0
              && plan.stake as real <= Max(MINIMUM_STAKE, BaseStake(q)) as real + TargetProfit(r.debt) as real / q.ratio + 1.0
  {
    var (r, plan) := StrictPlan(row, q, hook);
    StakeSuffices(BaseStake(q), r.debt, q.ratio, realised);
    StakeBounds(BaseStake(q), r.debt, q.ratio);
    hide TargetProfit, SharedRecoveryStake, FullRecoveryStake, RemainingDebt, WinProfit;
  }

  /** The stake lies between the base stake and what may be spent on a recovery, and covers
      the debt with five cents and with six percent on top. */
  predicate Covers(q: PlanRequest, debt: nat, stake: int) {
    && BaseStake(q) <= stake <= Spendable(q)
    && (stake == BaseStake(q) || stake as real <= Max(0, q.balance) as real * q.fraction)
    && Pays(stake, q.ratio, debt as real + 5.0) && Pays(stake, q.ratio, debt as real + debt as real * 0.06)
  }

  ghost predicate Affordable(q: PlanRequest, debt: nat) { exists stake: int :: Covers(q, debt, stake) }

  lemma {:induction false} QuoteCoversLeast(q: PlanRequest, debt: nat, stake: int)
    requires debt > 1 && BaseStake(q) <= Spendable(q) && q.ratio > 0.0
    ensures var quote := SharedRecoveryStake(BaseStake(q), debt, q.ratio, Spendable(q), Max(0, q.balance), q.fraction);
            && quote.stake >= BaseStake(q) && (quote.allowed <==> Covers(q, debt, quote.stake))
            && (Covers(q, debt, stake) ==> quote.stake <= stake && quote.allowed)
  {
    var d := debt as real;
    var goal := if d + d * 0.06 > d + 5.0 then d + d * 0.06 else d + 5.0;
    assert goal == d + (if d * 0.06 > 5.0 then d * 0.06 else 5.0);
    var least := Max(BaseStake(q), CeilCents(goal / q.ratio));
    CeilPays(goal, q.ratio, least);
    PaysBoth(least, q.ratio, d + d * 0.06, d + 5.0);
    CeilPays(goal, q.ratio, stake);
    PaysBoth(stake, q.ratio, d + d * 0.06, d + 5.0);
    hide Pays, CeilCents;
  }

  lemma {:induction false} QuoteAllowedExactly(q: PlanRequest, debt: nat)
    requires debt > 1 && BaseStake(q) <= Spendable(q)
    ensures SharedRecoveryStake(BaseStake(q), debt, q.ratio, Spendable(q), Max(0, q.balance), q.fraction).allowed
       <==> q.ratio > 0.0 && Affordable(q, debt)
  {
    if q.ratio > 0.0 {
      var quote := SharedRecoveryStake(BaseStake(q), debt, q.ratio, Spendable(q), Max(0, q.balance), q.fraction);
      QuoteCoversLeast(q, debt, quote.stake);
      if Affordable(q, debt) {
        var stake: int :| Covers(q, debt, stake);
        QuoteCoversLeast(q, debt, stake);
      }
      hide Covers;
    }
  }

  /** No stake is planned exactly for a row in VIRTUAL, for a base stake above what may be
      spent, and for an owed recovery that no affordable stake covers. */
  lemma {:induction false} RefusedExactly(row: Risk, q: PlanRequest, hook: Hook)
    ensures var (r, plan) := StrictPlan(row, q, hook);
            plan.Refused? <==>
              || r.mode == Virtual
              || BaseStake(q) > Spendable(q)
              || (r.pending && !r.attempt && r.debt > 1 && q.recoveryEnabled && !(q.ratio > 0.0 && Affordable(q, r.debt)))
    ensures var (r, plan) := StrictPlan(row, q, hook);
            r.mode == Virtual <==>
              || (row.mode == Virtual && (hook.enabled || !RollsDay(row, q)))
              || (hook.enabled && row.debt > 0 && !row.marker && row.losses >= hook.enterAfter)
    ensures var (r, plan) := StrictPlan(row, q, hook);
            plan.Staked? && plan.isRecovery && q.recoveryEnabled && !row.attempt && r.debt > 1 ==>
              q.ratio > 0.0 && Affordable(q, r.debt)
  {
    var (r, plan) := StrictPlan(row, q, hook);
    if r.debt > 1 && BaseStake(q) <= Spendable(q) {
      QuoteAllowedExactly(q, r.debt);
    }
    hide Affordable, FullRecoveryStake;
  }

  /** With recovery off every plan stakes the base stake, within what may be spent. */
  lemma PlannedWithRecoveryOff(row: Risk, q: PlanRequest, hook: Hook)
    requires !q.recoveryEnabled
    ensures var (r, plan) := StrictPlan(row, q, hook);
            plan.Staked? ==> plan.stake == BaseStake(q) && plan.stake <= Spendable(q)
  {
  }

  /** A planned recovery can exceed what may be spent, since the stake is raised to 35 cents
      and to a target in whole cents after the limits were applied to a lower quote.  It
      stays within exactly when what may be spent is such a stake itself. */
  lemma {:induction false} RecoveryWithinBalanceExactly(row: Risk, q: PlanRequest, hook: Hook)
    requires q.recoveryEnabled
    ensures var (r, plan) := StrictPlan(row, q, hook);
            plan.Staked? && plan.isRecovery ==>
              (plan.stake <= Spendable(q) <==>
                Spendable(q) >= MINIMUM_STAKE
                && Pays(Spendable(q), if q.ratio > MINIMUM_RATIO then q.ratio else MINIMUM_RATIO, TargetProfit(r.debt) as real))
  {
    var (r, plan) := StrictPlan(row, q, hook);
    CeilPays(TargetProfit(r.debt) as real, if q.ratio > MINIMUM_RATIO then q.ratio else MINIMUM_RATIO, Spendable(q));
    hide Pays, TargetProfit, SharedRecoveryStake;
  }

  /** A debt of 90 cents at ratio 0.5 with 191 cents to spend: 191 is the quote that passes
      the limits and 192 the stake that is planned. */
  lemma {:induction false} RecoveryOverspends()
    ensures var q := PlanRequest(35, 35, 0.5, 191, 0, 1.0, true, true, false, 1);
            var row := Risk(1, -90, 1, 90, true, false, RealRecovery, 0, 0, 0, 0, false, 0, 0);
            StrictPlan(row, q, Hook(true, 2, 2)).1 == Staked(192, true) && Spendable(q) == 191
  {
    assert CeilCents(95.4) == 96 && CeilCents(96.0 / 0.5) == 192 && CeilCents(95.4 / 0.5) == 191;
  }

  // -------------------------------------------------------- virtual observations

  /** The wins after the last loss; `before` counts those already on the row. */
  function Streak(before: nat, wins: seq<bool>): nat {
    if |wins| == 0 then before
    else if wins[|wins| - 1] then Streak(before, wins[..|wins| - 1]) + 1
    else 0
  }

  function LossesIn(wins: seq<bool>): nat {
    if |wins| == 0 then 0 else LossesIn(wins[..|wins| - 1]) + if wins[|wins| - 1] then 0 else 1
  }

  /** The losses after the last win. */
  function LossStreak(before: nat, wins: seq<bool>): nat {
    if |wins| == 0 then before
    else if wins[|wins| - 1] then 0
    else LossStreak(before, wins[..|wins| - 1]) + 1
  }

  function ObserveAll(r: Risk, wins: seq<bool>, hook: Hook): Risk {
    if |wins| == 0 then r else ObserveVirtual(ObserveAll(r, wins[..|wins| - 1], hook), wins[|wins| - 1], hook)
  }

  /** Some point of the list had enough wins in a row. */
  predicate Reached(before: nat, wins: seq<bool>, needed: nat) {
    exists i :: 0 <= i <= |wins| && Streak(before, wins[..i]) >= needed
  }

  lemma {:induction false} ReachedOneMore(before: nat, wins: seq<bool>, needed: nat)
    requires |wins| > 0
    ensures Reached(before, wins, needed) <==> Reached(before, wins[..|wins| - 1], needed) || Streak(before, wins) >= needed
  {
    var pre := wins[..|wins| - 1];
    assert wins[..|wins|] == wins;
    assert forall i :: 0 <= i < |wins| ==> pre[..i] == wins[..i];
    hide Streak;
    if Reached(before, pre, needed) {
      var i :| 0 <= i <= |pre| && Streak(before, pre[..i]) >= needed;
      assert Streak(before, wins[..i]) >= needed;
    }
    if Reached(before, wins, needed) {
      var i :| 0 <= i <= |wins| && Streak(before, wins[..i]) >= needed;
      if i < |wins| {
        assert Streak(before, pre[..i]) >= needed;
      }
    }
  }

  /** The row is promoted exactly once enough wins in a row have been observed; until then
      it counts them, every observation, and the losses in all and in a row. */
  lemma {:induction false} PromotedExactly(r: Risk, wins: seq<bool>, hook: Hook)
    requires r.mode == Virtual && r.wins < RequiredWins(hook, r.trap)
    ensures var after := ObserveAll(r, wins, hook);
            if Reached(r.wins, wins, RequiredWins(hook, r.trap))
            then after.mode == RealRecovery && after.debt == r.debt && (after.pending <==> r.debt >= 1)
            else after == r.(wins := Streak(r.wins, wins), observations := r.observations + |wins|,
                             virtualLosses := r.virtualLosses + LossesIn(wins),
                             virtualStreak := LossStreak(r.virtualStreak, wins))
  {
    if |wins| == 0 {
      assert wins[..0] == wins;
    } else {
      PromotedExactly(r, wins[..|wins| - 1], hook);
      ReachedOneMore(r.wins, wins, RequiredWins(hook, r.trap));
      hide Reached, RequiredWins;
    }
  }

  /** Enough wins in a row means that the last so many observations were all wins. */
  lemma {:induction false} StreakExactly(wins: seq<bool>, needed: nat)
    ensures Streak(0, wins) >= needed <==>
            |wins| >= needed && forall i :: |wins| - needed <= i < |wins| ==> wins[i]
  {
    if |wins| > 0 && needed > 0 {
      var pre := wins[..|wins| - 1];
      StreakExactly(pre, needed - 1);
      assert forall i :: 0 <= i < |pre| ==> pre[i] == wins[i];
      if Streak(0, wins) < needed && |wins| >= needed && wins[|wins| - 1] {
        var i :| |pre| - (needed - 1) <= i < |pre| && !pre[i];
        assert !wins[i];
      }
    }
  }
}
