/** The AccountRiskState row as the worker updates it: field by field, block by
    block.  Every method is proved to carry the row from one `Risk` value to the
    next one given by AidrRecovery. */
module RiskRows {
  import opened RecoveryStake
  import opened AidrRecovery

  class RiskAccount {
    var tradingDay: int
    var sessionProfit: int
    var consecutiveLosses: nat
    var recoveryLossDebt: nat
    var recoveryPending: bool
    var recoveryAttemptActive: bool
    var protectionMode: Mode
    var virtualObservationCount: nat
    var virtualWinCount: nat
    var virtualLossCount: nat
    var currentVirtualLossStreak: nat
    var splitRemaining: bool
    var trapScore: nat
    var postVirtualRecoveryLosses: nat

    function Snapshot(): Risk
      reads this
    {
      Risk(tradingDay, sessionProfit, consecutiveLosses, recoveryLossDebt, recoveryPending,
           recoveryAttemptActive, protectionMode, virtualObservationCount, virtualWinCount,
           virtualLossCount, currentVirtualLossStreak, splitRemaining, trapScore,
           postVirtualRecoveryLosses)
    }

    constructor (today: int)
      ensures Snapshot() == StoppedState().(day := today)
    {
      tradingDay, sessionProfit, consecutiveLosses, recoveryLossDebt := today, 0, 0, 0;
      recoveryPending, recoveryAttemptActive, protectionMode := false, false, Normal;
      virtualObservationCount, virtualWinCount, virtualLossCount, currentVirtualLossStreak := 0, 0, 0, 0;
      splitRemaining, trapScore, postVirtualRecoveryLosses := false, 0, 0;
    }

    method ZeroVirtualCounters()
      modifies this
      ensures Snapshot() == ZeroCounters(old(Snapshot()))
    {
      virtualObservationCount := 0;
      virtualWinCount := 0;
      virtualLossCount := 0;
      currentVirtualLossStreak := 0;
    }

    method ResetVirtualCounters()
      modifies this
      ensures Snapshot() == ResetVirtual(old(Snapshot()))
    {
      protectionMode := Normal;
      ZeroVirtualCounters();
    }

    method EnterVirtualMode()
      modifies this
      ensures Snapshot() == EnterVirtual(old(Snapshot()))
    {
      protectionMode := Virtual;
      recoveryPending := true;
      recoveryAttemptActive := false;
      ZeroVirtualCounters();
    }

    method ForceVirtualMode()
      modifies this
      ensures Snapshot() == ForceVirtual(old(Snapshot()))
    {
      var entering := protectionMode != Virtual;
      protectionMode := Virtual;
      recoveryPending := true;
      recoveryAttemptActive := false;
      if entering {
        ZeroVirtualCounters();
        splitRemaining := false;
      }
    }

    method ResetAdaptiveTrap()
      modifies this
      ensures Snapshot() == ClearTrap(old(Snapshot()))
    {
      trapScore := 0;
      postVirtualRecoveryLosses := 0;
    }

    method RecordPostVirtualRecoveryLoss()
      modifies this
      ensures Snapshot() == TightenTrap(old(Snapshot()))
    {
      trapScore := Min(MAX_TRAP_SCORE, trapScore + 1);
      postVirtualRecoveryLosses := postVirtualRecoveryLosses + 1;
    }

    method ResetAfterStop()
      modifies this
      ensures Snapshot() == StoppedState()
    {
      tradingDay := NO_DAY;
      sessionProfit := 0;
      consecutiveLosses := 0;
      recoveryLossDebt := 0;
      recoveryPending := false;
      recoveryAttemptActive := false;
      ResetVirtualCounters();
      splitRemaining := false;
      ResetAdaptiveTrap();
    }

    method BeginRecorderDay(today: int)
      modifies this
      ensures Snapshot() == RecorderNewDay(old(Snapshot()), today)
    {
      tradingDay := today;
      sessionProfit := 0;
      consecutiveLosses := 0;
      recoveryLossDebt := 0;
      recoveryPending := false;
      recoveryAttemptActive := false;
      ResetVirtualCounters();
      splitRemaining := false;
      ResetAdaptiveTrap();
    }

    method RecordLosingOutcome(wasRecovery: bool, loss: nat, recoveryEnabled: bool)
      modifies this
      ensures Snapshot() == RecordLoss(old(Snapshot()), wasRecovery, loss, recoveryEnabled)
    {
      consecutiveLosses := consecutiveLosses + 1;
      recoveryLossDebt := recoveryLossDebt + loss;
      recoveryPending := recoveryEnabled && recoveryLossDebt > 0;
      if !recoveryPending {
        ResetVirtualCounters();
        splitRemaining := false;
      } else if wasRecovery {
        splitRemaining := false;
        EnterVirtualMode();
      } else {
        protectionMode := RealRecovery;
      }
    }

    method RecordWinningOutcome(wasRecovery: bool, profit: int, recoveryEnabled: bool)
      modifies this
      ensures Snapshot() == RecordWin(old(Snapshot()), wasRecovery, profit, recoveryEnabled)
    {
      recoveryLossDebt := if wasRecovery then RemainingDebt(recoveryLossDebt, profit) else 0;
      recoveryPending := recoveryEnabled && recoveryLossDebt > 0;
      consecutiveLosses := 0;
      if recoveryPending {
        splitRemaining := false;
        EnterVirtualMode();
      } else {
        ResetVirtualCounters();
        splitRemaining := false;
        ResetAdaptiveTrap();
      }
    }

    /** `_record_account_outcome_aidr` */
    method RecordAccountOutcome(profit: int, today: int, recoveryEnabled: bool)
      modifies this
      ensures Snapshot() == RecordAidr(old(Snapshot()), profit, today, recoveryEnabled)
    {
      if tradingDay != today {
        BeginRecorderDay(today);
      }
      var wasRecovery := recoveryAttemptActive || protectionMode == RealRecovery;
      sessionProfit := sessionProfit + profit;
      recoveryAttemptActive := false;
      if profit <= 0 {
        RecordLosingOutcome(wasRecovery, -profit, recoveryEnabled);
      } else {
        RecordWinningOutcome(wasRecovery, profit, recoveryEnabled);
      }
    }

    /** `strict_record_outcome`, from the read of `previous` on. */
    method StrictRecordOutcome(profit: int, today: int, recoveryEnabled: bool, hook: Hook)
      modifies this
      ensures Snapshot() == StrictRecord(old(Snapshot()), profit, today, recoveryEnabled, hook)
    {
      var previous := Snapshot();
      RecordAccountOutcome(profit, today, recoveryEnabled);
      if WonRecovery(previous, profit) {
        if recoveryLossDebt == 0 {
          recoveryPending := false;
          recoveryAttemptActive := false;
          consecutiveLosses := 0;
          ResetVirtualCounters();
          splitRemaining := false;
          ResetAdaptiveTrap();
        } else if hook.enabled {
          ForceVirtualMode();
        } else {
          recoveryPending := true;
          recoveryAttemptActive := false;
          protectionMode := RealRecovery;
        }
      }
      if FailedRecovery(previous, profit) && hook.enabled {
        if previous.marker && consecutiveLosses >= 3 {
          RecordPostVirtualRecoveryLoss();
        }
        ForceVirtualMode();
      }
    }

    /** The base planner's block, then the AIDR sizing over what it left. */
    method PlanAidrStake(q: PlanRequest) returns (plan: StakePlan)
      modifies this
      ensures (Snapshot(), plan) == AidrPlan(old(Snapshot()), q)
    {
      if !q.maskChanged && tradingDay != q.today {
        tradingDay := q.today;
        sessionProfit := 0;
        consecutiveLosses := 0;
        recoveryLossDebt := 0;
        recoveryPending := false;
        recoveryAttemptActive := false;
        ResetVirtualCounters();
      }
      var balance := Max(0, q.balance);
      var base := Max(0, Max(q.minimum, q.requested));
      var spendable := Max(0, balance - q.reserve);
      if (q.virtualProtection && protectionMode == Virtual) || base > spendable {
        return Refused;
      }
      var isRecovery := recoveryPending && !recoveryAttemptActive && recoveryLossDebt > 0;
      plan := Staked(base, isRecovery);
      if isRecovery && q.recoveryEnabled {
        var quote := SharedRecoveryStake(base, recoveryLossDebt, q.ratio, spendable, balance, q.fraction);
        if !quote.allowed {
          return Refused;
        }
        plan := Staked(quote.stake, true);
      }
      if protectionMode == Virtual {
        return Refused;
      }
      if recoveryPending && recoveryLossDebt > 0 && q.recoveryEnabled {
        plan := Staked(FullRecoveryStake(base, recoveryLossDebt, q.ratio), true);
      }
    }

    /** `strict_plan_stake` for a running account. */
    method StrictPlanStake(q: PlanRequest, hook: Hook) returns (plan: StakePlan)
      modifies this
      ensures (Snapshot(), plan) == StrictPlan(old(Snapshot()), q, hook)
    {
      if protectionMode == Virtual && hook.enabled {
        return Refused;
      }
      if DebtRequiresVirtual(Snapshot(), hook) {
        ForceVirtualMode();
        return Refused;
      }
      plan := PlanAidrStake(q);
      if plan.Staked? && plan.isRecovery && protectionMode != Virtual {
        recoveryPending := true;
        recoveryAttemptActive := true;
        protectionMode := RealRecovery;
      }
    }

    /** One due observation of `settle_due_virtual_trades` and the marker write
        of its wrappers. */
    method SettleVirtual(win: bool, hook: Hook)
      modifies this
      ensures Snapshot() == MarkPromoted(old(Snapshot()), ObserveVirtual(old(Snapshot()), win, hook))
    {
      if protectionMode != Virtual {
        return;
      }
      virtualObservationCount := virtualObservationCount + 1;
      if win {
        virtualWinCount := virtualWinCount + 1;
        currentVirtualLossStreak := 0;
        if virtualWinCount >= RequiredWins(hook, trapScore) {
          protectionMode := RealRecovery;
          recoveryPending := recoveryLossDebt >= 1;
          splitRemaining := true;
        }
      } else {
        virtualWinCount := 0;
        virtualLossCount := virtualLossCount + 1;
        currentVirtualLossStreak := currentVirtualLossStreak + 1;
      }
    }

    /** The first block of the confirmation pass, for one row. */
    method MarkConfirmed(hook: Hook)
      modifies this
      ensures Snapshot() == Reconcile(old(Snapshot()), hook, false)
    {
      if Confirmable(Snapshot(), hook) {
        splitRemaining := true;
      }
    }

    /** The second block: the row is checked again before it is promoted. */
    method PromoteConfirmed(hook: Hook) returns (promoted: bool)
      modifies this
      ensures promoted == old(Confirmable(Snapshot(), hook))
      ensures Snapshot() == if promoted
                            then old(Snapshot()).(mode := RealRecovery, pending := true)
                            else old(Snapshot())
    {
      promoted := Confirmable(Snapshot(), hook);
      if promoted {
        protectionMode := RealRecovery;
        recoveryPending := true;
      }
    }
  }

  /** `reconcile_existing_virtual_confirmations`: one pass writes the markers, the
      next promotes each row that still qualifies.  Every row ends as `Reconcile`
      says. */
  method ReconcileConfirmations(rows: seq<RiskAccount>, hooks: seq<Hook>, ghost start: seq<Risk>)
    requires |rows| == |hooks| == |start|
    requires forall i, j :: 0 <= i < j < |rows| ==> rows[i] != rows[j]
    requires forall i :: 0 <= i < |rows| ==> rows[i].Snapshot() == start[i]
    modifies rows
    ensures forall i :: 0 <= i < |rows| ==> rows[i].Snapshot() == Reconcile(start[i], hooks[i], true)
  {
    var i := 0;
    while i < |rows|
      invariant 0 <= i <= |rows|
      invariant forall k :: 0 <= k < i ==> rows[k].Snapshot() == Reconcile(start[k], hooks[k], false)
      invariant forall k :: i <= k < |rows| ==> rows[k].Snapshot() == start[k]
    {
      rows[i].MarkConfirmed(hooks[i]);
      i := i + 1;
    }
    i := 0;
    while i < |rows|
      invariant 0 <= i <= |rows|
      invariant forall k :: 0 <= k < i ==> rows[k].Snapshot() == Reconcile(start[k], hooks[k], true)
      invariant forall k :: i <= k < |rows| ==> rows[k].Snapshot() == Reconcile(start[k], hooks[k], false)
    {
      var _ := rows[i].PromoteConfirmed(hooks[i]);
      i := i + 1;
    }
  }
}
