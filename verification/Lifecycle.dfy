/** Account lifecycle: app/account_lifecycle.py, app/account_mode_execution_lock.py
    and the row writes of app/aidr_strict_recovery_guard.py; and the race between
    an atomic Stop and a settlement. */
module Lifecycle {
  import opened RecoveryStake
  import opened AidrRecovery

  /** The execution statuses the lifecycle code distinguishes. */
  datatype Status =
    | Inactive | Disabled | StoppedStatus | RealDisabled
    | ManualPause | TakeProfit | StopLoss | InsufficientBalance | PurchaseInsufficientBalance
    | CredentialError | InvalidAccount | TokenRequired | BulkPatRequired | ContractUnavailable
    | RegistrationError
    | SettlementOnly | DirectBrowser
    | Starting | Validating | Connecting | Reconnecting
    | Watching | WaitingForCondition | Executing | Active | RunningStatus
    | BaseStakeProtection | RecoveryPending | VirtualProtection
    | OtherStatus

  /** One ManagedAccount row; `youngLease` says its status stamp is under 20 s old. */
  datatype Row = Row(enabled: bool, status: Status, youngLease: bool)

  datatype Phase = RunningPhase | StartingPhase | PausedPhase | StoppedPhase | SettlementPhase

  predicate StoppedLike(s: Status) { s in {StoppedStatus, Inactive, Disabled, RealDisabled} }

  predicate PausedLike(s: Status) {
    s in {ManualPause, TakeProfit, StopLoss, InsufficientBalance, PurchaseInsufficientBalance,
          CredentialError, InvalidAccount, TokenRequired, BulkPatRequired, ContractUnavailable,
          RegistrationError}
  }

  predicate StartingLike(s: Status) { s in {Starting, Validating, Connecting, Reconnecting} }

  /** AUTO_PROMOTION_STATUSES: what a worker may not write over Stop or Pause. */
  predicate AutoPromotion(s: Status) {
    StartingLike(s) ||
    s in {StoppedStatus, Watching, WaitingForCondition, Executing, Active, RunningStatus,
          BaseStakeProtection, RecoveryPending, VirtualProtection}
  }

  predicate LeaseFresh(row: Row) { row.status == DirectBrowser && row.enabled && row.youngLease }

  /** `account_lifecycle_from_row` */
  function PhaseOf(row: Row): Phase {
    if row.status == SettlementOnly then SettlementPhase
    else if StoppedLike(row.status) then StoppedPhase
    else if !row.enabled || PausedLike(row.status) then PausedPhase
    else if StartingLike(row.status) then StartingPhase
    else RunningPhase
  }

  /** `account_allows_new_execution` */
  predicate AllowsNewExecution(row: Row) {
    !LeaseFresh(row) && (PhaseOf(row).StartingPhase? || PhaseOf(row).RunningPhase?)
  }

  /** The strict guard's own three-way reading, `_account_lifecycle`. */
  function GuardPhase(row: Row): Phase {
    if StoppedLike(row.status) then StoppedPhase
    else if !row.enabled || PausedLike(row.status) then PausedPhase
    else RunningPhase
  }

  // ------------------------------------------------------------------- row writes

  datatype Write =
    | SetActive(status: Status)
    | RestoreDisabled(status: Status)
    | AutomaticPause(status: Status)
    | LockedStatus(status: Status)
    | PauseAccount(status: Status)
    | StopAccount
    | StartAccount

  function StatusWithAutomaticPause(row: Row, status: Status): Row {
    row.(enabled := row.enabled && !(PausedLike(status) || status == RealDisabled),
         status := status, youngLease := true)
  }

  /** `_manual_locking_set_status` */
  function Locked(row: Row, s: Status): Row {
    var phase := PhaseOf(row);
    if LeaseFresh(row) && AutoPromotion(s) then row.(enabled := true)
    else if (phase.StoppedPhase? || phase.PausedPhase? || phase.SettlementPhase?) && AutoPromotion(s) then
      row.(enabled := row.enabled && phase.PausedPhase?, youngLease := true)
    else StatusWithAutomaticPause(row, s)
  }

  function Apply(row: Row, w: Write): Row {
    match w
    case SetActive(s) =>
      if !row.enabled || StoppedLike(row.status) || PausedLike(row.status) then row
      else row.(status := s, youngLease := true)
    case RestoreDisabled(s) => Row(false, s, true)
    case AutomaticPause(s) => StatusWithAutomaticPause(row, s)
    case LockedStatus(s) => Locked(row, s)
    case PauseAccount(s) => Row(false, s, true)
    case StopAccount => Row(false, StoppedStatus, true)
    case StartAccount => Row(true, Connecting, true)
  }

  function ApplyAll(row: Row, ws: seq<Write>): Row
    decreases |ws|
  {
    if |ws| == 0 then row else ApplyAll(Apply(row, ws[0]), ws[1..])
  }

  /** Every write leaves the row enabled. */
  predicate AllKeepEnabled(row: Row, ws: seq<Write>)
    decreases |ws|
  {
    |ws| == 0 || (Apply(row, ws[0]).enabled && AllKeepEnabled(Apply(row, ws[0]), ws[1..]))
  }

  /** What an explicit Start makes of any row. */
  const STARTED := Row(true, Connecting, true)

  /** Some Start is followed only by writes that leave the row enabled. */
  predicate StartSurvives(ws: seq<Write>) {
    exists i :: 0 <= i < |ws| && ws[i] == StartAccount && AllKeepEnabled(STARTED, ws[i + 1..])
  }

  lemma DisabledStays(row: Row, w: Write)
    requires !row.enabled
    ensures Apply(row, w).enabled ==> w == StartAccount && Apply(row, w) == STARTED
  {
  }

  lemma {:induction false} SurvivesFront(ws: seq<Write>)
    requires |ws| > 0
    ensures StartSurvives(ws) <==>
            (ws[0] == StartAccount && AllKeepEnabled(STARTED, ws[1..])) || StartSurvives(ws[1..])
  {
    hide AllKeepEnabled;
    var rest := ws[1..];
    if StartSurvives(rest) {
      var i :| 0 <= i < |rest| && rest[i] == StartAccount && AllKeepEnabled(STARTED, rest[i + 1..]);
      assert ws[i + 1] == StartAccount && ws[i + 2..] == rest[i + 1..];
    }
    if StartSurvives(ws) {
      var i :| 0 <= i < |ws| && ws[i] == StartAccount && AllKeepEnabled(STARTED, ws[i + 1..]);
      if i > 0 {
        assert rest[i - 1] == StartAccount && rest[i..] == ws[i + 1..];
      }
    }
  }

  /** After any writes a row is enabled exactly when nothing ever disabled it or some
      Start came after the last disabling write. */
  lemma {:induction false} EnabledExactly(row: Row, ws: seq<Write>)
    ensures ApplyAll(row, ws).enabled <==> (row.enabled && AllKeepEnabled(row, ws)) || StartSurvives(ws)
    decreases |ws|
  {
    if |ws| > 0 {
      EnabledExactly(Apply(row, ws[0]), ws[1..]);
      SurvivesFront(ws);
      if !row.enabled {
        DisabledStays(row, ws[0]);
      }
      assert ws[0] == StartAccount ==> Apply(row, ws[0]) == STARTED;
      hide Apply, StartSurvives;
    }
  }

  /** Only an explicit Start makes a disabled row executable: no sequence of status or
      recovery writes does, and a Start at the end does. */
  lemma {:induction false} OnlyStartEnables(row: Row, ws: seq<Write>)
    requires !row.enabled
    ensures ApplyAll(row, ws).enabled <==> StartSurvives(ws)
    ensures StartAccount !in ws ==> !ApplyAll(row, ws).enabled && !AllowsNewExecution(ApplyAll(row, ws))
    ensures AllowsNewExecution(Apply(ApplyAll(row, ws), StartAccount))
  {
    EnabledExactly(row, ws);
  }

  /** A worker's locked write leaves a stopped, paused or settling row closed to new
      execution exactly when it is not one of the few non-promoting statuses that
      re-open an enabled row. */
  lemma LockedWriteKeepsClosed(row: Row, s: Status)
    requires !PhaseOf(row).RunningPhase? && !PhaseOf(row).StartingPhase?
    ensures AllowsNewExecution(Apply(row, LockedStatus(s)))
       <==> row.enabled && s == OtherStatus
  {
  }

  /** Nothing new may run on the row. */
  predicate Closed(row: Row) { !row.enabled || StoppedLike(row.status) || PausedLike(row.status) }

  /** The phase of every row: a settling row is told by its status alone, a row without
      permission is paused, and only an enabled row is starting or running. */
  lemma PhaseExactly(row: Row)
    ensures PhaseOf(row).SettlementPhase? <==> row.status == SettlementOnly
    ensures PhaseOf(row).StoppedPhase? <==> StoppedLike(row.status)
    ensures PhaseOf(row).StartingPhase? <==> row.enabled && row.status in {Starting, Validating, Connecting, Reconnecting}
    ensures AllowsNewExecution(row)
       <==> !Closed(row) && row.status != SettlementOnly && !(row.status == DirectBrowser && row.youngLease)
    ensures !GuardPhase(row).RunningPhase? <==> Closed(row)
    ensures GuardPhase(row).StoppedPhase? <==> StoppedLike(row.status)
  {
  }

  /** The write leaves the status alone: a worker may not write over a closed row, and a
      promotion not over a settling row or a young browser lease either. */
  predicate Ignored(row: Row, w: Write) {
    match w
    case SetActive(_) => Closed(row)
    case LockedStatus(s) =>
      AutoPromotion(s) && (Closed(row) || row.status == SettlementOnly || (row.status == DirectBrowser && row.youngLease))
    case _ => false
  }

  function Asked(w: Write): Status {
    match w
    case StopAccount => StoppedStatus
    case StartAccount => Connecting
    case _ => w.status
  }

  /** The write takes the row's permission away. */
  predicate Disables(row: Row, w: Write) {
    match w
    case RestoreDisabled(_) => true
    case PauseAccount(_) => true
    case StopAccount => true
    case AutomaticPause(s) => PausedLike(s) || s == RealDisabled
    case LockedStatus(s) =>
      || PausedLike(s) || s == RealDisabled
      || (AutoPromotion(s) && (StoppedLike(row.status) || row.status == SettlementOnly))
    case _ => false
  }

  /** One write: the status asked for unless it is ignored, permission taken but never given
      except by Start, and a fresh stamp unless a worker's write was refused. */
  lemma {:induction false} WriteExactly(row: Row, w: Write)
    ensures var t := Apply(row, w);
            && t.status == (if Ignored(row, w) then row.status else Asked(w))
            && (t.enabled <==> w == StartAccount || (row.enabled && !Disables(row, w)))
            && (t.youngLease <==> row.youngLease || !(w.SetActive? && Closed(row)))
  {
  }

  /** What workers write while they are catching up: guarded statuses and promotions. */
  predicate WorkerWrites(ws: seq<Write>) {
    forall w :: w in ws ==> w.SetActive? || (w.LockedStatus? && AutoPromotion(w.status))
  }

  /** No number of worker writes changes the status of a closed row, or opens it. */
  lemma {:induction false} WorkersKeepClosed(row: Row, ws: seq<Write>)
    requires WorkerWrites(ws) && Closed(row)
    ensures var t := ApplyAll(row, ws);
            Closed(t) && t.status == row.status && (t.enabled ==> row.enabled)
    decreases |ws|
  {
    if |ws| > 0 {
      assert ws[0] in ws;
      WriteExactly(row, ws[0]);
      assert forall w :: w in ws[1..] ==> w in ws;
      hide Apply;
      WorkersKeepClosed(Apply(row, ws[0]), ws[1..]);
    }
  }

  class ManagedAccount {
    var enabled: bool
    var status: Status
    var youngLease: bool

    function Snapshot(): Row
      reads this
    {
      Row(enabled, status, youngLease)
    }

    /** `_set_account_active` */
    method SetAccountActive(s: Status) returns (written: bool)
      modifies this
      ensures Snapshot() == Apply(old(Snapshot()), SetActive(s))
      ensures written <==> old(enabled && !StoppedLike(status) && !PausedLike(status))
    {
      if !enabled || StoppedLike(status) || PausedLike(status) {
        return false;
      }
      status := s;
      youngLease := true;
      return true;
    }

    /** `_restore_disabled_lifecycle` */
    method RestoreDisabledLifecycle(s: Status)
      modifies this
      ensures Snapshot() == Apply(old(Snapshot()), RestoreDisabled(s))
    {
      enabled := false;
      status := s;
      youngLease := true;
    }

    /** `_status_with_automatic_pause` */
    method SetStatusWithAutomaticPause(s: Status)
      modifies this
      ensures Snapshot() == StatusWithAutomaticPause(old(Snapshot()), s)
    {
      if PausedLike(s) || s == RealDisabled {
        enabled := false;
      }
      status := s;
      youngLease := true;
    }

    /** `_manual_locking_set_status` over the automatic-pause writer. */
    method SetStatusLocked(s: Status)
      modifies this
      ensures Snapshot() == Locked(old(Snapshot()), s)
    {
      hide StoppedLike, PausedLike, StartingLike, AutoPromotion;
      var phase := PhaseOf(Snapshot());
      if status == DirectBrowser && LeaseFresh(Snapshot()) && AutoPromotion(s) {
        enabled := true;
        status := DirectBrowser;
        return;
      }
      if (phase.StoppedPhase? || phase.PausedPhase? || phase.SettlementPhase?) && AutoPromotion(s) {
        if phase.StoppedPhase? || phase.SettlementPhase? {
          enabled := false;
        }
        youngLease := true;
        return;
      }
      SetStatusWithAutomaticPause(s);
    }
  }

  // ------------------------------------------------------------ Stop and settlement

  datatype Account = Account(row: Row, risk: Risk)

  /** `_set_stopped`: row, risk state and preferences in one transaction. */
  function StopNow(a: Account): Account {
    Account(Apply(a.row, StopAccount), StoppedState())
  }

  /** Stop commits here when it was given this place in the settlement. */
  function StopAt(a: Account, place: nat, here: nat): Account {
    if place == here then StopNow(a) else a
  }

  /** The settlement resets a stopped account and returns; a Stop placed later than
      that commits after the return. */
  function StopAfterReturn(a: Account, place: nat, next: nat): Account {
    if next <= place <= 7 then StopNow(a) else a.(risk := StoppedState())
  }

  function GuardWin(a: Account, hook: Hook): Account {
    Account(if a.risk.debt > 0 && hook.enabled then Apply(a.row, SetActive(VirtualProtection)) else a.row,
            GuardAfterWin(a.risk, hook))
  }

  /** The row status written when the settlement was no recovery. */
  function AfterNormal(a: Account, recorded: Risk): Account {
    match recorded.mode
    case Virtual => a
    case RealRecovery => a.(row := Apply(a.row, SetActive(RecoveryPending)))
    case Normal => a.(row := Apply(a.row, SetActive(Active)))
  }

  /** `strict_record_outcome` block by block, with one atomic Stop committed before
      block `place` (8 and up mean no Stop):
      0 before anything, 1 before `previous` is read, 2 before the recorder,
      3 before the lifecycle is read again, 4 before the winning block, 5 before the
      losing block, 6 before a pause is restored, 7 after the return. */
  function SettleWithStop(start: Account, profit: int, today: int, recovery: bool, hook: Hook, place: nat): Account {
    var a0 := StopAt(start, place, 0);
    var before := GuardPhase(a0.row);
    if before.StoppedPhase? then StopAfterReturn(a0, place, 1)
    else
      var a1 := StopAt(a0, place, 1);
      var previous := a1.risk;
      var a2 := StopAt(a1, place, 2);
      var recorded := RecordAidr(a2.risk, profit, today, recovery);
      var a3 := StopAt(a2.(risk := recorded), place, 3);
      var after, statusAfter := GuardPhase(a3.row), a3.row.status;
      if after.StoppedPhase? then StopAfterReturn(a3, place, 4)
      else
        var a4 := StopAt(a3, place, 4);
        var won := WonRecovery(previous, profit);
        var a5 := StopAt(if won then GuardWin(a4, hook) else a4, place, 5);
        var a6 := StopAt(
          if FailedRecovery(previous, profit) && hook.enabled then
            Account(Apply(a5.row, SetActive(VirtualProtection)), GuardAfterLoss(previous, a5.risk))
          else if !won && after.RunningPhase? then AfterNormal(a5, recorded)
          else a5, place, 6);
        var a7 := if before.PausedPhase? || after.PausedPhase?
                  then a6.(row := Apply(a6.row, RestoreDisabled(statusAfter))) else a6;
        StopAt(a7, place, 7)
  }

  /** Stopped for good: no debt, NORMAL, no marker, no flag, and a stopped row. */
  predicate StoppedClean(a: Account) {
    a.risk == StoppedState() && a.row.status == StoppedStatus && !a.row.enabled
  }

  /** Without a Stop the blocks compose to the guard's settlement. */
  lemma SettlementBlocks(a: Account, profit: int, today: int, recovery: bool, hook: Hook)
    requires !GuardPhase(a.row).StoppedPhase?
    ensures SettleWithStop(a, profit, today, recovery, hook, 8).risk == StrictRecord(a.risk, profit, today, recovery, hook)
    ensures SettleWithStop(a, profit, today, recovery, hook, 8).row.enabled ==> a.row.enabled
  {
  }

  /** The row a settlement leaves when no Stop comes: a stopped account is only reset, a
      paused one keeps its status and stays disabled, and a running one reads VIRTUAL after
      a failed or too small recovery, otherwise as the recorder left the risk row; a
      recovery that was won leaves the status alone. */
  lemma {:induction false} SettledRowExactly(a: Account, profit: int, today: int, hook: Hook)
    requires OrderlyRow(a.risk) && a.risk.mode != Virtual
    ensures var t := SettleWithStop(a, profit, today, true, hook, 8);
            if StoppedLike(a.row.status) then t == Account(a.row, StoppedState())
            else if !a.row.enabled || PausedLike(a.row.status) then t.row == Row(false, a.row.status, true)
            else
              var recovering, lost := a.risk.mode == RealRecovery, profit <= 0;
              && t.row.enabled
              && t.row.status == (if recovering && hook.enabled && (lost || t.risk.debt > 0) then VirtualProtection
                                  else if !lost && (recovering || a.risk.marker) then a.row.status
                                  else if t.risk.mode == RealRecovery then RecoveryPending
                                  else if t.risk.mode == Normal then Active
                                  else a.row.status)
  {
    assert WonRecovery(a.risk, profit) <==> profit > 0 && (a.risk.mode == RealRecovery || a.risk.marker);
    assert FailedRecovery(a.risk, profit) <==> profit <= 0 && a.risk.mode == RealRecovery;
    hide TightenTrap;
  }

  /** A Stop after the settlement has returned wins as well. */
  lemma StopAfterSettlement(a: Account, profit: int, today: int, recovery: bool, hook: Hook)
    ensures StoppedClean(SettleWithStop(a, profit, today, recovery, hook, 7))
  {
    hide RecordAidr, GuardAfterWin, GuardAfterLoss;
  }

  /** Stop wins at every place up to the guard's second lifecycle check. */
  lemma StopBeatsSettlement(a: Account, profit: int, today: int, recovery: bool, hook: Hook, place: nat)
    requires place <= 3
    ensures StoppedClean(SettleWithStop(a, profit, today, recovery, hook, place))
  {
  }

  /** After the check Stop still wins exactly when no later block writes: the losing
      block of an enabled hook has not yet run, or a pause is to be restored. */
  lemma StopAfterCheckExactly(a: Account, profit: int, today: int, recovery: bool, hook: Hook, place: nat)
    requires 4 <= place <= 6 && !GuardPhase(a.row).StoppedPhase?
    ensures StoppedClean(SettleWithStop(a, profit, today, recovery, hook, place))
       <==> !(place <= 5 && FailedRecovery(a.risk, profit) && hook.enabled)
            && !GuardPhase(a.row).PausedPhase?
  {
    assert ForceVirtual(StoppedState()).mode == Virtual;
  }

  /** Even then no block of the settlement re-enables the row. */
  lemma SettlementNeverEnables(a: Account, profit: int, today: int, recovery: bool, hook: Hook, place: nat)
    requires place <= 7
    ensures !SettleWithStop(a, profit, today, recovery, hook, place).row.enabled
  {
  }
}
