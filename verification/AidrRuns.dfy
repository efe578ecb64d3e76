/** Whole runs of one account under AIDR recovery, with recovery on and at most one
    open contract (app/config.py, maximum_open_contracts_per_account).

    A run is a list of events; every database block is one step, except that a
    crash may separate a promotion from the marker write beside it. */
module AidrRuns {
  import opened RecoveryStake
  import opened AidrRecovery

  datatype Life = Running | Paused | Stopped

  datatype Contract = NoContract | Open(action: Action, recovery: bool)

  datatype Step =
    | Buy(q: PlanRequest, accepted: bool)
    | Settle(profit: int, today: int)
    | Observe(win: bool, markerWritten: bool)
    | Promote(committed: bool)
    | PurchaseAbsent
    | Stop
    | Pause
    | Start(reset: bool)

  /** An event happens under the hook settings of its moment. */
  datatype Event = Event(hook: Hook, step: Step)

  /** `over3` counts the real OVER-3 purchases of the current debt episode; `owed` says that a recovery of the episode has failed to clear the debt and
      no promotion has followed. */
  datatype Machine = Machine(risk: Risk, life: Life, contract: Contract, over3: nat, owed: bool)

  function Start0(today: int): Machine {
    Machine(StoppedState().(day := today), Running, NoContract, 0, false)
  }

  /** A debt episode ends when the debt is gone. */
  function CloseEpisode(m: Machine): Machine {
    if m.risk.debt == 0 then m.(over3 := 0, owed := false) else m
  }

  /** The router admits no real purchase for a VIRTUAL row; otherwise the planner
      decides, with recovery on, and an accepted stake opens the contract. */
  function BuyStep(m: Machine, q: PlanRequest, accepted: bool, hook: Hook): Machine {
    var action := RequiredAction(m.risk);
    if m.life != Running || m.contract.Open? || action.VirtualOver4? then m
    else
      var (risk, plan) := StrictPlan(m.risk, q.(recoveryEnabled := true), hook);
      if plan.Refused? then CloseEpisode(m.(risk := risk))
      else
        var marked := if plan.isRecovery then MarkAttempt(risk) else risk;
        CloseEpisode(
          if !accepted then m.(risk := marked)
          else m.(risk := marked, contract := Open(action, plan.isRecovery),
                  over3 := m.over3 + if action.FirstRecoveryOver3? then 1 else 0))
  }

  function SettleStep(m: Machine, profit: int, today: int, hook: Hook): Machine {
    if m.contract.NoContract? then m
    else if m.life == Stopped then
      CloseEpisode(m.(risk := StoppedState(), contract := NoContract))
    else
      CloseEpisode(m.(risk := StrictRecord(m.risk, profit, today, true, hook), contract := NoContract,
                      owed := m.owed || m.risk.mode == RealRecovery))
  }

  /** A promotion out of VIRTUAL pays what is owed. */
  function Moved(m: Machine, risk: Risk): Machine {
    m.(risk := risk, owed := m.owed && !(m.risk.mode == Virtual && risk.mode == RealRecovery))
  }

  function Next(m: Machine, e: Event): Machine {
    match e.step
    case Buy(q, accepted) => BuyStep(m, q, accepted, e.hook)
    case Settle(profit, today) => SettleStep(m, profit, today, e.hook)
    case Observe(win, markerWritten) =>
      var seen := ObserveVirtual(m.risk, win, e.hook);
      if m.life == Stopped then m
      else Moved(m, if markerWritten then MarkPromoted(m.risk, seen) else seen)
    case Promote(committed) => Moved(m, Reconcile(m.risk, e.hook, committed))
    case PurchaseAbsent => if m.contract.Open? then m else m.(risk := ClearAttempt(m.risk))
    case Stop => CloseEpisode(m.(risk := StoppedState(), life := Stopped))
    case Pause => if m.life == Stopped then m else m.(life := Paused)
    case Start(reset) =>
      CloseEpisode(m.(risk := if reset then StoppedState() else m.risk, life := Running))
  }

  function Run(m: Machine, es: seq<Event>): Machine
    decreases |es|
  {
    if |es| == 0 then m else Run(Next(m, es[0]), es[1..])
  }

  // ------------------------------------------------------------ consistency of flags

  /** pending <=> debt <=> not NORMAL; an attempt is a real recovery; NORMAL has no
      virtual progress; no real contract is open in VIRTUAL. */
  predicate Consistent(m: Machine) {
    && (m.risk.pending <==> m.risk.debt >= 1)
    && (m.risk.debt >= 1 <==> m.risk.mode != Normal)
    && (m.risk.attempt ==> m.risk.mode == RealRecovery)
    && (m.risk.mode == Normal ==> m.risk.CountersZero())
    && (m.contract.Open? ==> m.risk.mode != Virtual)
  }

  /** The part of it that no event breaks: a NORMAL row is clear, a debt is pending, an
      attempt is a real recovery, and no real contract is open in VIRTUAL. */
  predicate Orderly(m: Machine) {
    && (m.risk.mode == Normal ==> m.risk.debt == 0 && !m.risk.pending && !m.risk.attempt && m.risk.CountersZero())
    && (m.risk.debt >= 1 ==> m.risk.pending)
    && (m.risk.attempt ==> m.risk.mode == RealRecovery)
    && (m.contract.Open? ==> m.risk.mode != Virtual)
  }

  lemma ConsistentIsOrderly(m: Machine)
    requires Consistent(m)
    ensures Orderly(m)
  {
  }

  lemma BuyOrderly(m: Machine, q: PlanRequest, accepted: bool, hook: Hook)
    requires Orderly(m)
    ensures Orderly(BuyStep(m, q, accepted, hook))
  {
    RecoveryPlanHasDebt(m.risk, q.(recoveryEnabled := true), hook);
    PlannedRowExactly(m.risk, q.(recoveryEnabled := true), hook);
    hide StrictPlan, MarkAttempt;
  }

  lemma SettleOrderly(m: Machine, profit: int, today: int, hook: Hook)
    requires Orderly(m)
    ensures Orderly(SettleStep(m, profit, today, hook))
  {
    if m.contract.Open? {
      SettledMoney(m.risk, profit, today, hook);
      SettledMode(m.risk, profit, today, hook);
    }
    hide StrictRecord;
  }

  /** Every event keeps the account orderly. */
  lemma {:induction false} OrderlyStays(m: Machine, e: Event)
    requires Orderly(m)
    ensures Orderly(Next(m, e))
  {
    match e.step
    case Buy(q, accepted) => BuyOrderly(m, q, accepted, e.hook);
    case Settle(profit, today) => SettleOrderly(m, profit, today, e.hook);
    case _ => hide StrictPlan, StrictRecord;
  }

  lemma {:induction false} RunsStayOrderly(m: Machine, es: seq<Event>)
    requires Orderly(m)
    ensures Orderly(Run(m, es))
    decreases |es|
  {
    if |es| > 0 {
      OrderlyStays(m, es[0]);
      RunsStayOrderly(Next(m, es[0]), es[1..]);
    }
  }

  /** A recovery contract that settles at exactly zero on a later UTC day than the
      row's: the recorder clears the debt, then the guard, which looks at the old
      debt, still forces VIRTUAL. */
  predicate BreakEvenAcrossMidnight(m: Machine, e: Event) {
    && e.step.Settle? && m.contract.Open? && m.life != Stopped
    && e.step.profit == 0 && e.step.today != m.risk.day
    && m.risk.mode == RealRecovery && e.hook.enabled
  }

  /** What the recorder alone leaves: flags, debt and mode agree again. */
  lemma RecorderSettles(row: Risk, profit: int, today: int)
    requires row.debt >= 1 <==> row.mode != Normal
    requires row.mode != Virtual
    ensures var r := RecordAidr(row, profit, today, true);
            && (r.pending <==> r.debt >= 1) && (r.debt >= 1 <==> r.mode != Normal)
            && !r.attempt && (r.mode == Normal ==> r.CountersZero())
  {
    hide StrictPlan;
    var r0 := if row.day != today then RecorderNewDay(row, today) else row;
    if profit <= 0 {
      assert row.day != today ==> !IsRecovering(r0);
    } else {
      assert row.day != today ==> r0.debt == 0;
    }
  }

  lemma SettleConsistentExactly(m: Machine, profit: int, today: int, hook: Hook)
    requires Consistent(m)
    ensures Consistent(SettleStep(m, profit, today, hook))
       <==> !BreakEvenAcrossMidnight(m, Event(hook, Settle(profit, today)))
  {
    if m.contract.Open? && m.life != Stopped {
      RecorderSettles(m.risk, profit, today);
    }
  }

  lemma BuyConsistent(m: Machine, q: PlanRequest, accepted: bool, hook: Hook)
    requires Consistent(m)
    ensures Consistent(BuyStep(m, q, accepted, hook))
  {
    RecoveryPlanHasDebt(m.risk, q.(recoveryEnabled := true), hook);
    PlannedRowExactly(m.risk, q.(recoveryEnabled := true), hook);
    hide StrictPlan, MarkAttempt;
  }

  lemma {:induction false} ConsistentExactly(m: Machine, e: Event)
    requires Consistent(m)
    ensures Consistent(Next(m, e)) <==> !BreakEvenAcrossMidnight(m, e)
  {
    match e.step
    case Buy(q, accepted) => BuyConsistent(m, q, accepted, e.hook);
    case Settle(profit, today) => SettleConsistentExactly(m, profit, today, e.hook);
    case _ =>
  }

  predicate AlwaysConsistent(m: Machine, es: seq<Event>)
    decreases |es|
  {
    Consistent(m) && (|es| == 0 || AlwaysConsistent(Next(m, es[0]), es[1..]))
  }

  predicate NoBreakEven(m: Machine, es: seq<Event>)
    decreases |es|
  {
    |es| == 0 || (!BreakEvenAcrossMidnight(m, es[0]) && NoBreakEven(Next(m, es[0]), es[1..]))
  }

  /** Every state of a run is consistent exactly when no recovery breaks even
      across midnight. */
  lemma {:induction false} RunsAreConsistent(m: Machine, es: seq<Event>)
    requires Consistent(m)
    ensures AlwaysConsistent(m, es) <==> NoBreakEven(m, es)
    decreases |es|
  {
    if |es| > 0 {
      ConsistentExactly(m, es[0]);
      if Consistent(Next(m, es[0])) {
        RunsAreConsistent(Next(m, es[0]), es[1..]);
      }
    }
  }

  /** In every state of every run, from the start state or any orderly one, scan-time
      grouping and buy-time action agree. */
  lemma {:induction false} ReachableClassifiersAgree(m: Machine, es: seq<Event>)
    requires Orderly(m)
    ensures ScanGroup(Run(m, es).risk) == RequiredAction(Run(m, es).risk)
  {
    RunsStayOrderly(m, es);
    ClassifiersAgree(Run(m, es).risk);
    hide Run;
  }

  // -------------------------------------------------- the marker of a NORMAL account

  predicate NormalUnmarked(m: Machine) { m.risk.mode == Normal ==> !m.risk.marker }

  /** The planner meets a new day while a post-virtual recovery is armed: its day
      change clears the debt but not the marker. */
  predicate PlannerKeepsMarker(m: Machine, e: Event) {
    && e.step.Buy? && m.life == Running && m.contract.NoContract?
    && m.risk.mode == RealRecovery && m.risk.marker && RollsDay(m.risk, e.step.q)
  }

  lemma BuyUnmarked(m: Machine, q: PlanRequest, accepted: bool, hook: Hook)
    requires NormalUnmarked(m)
    ensures NormalUnmarked(BuyStep(m, q, accepted, hook))
       <==> !PlannerKeepsMarker(m, Event(hook, Buy(q, accepted)))
  {
    hide StrictRecord, SharedRecoveryStake, FullRecoveryStake;
  }

  lemma SettleUnmarked(m: Machine, profit: int, today: int, hook: Hook)
    requires NormalUnmarked(m)
    ensures NormalUnmarked(SettleStep(m, profit, today, hook))
  {
    hide StrictPlan;
  }

  lemma UnmarkedExactly(m: Machine, e: Event)
    requires NormalUnmarked(m)
    ensures NormalUnmarked(Next(m, e)) <==> !PlannerKeepsMarker(m, e)
  {
    match e.step
    case Buy(q, accepted) => BuyUnmarked(m, q, accepted, e.hook);
    case Settle(profit, today) => SettleUnmarked(m, profit, today, e.hook);
    case _ => hide StrictPlan, StrictRecord;
  }

  predicate AlwaysUnmarked(m: Machine, es: seq<Event>)
    decreases |es|
  {
    NormalUnmarked(m) && (|es| == 0 || AlwaysUnmarked(Next(m, es[0]), es[1..]))
  }

  predicate NoKeptMarker(m: Machine, es: seq<Event>)
    decreases |es|
  {
    |es| == 0 || (!PlannerKeepsMarker(m, es[0]) && NoKeptMarker(Next(m, es[0]), es[1..]))
  }

  lemma {:induction false} RunsLeaveNormalUnmarked(m: Machine, es: seq<Event>)
    requires NormalUnmarked(m)
    ensures AlwaysUnmarked(m, es) <==> NoKeptMarker(m, es)
    decreases |es|
  {
    if |es| > 0 {
      UnmarkedExactly(m, es[0]);
      if NormalUnmarked(Next(m, es[0])) {
        RunsLeaveNormalUnmarked(Next(m, es[0]), es[1..]);
      }
    }
  }

  // -------------------------------------------------------------------- conservation

  /** The event stays inside the row's trading day and is neither Stop nor a
      resetting Start. */
  predicate SameDay(m: Machine, e: Event) {
    match e.step
    case Buy(q, _) => !RollsDay(m.risk, q)
    case Settle(_, today) => today == m.risk.day && m.life != Stopped
    case Stop => false
    case Start(reset) => !reset
    case _ => true
  }

  predicate DayRun(m: Machine, es: seq<Event>)
    decreases |es|
  {
    |es| == 0 || (SameDay(m, es[0]) && DayRun(Next(m, es[0]), es[1..]))
  }

  /** Only a win that clears the debt moves profit + debt, and it moves it up. */
  lemma StepConserves(m: Machine, e: Event)
    requires Orderly(m) && SameDay(m, e)
    ensures Next(m, e).risk.Potential() >= m.risk.Potential()
    ensures Next(m, e).risk.Potential() > m.risk.Potential()
            ==> e.step.Settle? && e.step.profit > m.risk.debt && Next(m, e).risk.debt == 0
    ensures !BreakEvenAcrossMidnight(m, e)
  {
    if e.step.Settle? && m.contract.Open? {
      SettlementConserves(m.risk, e.step.profit, e.hook);
    }
  }

  lemma {:induction false} PotentialNeverFalls(m: Machine, es: seq<Event>)
    requires Orderly(m) && DayRun(m, es)
    ensures Run(m, es).risk.Potential() >= m.risk.Potential()
    ensures Orderly(Run(m, es)) && (Consistent(m) ==> Consistent(Run(m, es)))
    decreases |es|
  {
    if |es| > 0 {
      StepConserves(m, es[0]);
      OrderlyStays(m, es[0]);
      if Consistent(m) {
        ConsistentExactly(m, es[0]);
      }
      hide Consistent, Orderly, Next;
      PotentialNeverFalls(Next(m, es[0]), es[1..]);
    }
  }

  /** When a losing episode ends, the day's profit is at least what it was before it. */
  lemma {:induction false} EpisodeRestoresProfit(m: Machine, es: seq<Event>)
    requires Orderly(m) && DayRun(m, es) && m.risk.debt == 0 && Run(m, es).risk.debt == 0
    ensures Run(m, es).risk.profit >= m.risk.profit
  {
    PotentialNeverFalls(m, es);
  }

  /** A recovery bought and won on the same day, at a payout ratio that has not slipped by
      more than the cushion, ends with the debt cleared and the row NORMAL. */
  lemma {:induction false} RecoveryWinClears(m: Machine, q: PlanRequest, hook: Hook, realised: real, profit: int)
    requires Orderly(m) && m.contract.NoContract? && q.ratio > MINIMUM_RATIO && realised * 1.06 >= q.ratio
    requires var bought := Next(m, Event(hook, Buy(q, true)));
             && bought.contract.Open? && bought.contract.recovery
             && profit >= WinProfit(StrictPlan(m.risk, q.(recoveryEnabled := true), hook).1.stake, realised)
    ensures var bought := Next(m, Event(hook, Buy(q, true)));
            var done := Next(bought, Event(hook, Settle(profit, bought.risk.day)));
            && done.risk.debt == 0 && done.risk.mode == Normal && !done.risk.pending && done.contract.NoContract?
  {
    var asked := q.(recoveryEnabled := true);
    var bought := Next(m, Event(hook, Buy(q, true)));
    RecoveryPlanHasDebt(m.risk, asked, hook);
    RecoveryPlanRepays(m.risk, asked, hook, realised);
    var plan := StrictPlan(m.risk, asked, hook).1;
    assert bought.risk == StrictPlan(m.risk, asked, hook).0 && bought.risk.debt >= 1;
    assert WinProfit(plan.stake, realised) >= bought.risk.debt;
    hide StrictPlan, WinProfit, BaseStake, TargetProfit;
    OrderlyStays(m, Event(hook, Buy(q, true)));
    WonSameDay(bought, profit, hook);
  }

  lemma WonSameDay(m: Machine, profit: int, hook: Hook)
    requires Orderly(m) && m.contract.Open? && m.life == Running && m.risk.debt >= 1 && profit >= m.risk.debt
    ensures var done := SettleStep(m, profit, m.risk.day, hook);
            && done.risk.debt == 0 && done.risk.mode == Normal && !done.risk.pending && done.contract.NoContract?
  {
  }

  /** An observation changes a running or paused VIRTUAL row only; the marker is written
      with a promotion, and a crash in between loses just that. */
  lemma ObservedExactly(m: Machine, win: bool, markerWritten: bool, hook: Hook)
    ensures var next := Next(m, Event(hook, Observe(win, markerWritten)));
            if m.life == Stopped || m.risk.mode != Virtual then next == m
            else
              && next.risk == ObserveVirtual(m.risk, win, hook).(marker := next.risk.marker)
              && (next.risk.marker <==> m.risk.marker || (markerWritten && next.risk.mode == RealRecovery))
              && (next.risk.mode == RealRecovery <==> win && m.risk.wins + 1 >= RequiredWins(hook, m.risk.trap))
              && (next.owed <==> m.owed && next.risk.mode == Virtual)
  {
  }

  /** A real purchase is open after a Buy exactly when one was before, or a running account
      outside VIRTUAL was planned a stake and the provider accepted it; it carries the action
      of the row it was bought for. */
  lemma {:induction false} BuyExactly(m: Machine, q: PlanRequest, accepted: bool, hook: Hook)
    ensures var next := Next(m, Event(hook, Buy(q, accepted)));
            var (risk, plan) := StrictPlan(m.risk, q.(recoveryEnabled := true), hook);
            var asked := m.life == Running && m.contract.NoContract? && m.risk.mode != Virtual;
            var opens := asked && plan.Staked? && accepted;
            && next.life == m.life && next.risk == (if asked then risk else m.risk)
            && next.contract == (if opens then Open(RequiredAction(m.risk), plan.isRecovery) else m.contract)
            && (asked && risk.debt >= 1 ==>
                  next.over3 == m.over3 + if opens && m.risk.debt >= 1 && !m.risk.marker then 1 else 0)
  {
    PlannedMode(m.risk, q.(recoveryEnabled := true), hook);
    RecoveryPlanHasDebt(m.risk, q.(recoveryEnabled := true), hook);
    hide StrictPlan, MarkAttempt;
  }

  /** A debt in the planned row was in the row before. */
  lemma PlannedMode(row: Risk, q: PlanRequest, hook: Hook)
    ensures StrictPlan(row, q, hook).0.debt >= 1 ==> row.debt >= 1
  {
    hide SharedRecoveryStake, FullRecoveryStake;
  }

  /** Stop forgets everything, a pause only keeps the account from buying, a start keeps the
      recovery state unless it is reset, and no purchase in sight gives an attempt back. */
  lemma ControlsExactly(m: Machine, hook: Hook)
    ensures var next := Next(m, Event(hook, Stop));
            next.life == Stopped && next.risk == StoppedState() && next.contract == m.contract
    ensures Next(m, Event(hook, Pause)) == m.(life := if m.life == Stopped then Stopped else Paused)
    ensures var next := Next(m, Event(hook, Start(true)));
            next.life == Running && next.risk == StoppedState() && next.contract == m.contract
    ensures var next := Next(m, Event(hook, Start(false)));
            next.life == Running && next.risk == m.risk && next.contract == m.contract
    ensures var next := Next(m, Event(hook, PurchaseAbsent));
            next == m.(risk := if m.contract.Open? || !m.risk.attempt then m.risk
                               else m.risk.(attempt := false, pending := m.risk.debt >= 1))
  {
  }

  /** A settlement closes the contract, whatever became of the account; a recovery that leaves
      a debt is owed a promotion. */
  lemma SettleCloses(m: Machine, profit: int, today: int, hook: Hook)
    requires m.contract.Open?
    ensures var next := Next(m, Event(hook, Settle(profit, today)));
            && next.contract.NoContract? && next.life == m.life
            && (m.life == Stopped ==> next.risk == StoppedState())
            && (next.owed <==> next.risk.debt >= 1 && (m.owed || m.risk.mode == RealRecovery))
            && next.over3 == if next.risk.debt == 0 then 0 else m.over3
  {
    hide StrictRecord;
  }

  // ---------------------------------------------------------------- one-shot recovery

  /** A crash loses the marker of a virtual promotion: a winning observation reaches the
      wins asked for, in an episode that has bought its OVER-3 recovery, while the loss
      count is too low for the guard to force the row back to VIRTUAL. */
  predicate MarkerLost(m: Machine, e: Event) {
    && e.step.Observe? && e.step.win && !e.step.markerWritten && m.life != Stopped
    && m.risk.mode == Virtual && m.risk.wins + 1 >= RequiredWins(e.hook, m.risk.trap)
    && !m.risk.marker && m.over3 >= 1 && m.risk.losses < e.hook.enterAfter
  }

  /** At most one OVER-3 recovery per episode, and none left to buy after it. */
  predicate OneShot(m: Machine, hook: Hook) {
    && m.over3 <= 1
    && (m.owed ==> m.risk.mode == Virtual)
    && (m.risk.debt == 0 ==> m.over3 == 0)
    && (m.risk.mode == RealRecovery && !m.risk.marker && m.contract.NoContract?
        ==> m.over3 == 0 || m.risk.losses >= hook.enterAfter)
  }

  lemma OneShotExactly(m: Machine, e: Event)
    requires Orderly(m) && e.hook.enabled && OneShot(m, e.hook)
    ensures OneShot(Next(m, e), e.hook) <==> !MarkerLost(m, e)
  {
    match e.step
    case Settle(_, _) => hide StrictPlan;
    case _ => hide StrictRecord;
  }

  /** A real purchase is never made while a failed recovery awaits its promotion. */
  lemma PurchaseNotOwed(m: Machine, e: Event)
    requires OneShot(m, e.hook)
    requires m.contract.NoContract? && Next(m, e).contract.Open?
    ensures !m.owed
  {
  }

  predicate AlwaysOneShot(m: Machine, es: seq<Event>, hook: Hook)
    decreases |es|
  {
    OneShot(m, hook) && (|es| == 0 || AlwaysOneShot(Next(m, es[0]), es[1..], hook))
  }

  predicate NoMarkerLost(m: Machine, es: seq<Event>)
    decreases |es|
  {
    |es| == 0 || (!MarkerLost(m, es[0]) && NoMarkerLost(Next(m, es[0]), es[1..]))
  }

  /** Under fixed hook settings each debt episode buys at most one OVER-3 recovery, and
      whatever a recovery leaves unpaid keeps the row VIRTUAL until a promotion,
      exactly on the runs that lose no marker. */
  lemma {:induction false} OneShotRecovery(m: Machine, es: seq<Event>, hook: Hook)
    requires hook.enabled && Orderly(m) && OneShot(m, hook)
    requires forall i :: 0 <= i < |es| ==> es[i].hook == hook
    ensures AlwaysOneShot(m, es, hook) <==> NoMarkerLost(m, es)
    decreases |es|
  {
    if |es| > 0 {
      OrderlyStays(m, es[0]);
      OneShotExactly(m, es[0]);
      if OneShot(Next(m, es[0]), hook) {
        OneShotRecovery(Next(m, es[0]), es[1..], hook);
      }
    }
  }

  /** Every promotion out of VIRTUAL has the wins the trap asks for. */
  lemma PromotionsAreEarned(m: Machine, e: Event)
    requires Orderly(m) && m.risk.mode == Virtual && Next(m, e).risk.mode == RealRecovery
    ensures Next(m, e).risk.wins >= RequiredWins(e.hook, m.risk.trap) == RequiredWins(e.hook, Next(m, e).risk.trap)
  {
  }

  /** The event neither ends the episode nor carries its settlement to a new day. */
  predicate WithinEpisode(m: Machine, e: Event) {
    && m.risk.debt >= 1 && Next(m, e).risk.debt >= 1
    && (e.step.Settle? ==> e.step.today == m.risk.day)
  }

  predicate EpisodeRun(m: Machine, es: seq<Event>)
    decreases |es|
  {
    |es| == 0 || (WithinEpisode(m, es[0]) && EpisodeRun(Next(m, es[0]), es[1..]))
  }

  lemma {:induction false} RequirementGrowsWithTrap(hook: Hook, low: nat, high: nat)
    requires low <= high
    ensures RequiredWins(hook, low) <= RequiredWins(hook, high)
  {
  }

  lemma {:induction false} TrapNeverFalls(m: Machine, e: Event)
    requires Orderly(m) && m.risk.trap <= MAX_TRAP_SCORE && WithinEpisode(m, e)
    ensures m.risk.trap <= Next(m, e).risk.trap <= MAX_TRAP_SCORE
  {
    match e.step
    case Buy(_, _) => hide StrictRecord, SharedRecoveryStake, FullRecoveryStake;
    case _ => hide StrictPlan;
  }

  /** Within an episode the wins asked for never fall. */
  lemma {:induction false} RequirementNeverFalls(m: Machine, es: seq<Event>, hook: Hook)
    requires Orderly(m) && m.risk.trap <= MAX_TRAP_SCORE && EpisodeRun(m, es)
    ensures m.risk.trap <= Run(m, es).risk.trap <= MAX_TRAP_SCORE
    ensures RequiredWins(hook, m.risk.trap) <= RequiredWins(hook, Run(m, es).risk.trap)
    decreases |es|
  {
    if |es| > 0 {
      OrderlyStays(m, es[0]);
      TrapNeverFalls(m, es[0]);
      RequirementNeverFalls(Next(m, es[0]), es[1..], hook);
      RequirementGrowsWithTrap(hook, m.risk.trap, Next(m, es[0]).risk.trap);
    }
    RequirementGrowsWithTrap(hook, m.risk.trap, Run(m, es).risk.trap);
  }

  // ------------------------------------------------------- the conditions are reached

  lemma InitialState(today: int, hook: Hook)
    ensures Consistent(Start0(today)) && Orderly(Start0(today)) && NormalUnmarked(Start0(today)) && OneShot(Start0(today), hook)
  {
  }

  const HOOK := Hook(true, 2, 1)

  function Order(today: int): PlanRequest {
    PlanRequest(100, 100, 1.0, 1000000, 50, 1.0, true, true, false, today)
  }

  function At(step: Step): Event { Event(HOOK, step) }

  /** A normal loss of one dollar, then the OVER-3 recovery bought for it. */
  const FIRST_RECOVERY: seq<Event> := [At(Buy(Order(1), true)), At(Settle(-100, 1)), At(Buy(Order(1), true))]

  lemma FirstRecoveryOpen()
    ensures Run(Start0(1), FIRST_RECOVERY)
         == Machine(Risk(1, -100, 1, 100, true, true, RealRecovery, 0, 0, 0, 0, false, 0, 0),
                    Running, Open(FirstRecoveryOver3, true), 1, false)
  {
    var m1 := Next(Start0(1), FIRST_RECOVERY[0]);
    var m2 := Next(m1, FIRST_RECOVERY[1]);
    var m3 := Next(m2, FIRST_RECOVERY[2]);
    assert m1 == Start0(1).(contract := Open(NormalOver1, false));
    assert m2.contract.NoContract? && m2.risk.debt == 100 && m2.risk.mode == RealRecovery;
    assert m3.contract == Open(FirstRecoveryOver3, true);
    hide Next;
    assert FIRST_RECOVERY[1..][0] == FIRST_RECOVERY[1] && FIRST_RECOVERY[1..][1..][0] == FIRST_RECOVERY[2];
    assert Run(Start0(1), FIRST_RECOVERY) == Run(m1, FIRST_RECOVERY[1..]) == Run(m2, FIRST_RECOVERY[1..][1..])
        == Run(m3, FIRST_RECOVERY[1..][1..][1..]);
  }

  /** Settled at zero the next day, the account waits in VIRTUAL with no debt but the
      pending flag, against the invariant, and the confirmation pass, which looks for a
      debt, skips it. */
  lemma BreakEvenLeavesVirtual()
    ensures var m := Next(Run(Start0(1), FIRST_RECOVERY), At(Settle(0, 2)));
            && m.risk.mode == Virtual && m.risk.debt == 0 && m.risk.pending && !Consistent(m)
            && forall hook, committed :: Reconcile(m.risk, hook, committed) == m.risk
  {
    FirstRecoveryOpen();
  }

  /** Virtual settlement releases such a row like any other: enough wins lead to a marked,
      unpending recovery mode without debt, whatever the account's history. */
  lemma WinningObservationReleases(m: Machine, hook: Hook)
    requires m.life != Stopped && m.risk.mode == Virtual && m.risk.debt == 0
    requires m.risk.wins + 1 >= RequiredWins(hook, m.risk.trap)
    ensures var next := Next(m, Event(hook, Observe(true, true)));
            && next.risk.mode == RealRecovery && next.risk.marker && next.risk.debt == 0
            && !next.risk.pending && RequiredAction(next.risk) == FullRecoveryOver4
  {
  }

  /** What the break-even costs: a virtual confirmation that no debt calls for, then an
      OVER-4 trade at the base stake that recovers nothing; a win with it makes the row
      NORMAL and consistent again. */
  lemma BreakEvenCostsConfirmation(profit: int)
    requires profit >= 1
    ensures var m := Next(Run(Start0(1), FIRST_RECOVERY), At(Settle(0, 2)));
            var refused := Next(m, At(Buy(Order(2), true)));
            var released := Next(m, At(Observe(true, true)));
            var bought := Next(released, At(Buy(Order(2), true)));
            var done := Next(bought, At(Settle(profit, 2)));
            && refused.contract.NoContract? && bought.contract == Open(FullRecoveryOver4, false)
            && StrictPlan(released.risk, Order(2), HOOK).1 == Staked(100, false)
            && done.risk.mode == Normal && !done.risk.marker && Consistent(done)
  {
    FirstRecoveryOpen();
    var m := Next(Run(Start0(1), FIRST_RECOVERY), At(Settle(0, 2)));
    hide Run;
    assert m.risk.mode == Virtual && m.risk.debt == 0 && m.risk.wins == 0 && m.risk.trap == 0 && m.risk.day == 2;
    WinningObservationReleases(m, HOOK);
    var released := Next(m, At(Observe(true, true)));
    assert released.risk.day == 2 && !released.risk.attempt;
    var bought := Next(released, At(Buy(Order(2), true)));
    assert bought.contract == Open(FullRecoveryOver4, false) && bought.risk == released.risk;
  }

  /** With a marker kept across the planner's new day, the next first loss is
      recovered at OVER-4 with no virtual confirmation before it. */
  lemma KeptMarkerSkipsConfirmation(m: Machine, loss: int)
    requires PlannerKeepsMarker(m, At(Buy(Order(2), true))) && loss >= 1
    ensures var bought := Next(m, At(Buy(Order(2), true)));
            && bought.risk.mode == Normal && bought.risk.marker && bought.contract.Open?
            && RequiredAction(Next(bought, At(Settle(-loss, 2))).risk) == FullRecoveryOver4
  {
  }

  /** A first loss, a lost OVER-3 recovery and one virtual win: the OVER-4 recovery is
      armed when the day ends. */
  const ARMED: seq<Event> := FIRST_RECOVERY + [At(Settle(-106, 1)), At(Observe(true, true))]

  lemma {:induction false} RunConcat(m: Machine, es: seq<Event>, more: seq<Event>)
    ensures Run(m, es + more) == Run(Run(m, es), more)
    decreases |es|
  {
    if |es| == 0 {
      assert es + more == more;
    } else {
      assert (es + more)[0] == es[0] && (es + more)[1..] == es[1..] + more;
      RunConcat(Next(m, es[0]), es[1..], more);
    }
  }

  lemma {:induction false} RunTwo(m: Machine, a: Event, b: Event)
    ensures Run(m, [a, b]) == Next(Next(m, a), b)
  {
    assert [a, b][1..] == [b] && [b][1..] == [];
    assert Run(Next(Next(m, a), b), []) == Next(Next(m, a), b);
    assert Run(Next(m, a), [b]) == Next(Next(m, a), b);
  }

  /** The kept marker is reached from the start state, and costs the next day's first
      loss its confirmation. */
  lemma {:induction false} KeptMarkerIsReached(loss: int)
    requires loss >= 1
    ensures var m := Run(Start0(1), ARMED);
            var bought := Next(m, At(Buy(Order(2), true)));
            && PlannerKeepsMarker(m, At(Buy(Order(2), true)))
            && bought.risk.mode == Normal && bought.risk.marker
            && RequiredAction(Next(bought, At(Settle(-loss, 2))).risk) == FullRecoveryOver4
  {
    FirstRecoveryOpen();
    RunConcat(Start0(1), FIRST_RECOVERY, [At(Settle(-106, 1)), At(Observe(true, true))]);
    var open := Run(Start0(1), FIRST_RECOVERY);
    RunTwo(open, At(Settle(-106, 1)), At(Observe(true, true)));
    hide Run;
    var lost := Next(open, At(Settle(-106, 1)));
    assert lost.risk.mode == Virtual && lost.risk.debt == 206;
    var m := Next(lost, At(Observe(true, true)));
    assert m.risk.mode == RealRecovery && m.risk.marker && m.risk.day == 1;
    KeptMarkerSkipsConfirmation(m, loss);
  }

  /** A recovery win that leaves ten cents, a virtual win, and a crash before the
      marker: the same episode buys a second OVER-3 recovery. */
  lemma LostMarkerRepeatsOver3()
    ensures var m := Run(Start0(1), FIRST_RECOVERY);
            var left := Next(m, At(Settle(90, 1)));
            var promoted := Next(left, At(Observe(true, false)));
            && MarkerLost(left, At(Observe(true, false)))
            && Next(promoted, At(Buy(Order(1), true))).over3 == 2
  {
    FirstRecoveryOpen();
  }
}
