/** Split-by-wins recovery of enhanced_bot.py: `_recovery_stake_for_debt`,
    `_planned_stake_for_account` and `_update_client_recovery_state`.  Money is whole
    cents, payout ratios are reals. */
module SplitRecovery {

  const GUARD := 0.000000001
  const LARGEST_RATIO := 1000000000.0

  datatype Config = Config(base: nat, cap: nat, runs: nat)

  predicate ValidConfig(c: Config) { c.runs >= 1 && 1 <= c.base <= c.cap }

  datatype Client = Client(
    debt: int, winsRemaining: int, pending: bool, stake: int, lossStreak: nat, lastRatio: real)

  function MaxReal(a: real, b: real): real { if a >= b then a else b }

  function Max(a: int, b: int): int { if a >= b then a else b }

  function Min(a: int, b: int): int { if a <= b then a else b }

  function Ceil(x: real): (n: int)
    ensures x <= n as real < x + 1.0
  {
    if x == x.Floor as real then x.Floor else x.Floor + 1
  }

  /** `_round_stake_up`, in cents. */
  function RoundStakeUp(value: real, base: nat): int {
    Ceil(MaxReal(base as real, value) - GUARD)
  }

  /** A stored count of 0 wins reads as the configured number. */
  function Wins(winsRemaining: int, runs: nat): int {
    Max(1, if winsRemaining == 0 then runs else winsRemaining)
  }

  /** The stake before the cap. */
  function UncappedStake(c: Config, debt: int, ratio: real, winsRemaining: int): int {
    if debt <= 0 || ratio <= GUARD then c.base
    else RoundStakeUp(debt as real / Wins(winsRemaining, c.runs) as real / ratio, c.base)
  }

  /** `_recovery_stake_for_debt`: the cap applies to recovery stakes only. */
  function StakeForDebt(c: Config, debt: int, ratio: real, winsRemaining: int): int {
    if debt <= 0 || ratio <= GUARD then c.base
    else Min(c.cap, UncappedStake(c, debt, ratio, winsRemaining))
  }

  /** `_planned_stake_for_account`. */
  function PlannedStake(c: Config, s: Client, ratio: real): int {
    if !s.pending && s.debt <= 0 then c.base
    else StakeForDebt(c, Max(0, s.debt), ratio, s.winsRemaining)
  }

  datatype Settlement = Settlement(won: bool, profit: int)

  function LossAmount(s: Client, e: Settlement): int {
    if e.profit < 0 then -e.profit else s.stake
  }

  /** `_update_client_recovery_state`. */
  function Update(c: Config, s: Client, e: Settlement): Client {
    var prior := Max(0, s.debt);
    if e.won then
      var cleared := s.(debt := 0, winsRemaining := c.runs, pending := false, stake := c.base, lossStreak := 0);
      var left := Max(0, prior - Max(0, e.profit));
      if prior == 0 || left <= 1 then cleared
      else
        var wins := Max(1, Max(0, s.winsRemaining - 1));
        s.(debt := left, winsRemaining := wins, pending := true, lossStreak := 0,
           stake := StakeForDebt(c, left, s.lastRatio, wins))
    else
      var debt := prior + LossAmount(s, e);
      s.(debt := debt, winsRemaining := c.runs, pending := true, lossStreak := s.lossStreak + 1,
         stake := StakeForDebt(c, debt, s.lastRatio, c.runs))
  }

  // ------------------------------------------------------------------------ the stake

  lemma {:induction false} QuotientTimes(a: real, r: real)
    requires r > 0.0
    ensures a / r * r == a
  {
  }

  lemma {:induction false} TimesKeepsOrder(a: real, b: real, r: real)
    requires a <= b && r >= 0.0
    ensures a * r <= b * r
  {
  }

  /** Any win at the uncapped stake pays the debt's share but for the rounding guard. */
  lemma {:induction false} StakePaysShare(c: Config, debt: int, ratio: real, winsRemaining: int)
    requires debt > 0 && ratio > GUARD
    ensures UncappedStake(c, debt, ratio, winsRemaining) as real * ratio
            >= debt as real / Wins(winsRemaining, c.runs) as real - GUARD * ratio
  {
    var share := debt as real / Wins(winsRemaining, c.runs) as real;
    var stake := UncappedStake(c, debt, ratio, winsRemaining);
    assert stake as real >= share / ratio - GUARD;
    TimesKeepsOrder(share / ratio - GUARD, stake as real, ratio);
    QuotientTimes(share, ratio);
    assert (share / ratio - GUARD) * ratio == share / ratio * ratio - GUARD * ratio;
  }

  lemma {:induction false} TimesKeepsStrict(a: real, b: real, r: real)
    requires a < b && r > 0.0
    ensures a * r < b * r
  {
    assert (b - a) * r > 0.0;
  }

  /** The stake is the base stake, or one cent less would not pay the share of a win; a
      stored count of 0 wins shares the debt among the configured number. */
  lemma {:induction false} StakeIsLeast(c: Config, debt: int, ratio: real, winsRemaining: nat)
    requires debt > 0 && ratio > GUARD && ValidConfig(c)
    ensures var share := debt as real / (if winsRemaining == 0 then c.runs else winsRemaining) as real;
            var stake := UncappedStake(c, debt, ratio, winsRemaining);
            && stake as real * ratio >= share - GUARD * ratio
            && stake >= c.base && (stake == c.base || (stake - 1) as real * ratio < share - GUARD * ratio)
    ensures StakeForDebt(c, debt, ratio, winsRemaining) == Min(c.cap, UncappedStake(c, debt, ratio, winsRemaining))
  {
    StakePaysShare(c, debt, ratio, winsRemaining);
    var share := debt as real / Wins(winsRemaining, c.runs) as real;
    var stake := UncappedStake(c, debt, ratio, winsRemaining);
    var needed := MaxReal(c.base as real, share / ratio) - GUARD;
    assert stake == Ceil(needed) && (stake - 1) as real < needed;
    if stake > c.base {
      assert share / ratio > c.base as real;
      TimesKeepsStrict((stake - 1) as real, share / ratio - GUARD, ratio);
      QuotientTimes(share, ratio);
      assert (share / ratio - GUARD) * ratio == share / ratio * ratio - GUARD * ratio;
    }
  }

  // ----------------------------------------------------------------- a run of wins

  /** One win: the payout ratio its stake was planned with, and its profit. */
  datatype PlannedWin = PlannedWin(ratio: real, profit: int)

  /** The cap does not bind and the profit is at least the whole cents of stake times
      ratio. */
  predicate Honest(c: Config, s: Client, w: PlannedWin) {
    && GUARD < w.ratio <= LARGEST_RATIO
    && (s.debt > 0 ==> UncappedStake(c, s.debt, w.ratio, s.winsRemaining) <= c.cap)
    && w.profit >= (PlannedStake(c, s, w.ratio) as real * w.ratio).Floor
  }

  /** A recovery client as the updates leave it. */
  predicate ValidClient(c: Config, s: Client) {
    && s.debt >= 0 && s.stake >= 0 && 1 <= s.winsRemaining <= c.runs
    && (!s.pending ==> s.debt == 0 && s.stake == c.base && s.winsRemaining == c.runs)
  }

  lemma {:induction false} UpdateKeepsValid(c: Config, s: Client, e: Settlement)
    requires ValidConfig(c) && ValidClient(c, s)
    ensures ValidClient(c, Update(c, s, e))
  {
    StakeIsPositive(c, Update(c, s, e).debt, s.lastRatio, Update(c, s, e).winsRemaining);
  }

  lemma {:induction false} StakeIsPositive(c: Config, debt: int, ratio: real, winsRemaining: int)
    requires ValidConfig(c)
    ensures c.base <= StakeForDebt(c, debt, ratio, winsRemaining) <= c.cap
  {
    if debt > 0 && ratio > GUARD {
      var value := debt as real / Wins(winsRemaining, c.runs) as real / ratio;
      assert UncappedStake(c, debt, ratio, winsRemaining) as real >= c.base as real - GUARD;
    }
  }

  /** A planned win pays the debt's share but for two cents of rounding. */
  lemma {:induction false} WinPaysShare(c: Config, s: Client, w: PlannedWin)
    requires ValidConfig(c) && ValidClient(c, s) && s.debt > 0 && Honest(c, s, w)
    ensures w.profit as real > s.debt as real / s.winsRemaining as real - 2.0
  {
    StakePaysShare(c, s.debt, w.ratio, s.winsRemaining);
    TimesKeepsOrder(w.ratio, LARGEST_RATIO, GUARD);
    var payout := PlannedStake(c, s, w.ratio) as real * w.ratio;
    assert PlannedStake(c, s, w.ratio) == UncappedStake(c, s.debt, w.ratio, s.winsRemaining);
    assert payout.Floor as real > payout - 1.0;
  }

  /** With one win left the planned win clears the debt: at most one cent is missing. */
  lemma {:induction false} LastWinClears(c: Config, s: Client, w: PlannedWin)
    requires ValidConfig(c) && ValidClient(c, s) && s.winsRemaining == 1 && Honest(c, s, w)
    ensures var t := Update(c, s, Settlement(true, w.profit));
            t.debt == 0 && t.stake == c.base && !t.pending && t.winsRemaining == c.runs
  {
    if s.debt > 0 {
      WinPaysShare(c, s, w);
      assert s.debt as real / 1.0 == s.debt as real;
      assert w.profit as real > (s.debt - 2) as real;
    }
  }

  function AfterWins(c: Config, s: Client, ws: seq<PlannedWin>): Client
    decreases |ws|
  {
    if |ws| == 0 then s else AfterWins(c, Update(c, s, Settlement(true, ws[0].profit)), ws[1..])
  }

  predicate HonestRun(c: Config, s: Client, ws: seq<PlannedWin>)
    decreases |ws|
  {
    |ws| == 0 || (Honest(c, s, ws[0]) && HonestRun(c, Update(c, s, Settlement(true, ws[0].profit)), ws[1..]))
  }

  predicate Recovered(c: Config, s: Client) {
    s.debt == 0 && s.stake == c.base && !s.pending && s.winsRemaining == c.runs
  }

  lemma {:induction false} StaysRecovered(c: Config, s: Client, ws: seq<PlannedWin>)
    requires Recovered(c, s)
    ensures Recovered(c, AfterWins(c, s, ws))
    decreases |ws|
  {
    if |ws| > 0 {
      StaysRecovered(c, Update(c, s, Settlement(true, ws[0].profit)), ws[1..]);
    }
  }

  /** From any debt, as many planned wins as remain bring it to 0 and the stake to the
      base stake. */
  lemma {:induction false} WinsRemainingClear(c: Config, s: Client, ws: seq<PlannedWin>)
    requires ValidConfig(c) && ValidClient(c, s) && HonestRun(c, s, ws)
    requires |ws| >= s.winsRemaining
    ensures Recovered(c, AfterWins(c, s, ws))
    decreases |ws|
  {
    var t := Update(c, s, Settlement(true, ws[0].profit));
    UpdateKeepsValid(c, s, Settlement(true, ws[0].profit));
    if s.winsRemaining == 1 {
      LastWinClears(c, s, ws[0]);
    }
    if Recovered(c, t) {
      StaysRecovered(c, t, ws[1..]);
    } else {
      WinsRemainingClear(c, t, ws[1..]);
    }
  }

  // ------------------------------------------------- what the fields say about the run

  /** Losses after the last win, with `before` counted in if nothing was won. */
  function LossesSinceWin(before: nat, es: seq<Settlement>): nat {
    if |es| == 0 then before
    else if es[|es| - 1].won then 0
    else LossesSinceWin(before, es[..|es| - 1]) + 1
  }

  /** Wins after the last loss. */
  function WinsSinceLoss(es: seq<Settlement>): nat {
    if |es| == 0 || !es[|es| - 1].won then 0 else WinsSinceLoss(es[..|es| - 1]) + 1
  }

  /** The stake to plan with no debt, with no usable ratio, and otherwise: the least that pays
      the share, up to the cap. */
  lemma PlannedStakeExactly(c: Config, s: Client, ratio: real)
    requires ValidConfig(c) && ValidClient(c, s)
    ensures PlannedStake(c, s, ratio)
         == if s.debt == 0 || ratio <= GUARD then c.base
            else Min(c.cap, UncappedStake(c, s.debt, ratio, s.winsRemaining))
  {
  }

  /** An update leaves the stake that would be planned for the client it leaves, at the last
      ratio, and a client that is pending exactly while it owes something. */
  lemma {:induction false} UpdateKeepsPlan(c: Config, s: Client, e: Settlement)
    requires ValidConfig(c) && ValidClient(c, s) && s.stake >= 1
    ensures var t := Update(c, s, e);
            && t.stake == PlannedStake(c, t, s.lastRatio) && t.stake >= 1 && t.lastRatio == s.lastRatio
            && (t.pending <==> t.debt > 0)
  {
    UpdateKeepsValid(c, s, e);
    StakeIsPositive(c, Update(c, s, e).debt, s.lastRatio, Update(c, s, e).winsRemaining);
    hide UncappedStake;
  }

  /** After any run from a client without debt the loss streak counts the losses since the last
      win, and the wins still to come are the configured number less the wins since the last
      loss, but at least one, until the debt is cleared. */
  lemma {:induction false} FieldsFollowRun(c: Config, s: Client, es: seq<Settlement>)
    requires ValidConfig(c) && ValidClient(c, s) && s.stake >= 1 && !s.pending
    ensures var t := Run(c, s, es);
            && ValidClient(c, t) && t.stake >= 1
            && t.lossStreak == LossesSinceWin(s.lossStreak, es)
            && t.winsRemaining == (if t.debt == 0 then c.runs else Max(1, c.runs - WinsSinceLoss(es)))
            && (es != [] ==> (t.pending <==> t.debt > 0))
  {
    if |es| > 0 {
      var pre, last := es[..|es| - 1], es[|es| - 1];
      FieldsFollowRun(c, s, pre);
      UpdateKeepsValid(c, Run(c, s, pre), last);
      UpdateKeepsPlan(c, Run(c, s, pre), last);
      hide StakeForDebt, PlannedStake;
    }
  }

  // ---------------------------------------------------------------------- conservation

  function Run(c: Config, s: Client, es: seq<Settlement>): Client {
    if |es| == 0 then s else Update(c, Run(c, s, es[..|es| - 1]), es[|es| - 1])
  }

  function Profit(es: seq<Settlement>): int {
    if |es| == 0 then 0 else Profit(es[..|es| - 1]) + es[|es| - 1].profit
  }

  /** Losing episodes brought to debt 0 along the run. */
  function Completed(c: Config, s: Client, es: seq<Settlement>): nat {
    if |es| == 0 then 0
    else
      var before := Run(c, s, es[..|es| - 1]);
      Completed(c, s, es[..|es| - 1])
      + if before.debt > 0 && Update(c, before, es[|es| - 1]).debt == 0 then 1 else 0
  }

  predicate WinsPay(es: seq<Settlement>) { forall e :: e in es && e.won ==> e.profit >= 0 }

  /** Profit plus debt: one settlement lowers it only by completing an episode, and
      then by at most a cent. */
  lemma {:induction false} StepForgivesACent(c: Config, s: Client, e: Settlement)
    requires ValidConfig(c) && ValidClient(c, s) && (e.won ==> e.profit >= 0)
    ensures var t := Update(c, s, e);
            e.profit + t.debt >= s.debt - if s.debt > 0 && t.debt == 0 then 1 else 0
    ensures var t := Update(c, s, e);
            !(e.won && s.debt <= e.profit + 1) && !(!e.won && e.profit >= 0) ==> e.profit + t.debt == s.debt
    ensures !e.won && e.profit >= 0 ==> Update(c, s, e).debt == s.debt + s.stake
  {
  }

  /** Over every run the account is short of its start by at most one cent for each
      completed episode. */
  lemma {:induction false} EpisodesForgiveACentEach(c: Config, s: Client, es: seq<Settlement>)
    requires ValidConfig(c) && ValidClient(c, s) && WinsPay(es)
    ensures ValidClient(c, Run(c, s, es))
    ensures Profit(es) + Run(c, s, es).debt >= s.debt - Completed(c, s, es)
  {
    if |es| > 0 {
      var pre, last := es[..|es| - 1], es[|es| - 1];
      assert last in es;
      EpisodesForgiveACentEach(c, s, pre);
      UpdateKeepsValid(c, Run(c, s, pre), last);
      StepForgivesACent(c, Run(c, s, pre), last);
      hide Update, ValidClient;
    }
  }

  /** The one-cent tolerance is needed: a quotient a hair above a whole cent is rounded
      down by the guard, the honest win pays one cent less than the debt, and the
      episode still closes. */
  lemma {:induction false} GuardCostsACent(ratio: real)
    requires ratio == 2.0 / 1.0000000005
    ensures var c, s, w := Config(1, 100, 1), Client(2, 1, true, 1, 1, ratio), PlannedWin(ratio, 1);
            ValidConfig(c) && ValidClient(c, s) && Honest(c, s, w)
            && s.debt - w.profit == 1 && Update(c, s, Settlement(true, w.profit)).debt == 0
  {
    QuotientTimes(2.0, 1.0000000005);
    assert 1.9 < ratio < 2.0;
    QuotientTimes(2.0, ratio);
    assert 2.0 / ratio == 1.0000000005;
    assert 2 as real / 1 as real / ratio == 1.0000000005;
    assert UncappedStake(Config(1, 100, 1), 2, ratio, 1) == 1;
  }

  // ------------------------------------------------------------------------ in place

  class ClientRecovery {
    var debt: int
    var winsRemaining: int
    var pending: bool
    var stake: int
    var lossStreak: nat
    var lastRatio: real

    ghost function Value(): Client
      reads this
    {
      Client(debt, winsRemaining, pending, stake, lossStreak, lastRatio)
    }

    method UpdateClientRecoveryState(c: Config, won: bool, profit: int)
      modifies this
      ensures Value() == Update(c, old(Value()), Settlement(won, profit))
    {
      var prior := Max(0, debt);
      if won {
        lossStreak := 0;
        if prior == 0 {
          debt, winsRemaining, pending, stake := 0, c.runs, false, c.base;
          return;
        }
        var recovered := Max(0, profit);
        var remaining := Max(0, prior - recovered);
        var wins := Max(0, winsRemaining - 1);
        if remaining <= 1 {
          debt, winsRemaining, pending, stake := 0, c.runs, false, c.base;
          return;
        }
        debt := remaining;
        winsRemaining := Max(1, wins);
        pending := true;
        stake := StakeForDebt(c, remaining, lastRatio, winsRemaining);
        return;
      }
      lossStreak := lossStreak + 1;
      var amount := if profit < 0 then -profit else stake;
      debt := prior + amount;
      winsRemaining := c.runs;
      pending := true;
      stake := StakeForDebt(c, debt, lastRatio, winsRemaining);
    }
  }
}
