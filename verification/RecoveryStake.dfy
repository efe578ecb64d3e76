/** Recovery stake sizing: app/recovery.py and the pure part of
    app/ai_digit_recovery_v1.py.

    Money is integer cents and payout ratios are exact reals.  The sources'
    1e-9 guard inside `ceil_cents` only cancels binary floating-point noise, so
    here it is the exact ceiling. */
module RecoveryStake {

  const MINIMUM_STAKE := 35
  const MINIMUM_RATIO: real := 0.0001

  function Max(a: int, b: int): (r: int)
    ensures r >= a && r >= b && (r == a || r == b)
  {
    if a >= b then a else b
  }

  function Min(a: int, b: int): (r: int)
    ensures r <= a && r <= b && (r == a || r == b)
  {
    if a <= b then a else b
  }

  /** `ceil_cents`: the least whole, non-negative number of cents covering `v`. */
  function CeilCents(v: real): (c: int)
    ensures c >= 0 && c as real >= v
    ensures c > 0 ==> (c - 1) as real < v
  {
    if v <= 0.0 then 0
    else if v.Floor as real == v then v.Floor else v.Floor + 1
  }

  /** The profit target of one recovery contract: the debt plus the larger of
      five cents and six percent of the debt (RECOVERY_PROFIT_BUFFER is one cent
      and so never binds). */
  function TargetProfit(debt: int): int
    requires debt >= 0
  {
    var sixPercent := debt as real * 0.06;
    CeilCents(debt as real + (if sixPercent > 5.0 then sixPercent else 5.0))
  }

  /** `calculate_full_recovery_stake`. */
  function FullRecoveryStake(base: int, debt: int, ratio: real): int {
    var floor := Max(MINIMUM_STAKE, base);
    var r := if ratio > MINIMUM_RATIO then ratio else MINIMUM_RATIO;
    Max(floor, CeilCents(TargetProfit(Max(0, debt)) as real / r))
  }

  /** `remaining_recovery_debt`. */
  function RemainingDebt(debt: int, profit: int): int {
    Max(0, Max(0, debt) - Max(0, profit))
  }

  /** Whole cents the provider pays for a win at stake `stake` and ratio `ratio`. */
  function WinProfit(stake: int, ratio: real): int {
    (stake as real * ratio).Floor
  }

  // ---------------------------------------------------------------- sufficiency

  lemma {:induction false} ScaleMonotone(a: real, b: real, r: real)
    requires a >= b && r >= 0.0
    ensures a * r >= b * r
  {
    assert (a - b) * r >= 0.0;
  }

  lemma {:induction false} ScaleStrict(a: real, b: real, r: real)
    requires a > b && r > 0.0
    ensures a * r > b * r
  {
    assert (a - b) * r > 0.0;
  }

  lemma {:induction false} QuotientBack(goal: real, ratio: real) returns (q: real)
    requires ratio > 0.0
    ensures q == goal / ratio && q * ratio == goal
  {
    q := goal / ratio;
  }

  /** The ideal payout of the stake reaches the goal. */
  predicate Pays(stake: int, ratio: real, goal: real) { stake as real * ratio >= goal }

  lemma {:induction false} PaysFrom(stake: int, q: real, ratio: real, goal: real)
    requires ratio > 0.0 && q * ratio == goal
    ensures Pays(stake, ratio, goal) <==> stake as real >= q
  {
    if stake as real >= q {
      ScaleMonotone(stake as real, q, ratio);
    } else {
      ScaleStrict(q, stake as real, ratio);
    }
  }

  /** The ceiling of goal / ratio is the least stake that pays. */
  lemma {:induction false} CeilPays(goal: real, ratio: real, stake: int)
    requires ratio > 0.0
    ensures stake >= 0 ==> (Pays(stake, ratio, goal) <==> stake >= CeilCents(goal / ratio))
  {
    var q := QuotientBack(goal, ratio);
    PaysFrom(stake, q, ratio, goal);
    hide Pays;
  }

  lemma {:induction false} DivideMonotone(a: real, b: real, r: real)
    requires a >= b && r > 0.0
    ensures a / r >= b / r
  {
    var x, y := a / r, b / r;
    assert x * r == a && y * r == b;
    assert (x - y) * r >= 0.0;
  }

  lemma {:induction false} TargetBounds(debt: int)
    requires debt >= 0
    ensures TargetProfit(debt) as real >= debt as real * 1.06
    ensures TargetProfit(debt) as real <= debt as real * 1.06 + 6.0
  {
  }

  /** The target is the least whole number of cents that is five cents and six percent
      above the debt. */
  lemma {:induction false} TargetIsLeast(debt: int)
    requires debt >= 0
    ensures var target := TargetProfit(debt);
            && target >= debt + 5 && target as real >= debt as real * 1.06
            && (target - 1 < debt + 5 || (target - 1) as real < debt as real * 1.06)
  {
  }

  /** The planned stake as the ceiling of target / ratio, or the base stake. */
  lemma {:induction false} StakeBounds(base: int, debt: int, ratio: real)
    requires debt >= 0 && ratio > MINIMUM_RATIO
    ensures var needed := TargetProfit(debt) as real / ratio;
            && FullRecoveryStake(base, debt, ratio) as real >= needed
            && needed >= 0.0
            && FullRecoveryStake(base, debt, ratio) as real
               <= Max(MINIMUM_STAKE, base) as real + needed + 1.0
  {
    TargetBounds(debt);
    DivideMonotone(TargetProfit(debt) as real, 0.0, ratio);
    var needed := TargetProfit(debt) as real / ratio;
    var c := CeilCents(needed);
    assert FullRecoveryStake(base, debt, ratio) == Max(Max(MINIMUM_STAKE, base), c);
  }

  /** The planned stake is the least one, not below 35 cents and the base stake, whose
      ideal payout reaches the target; a tiny ratio counts as 0.0001. */
  lemma {:induction false} StakeIsLeast(base: int, debt: int, ratio: real)
    requires debt >= 0
    ensures var stake, target := FullRecoveryStake(base, debt, ratio), TargetProfit(debt) as real;
            var r := if ratio > MINIMUM_RATIO then ratio else MINIMUM_RATIO;
            && stake >= MINIMUM_STAKE && stake >= base && Pays(stake, r, target)
            && (stake == MINIMUM_STAKE || stake == base || !Pays(stake - 1, r, target))
  {
    var stake, target := FullRecoveryStake(base, debt, ratio), TargetProfit(debt) as real;
    var r := if ratio > MINIMUM_RATIO then ratio else MINIMUM_RATIO;
    CeilPays(target, r, stake);
    CeilPays(target, r, stake - 1);
    hide TargetProfit, Pays, CeilCents;
  }

  lemma {:induction false} PayoutRepays(stake: int, target: real, debt: int, ratio: real, realised: real)
    requires ratio > 0.0 && stake >= 0 && stake as real >= target / ratio && realised * 1.06 >= ratio
    requires target >= debt as real * 1.06
    ensures WinProfit(stake, realised) >= debt
  {
    var paid := stake as real * realised;
    ScaleMonotone(realised * 1.06, ratio, stake as real);
    ScaleMonotone(stake as real, target / ratio, ratio);
    assert (target / ratio) * ratio == target;
    assert realised * 1.06 * stake as real == paid * 1.06;
    assert paid >= debt as real;
  }

  /** A win at the planned stake repays the whole debt even when the realised
      payout ratio has slipped to ratio / 1.06. */
  lemma {:induction false} StakeSuffices(base: int, debt: int, ratio: real, realised: real)
    requires debt >= 0 && ratio > MINIMUM_RATIO
    requires realised * 1.06 >= ratio
    ensures RemainingDebt(debt, WinProfit(FullRecoveryStake(base, debt, ratio), realised)) == 0
  {
    StakeBounds(base, debt, ratio);
    TargetBounds(debt);
    PayoutRepays(FullRecoveryStake(base, debt, ratio), TargetProfit(debt) as real, debt, ratio, realised);
  }

  // --------------------------------------------------------------------- growth

  /** The debt after `k` straight recovery losses: each loss adds the stake. */
  function DebtAfterLosses(base: int, debt: int, ratio: real, k: nat): int
    requires debt >= 0
    ensures DebtAfterLosses(base, debt, ratio, k) >= debt
  {
    if k == 0 then debt
    else
      var before := DebtAfterLosses(base, debt, ratio, k - 1);
      before + FullRecoveryStake(base, before, ratio)
  }

  function Power(g: real, k: nat): real {
    if k == 0 then 1.0 else g * Power(g, k - 1)
  }

  /** 1 + g + ... + g^(k-1) */
  function Geometric(g: real, k: nat): real {
    if k == 0 then 0.0 else 1.0 + g * Geometric(g, k - 1)
  }

  function GrowthFactor(ratio: real): real
    requires ratio > 0.0
  {
    1.0 + 1.06 / ratio
  }

  /** Base stake, the six cents a target can exceed 106% by, and one rounding. */
  function GrowthConstant(base: int, ratio: real): real
    requires ratio > 0.0
  {
    Max(MINIMUM_STAKE, base) as real + 6.0 / ratio + 1.0
  }

  lemma {:induction false} GeometricClosedForm(g: real, k: nat)
    ensures (g - 1.0) * Geometric(g, k) == Power(g, k) - 1.0
  {
    if k > 0 {
      GeometricClosedForm(g, k - 1);
      calc {
        (g - 1.0) * Geometric(g, k);
        (g - 1.0) + g * ((g - 1.0) * Geometric(g, k - 1));
        (g - 1.0) + g * (Power(g, k - 1) - 1.0);
      }
    }
  }

  lemma {:induction false} GrowthTimes(d: real, ratio: real)
    requires ratio > 0.0
    ensures GrowthFactor(ratio) * d == d + (d * 1.06) / ratio
    ensures GrowthFactor(ratio) > 1.0
  {
    var q := 1.06 / ratio;
    assert q * ratio == 1.06;
    DivideMonotone(1.06, 0.0, ratio);
    assert q != 0.0;
    assert (q * d) * ratio == 1.06 * d;
    assert ((d * 1.06) / ratio) * ratio == d * 1.06;
    assert q * d == (d * 1.06) / ratio;
  }

  lemma {:induction false} LossArithmetic(d: real, target: real, stake: real, top: real, ratio: real)
    requires ratio > 0.0
    requires d * 1.06 <= target <= d * 1.06 + 6.0
    requires target / ratio <= stake <= top + target / ratio + 1.0
    ensures GrowthFactor(ratio) * d <= d + stake <= GrowthFactor(ratio) * d + (top + 6.0 / ratio + 1.0)
  {
    GrowthTimes(d, ratio);
    DivideMonotone(target, d * 1.06, ratio);
    DivideMonotone(d * 1.06 + 6.0, target, ratio);
    assert (d * 1.06 + 6.0) / ratio == (d * 1.06) / ratio + 6.0 / ratio;
  }

  /** One recovery loss multiplies the debt by g, up to the constant. */
  lemma {:induction false} OneLoss(base: int, debt: int, ratio: real)
    requires debt >= 0 && ratio > MINIMUM_RATIO
    ensures var next := debt + FullRecoveryStake(base, debt, ratio);
            && GrowthFactor(ratio) * debt as real <= next as real
            && next as real <= GrowthFactor(ratio) * debt as real + GrowthConstant(base, ratio)
  {
    hide TargetProfit, FullRecoveryStake, GrowthFactor;
    TargetBounds(debt);
    StakeBounds(base, debt, ratio);
    LossArithmetic(debt as real, TargetProfit(debt) as real, FullRecoveryStake(base, debt, ratio) as real,
                   Max(MINIMUM_STAKE, base) as real, ratio);
  }

  lemma {:induction false} NoLossYet(g: real, c: real, d0: real)
    ensures Power(g, 0) * d0 == d0 && c * Geometric(g, 0) == 0.0
  {
  }

  /** One more loss carries the two bounds on the debt from k - 1 to k. */
  lemma {:induction false} GrowthStep(g: real, c: real, k: nat, d0: real, d: real, next: real)
    requires g >= 0.0 && k > 0
    requires Power(g, k - 1) * d0 <= d <= Power(g, k - 1) * d0 + c * Geometric(g, k - 1)
    requires g * d <= next <= g * d + c
    ensures Power(g, k) * d0 <= next <= Power(g, k) * d0 + c * Geometric(g, k)
  {
    var p, s := Power(g, k - 1), Geometric(g, k - 1);
    ScaleMonotone(d, p * d0, g);
    ScaleMonotone(p * d0 + c * s, d, g);
    assert (p * d0) * g == (g * p) * d0;
    assert (p * d0 + c * s) * g + c == (g * p) * d0 + c * (1.0 + g * s);
  }

  /** After k straight recovery losses at a constant ratio the debt lies between
      g^k * D0 and g^k * D0 + c * (1 + g + ... + g^(k-1)). */
  lemma {:induction false} GeometricGrowth(base: int, debt: int, ratio: real, k: nat)
    requires debt >= 0 && ratio > MINIMUM_RATIO
    ensures var g := GrowthFactor(ratio);
            && Power(g, k) * debt as real <= DebtAfterLosses(base, debt, ratio, k) as real
            && DebtAfterLosses(base, debt, ratio, k) as real
               <= Power(g, k) * debt as real + GrowthConstant(base, ratio) * Geometric(g, k)
  {
    hide TargetProfit, FullRecoveryStake, GrowthFactor, GrowthConstant, Power, Geometric;
    if k == 0 {
      NoLossYet(GrowthFactor(ratio), GrowthConstant(base, ratio), debt as real);
    } else {
      GeometricGrowth(base, debt, ratio, k - 1);
      var before := DebtAfterLosses(base, debt, ratio, k - 1);
      OneLoss(base, before, ratio);
      GrowthTimes(0.0, ratio);
      GrowthStep(GrowthFactor(ratio), GrowthConstant(base, ratio), k, debt as real, before as real,
                 DebtAfterLosses(base, debt, ratio, k) as real);
    }
  }

  lemma {:induction false} DivideOut(a: real, x: real, b: real)
    requires a > 0.0 && a * x == b
    ensures x == b / a
  {
    assert (b / a) * a == b;
    assert (x - b / a) * a == 0.0;
  }

  /** The upper bound in closed form, with c * (g^k - 1) / (g - 1). */
  lemma {:induction false} GrowthUpperBoundClosedForm(base: int, debt: int, ratio: real, k: nat)
    requires debt >= 0 && ratio > MINIMUM_RATIO
    ensures GrowthFactor(ratio) - 1.0 > 0.0
    ensures DebtAfterLosses(base, debt, ratio, k) as real
            <= Power(GrowthFactor(ratio), k) * debt as real
               + GrowthConstant(base, ratio)
                 * ((Power(GrowthFactor(ratio), k) - 1.0) / (GrowthFactor(ratio) - 1.0))
  {
    hide TargetProfit, FullRecoveryStake, GrowthFactor, GrowthConstant, Power, Geometric, DebtAfterLosses;
    var g := GrowthFactor(ratio);
    GeometricGrowth(base, debt, ratio, k);
    GrowthTimes(0.0, ratio);
    GeometricClosedForm(g, k);
    DivideOut(g - 1.0, Geometric(g, k), Power(g, k) - 1.0);
  }

  // ----------------------------------------------- the shared recovery calculator

  datatype StakeQuote = StakeQuote(stake: int, required: int, allowed: bool)

  /** `calculate_recovery_stake`, with the balance cap the base planner passes. */
  function SharedRecoveryStake(base: int, debt: int, ratio: real, spendable: int, balance: int, fraction: real): StakeQuote {
    var owed := Max(0, debt);
    if owed <= 1 then StakeQuote(base, 0, base <= spendable)
    else if ratio <= 0.0 then StakeQuote(base, 0, false)
    else
      var sixPercent := owed as real * 0.06;
      var buffer := if sixPercent > 5.0 then sixPercent else 5.0;
      var required := CeilCents((owed as real + buffer) / ratio);
      var requested := Max(base, required);
      var share := (Max(0, balance) as real) * fraction;
      var room := if base as real > share then base as real else share;
      StakeQuote(requested, required, requested <= Max(0, spendable) && requested as real <= room)
  }

  lemma {:induction false} PaysBoth(stake: int, ratio: real, a: real, b: real)
    ensures Pays(stake, ratio, if a > b then a else b) <==> Pays(stake, ratio, a) && Pays(stake, ratio, b)
  {
  }

  /** The quote keeps the base stake for a debt of at most a cent; above that it asks for
      the least stake covering the debt and its cushion, and allows it exactly within the
      spendable balance and the larger of base stake and balance share. */
  lemma {:induction false} SharedQuoteExactly(base: int, debt: int, ratio: real, spendable: int, balance: int, fraction: real)
    requires base >= 0 && spendable >= 0 && balance >= 0
    ensures var quote := SharedRecoveryStake(base, debt, ratio, spendable, balance, fraction);
            var d := debt as real;
            if debt <= 1 then quote.stake == base && (quote.allowed <==> base <= spendable)
            else if ratio <= 0.0 then !quote.allowed
            else
              && quote.stake >= base && Pays(quote.stake, ratio, d + 5.0) && Pays(quote.stake, ratio, d + d * 0.06)
              && (quote.stake == base || !Pays(quote.stake - 1, ratio, d + 5.0) || !Pays(quote.stake - 1, ratio, d + d * 0.06))
              && (quote.allowed <==>
                    quote.stake <= spendable
                    && (quote.stake <= base || quote.stake as real <= balance as real * fraction))
  {
    if debt > 1 && ratio > 0.0 {
      var quote := SharedRecoveryStake(base, debt, ratio, spendable, balance, fraction);
      var d := debt as real;
      var goal := if d + d * 0.06 > d + 5.0 then d + d * 0.06 else d + 5.0;
      assert goal == d + (if d * 0.06 > 5.0 then d * 0.06 else 5.0);
      CeilPays(goal, ratio, quote.stake);
      CeilPays(goal, ratio, quote.stake - 1);
      PaysBoth(quote.stake, ratio, d + d * 0.06, d + 5.0);
      PaysBoth(quote.stake - 1, ratio, d + d * 0.06, d + 5.0);
      hide Pays, CeilCents;
    }
  }
}
