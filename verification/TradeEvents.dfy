/** What the trade table and a session's running profit hold, read off the events alone. */
module TradeEvents {

  import opened TradeMetrics

  datatype Bought = Bought(owner: Option<nat>, purchase: int)

  datatype Done = Done(now: int, profit: int)

  /** The purchases, in order: the i-th is trade i. */
  function Buys(es: seq<Event>): seq<Bought> {
    if |es| == 0 then []
    else
      var e := es[|es| - 1];
      Buys(es[..|es| - 1]) + if e.Buy? then [Bought(e.owner, e.purchase)] else []
  }

  predicate SettlesTrade(e: Event, i: nat) { (e.SettleTrade? || e.SettleMissed?) && e.trade == i }

  /** The first settlement of trade i after it was bought; later ones are duplicates. */
  function SettledBy(es: seq<Event>, i: nat): Option<Done> {
    if |es| == 0 then None
    else
      var pre, e := es[..|es| - 1], es[|es| - 1];
      if SettledBy(pre, i).Some? then SettledBy(pre, i)
      else if SettlesTrade(e, i) && i < |Buys(pre)| then Some(Done(e.now, e.profit))
      else None
  }

  /** The start of the account's session: the last one, unless it has ended. */
  function StartOf(es: seq<Event>, account: nat): Option<int> {
    if |es| == 0 then None
    else
      var e := es[|es| - 1];
      if e.StartSession? && e.account == account then Some(e.at)
      else if e.EndSession? && e.account == account then None
      else StartOf(es[..|es| - 1], account)
  }

  /** The profits of the settlements that were not duplicates, in order. */
  function Profits(es: seq<Event>): seq<int> {
    if |es| == 0 then []
    else
      var pre, e := es[..|es| - 1], es[|es| - 1];
      Profits(pre) + if (e.SettleTrade? || e.SettleMissed?) && e.trade < |Buys(pre)| && SettledBy(pre, e.trade).None?
                     then [e.profit] else []
  }

  function Sum(xs: seq<int>): int { if |xs| == 0 then 0 else Sum(xs[..|xs| - 1]) + xs[|xs| - 1] }

  function DoneOf(t: Trade): Option<Done> { if t.settled.Some? then Some(Done(t.settled.value, t.profit)) else None }

  /** The table holds each purchase with its settlement. */
  predicate TableIs(db: Db, es: seq<Event>) {
    && |db.trades| == |Buys(es)|
    && forall i :: 0 <= i < |db.trades| ==>
         db.trades[i].account == Buys(es)[i].owner && db.trades[i].purchase == Buys(es)[i].purchase
         && DoneOf(db.trades[i]) == SettledBy(es, i)
  }

  ghost predicate StartsAre(db: Db, es: seq<Event>) {
    forall a: nat :: StartOf(es, a) == if a in db.starts then Some(db.starts[a]) else None
  }

  /** The same purchases and settlements, whatever the metrics say. */
  predicate SameTrades(ts: seq<Trade>, us: seq<Trade>) {
    |us| == |ts| && forall i :: 0 <= i < |ts| ==> us[i] == ts[i].(cumulative := us[i].cumulative, drawdown := us[i].drawdown)
  }

  lemma {:induction false} RepairSameTrades(db: Db, a: nat)
    ensures var after := Repair(db, a);
            SameTrades(db.trades, after.trades) && after.starts == db.starts
            && after.runTotal == db.runTotal && after.runHigh == db.runHigh
  {
    if a in db.starts {
      WrittenFrame(db.trades, Session(db.trades, a, db.starts[a]));
    }
    hide Session, Written, Total, High;
  }

  /** A settlement of an open trade settles just that trade and adds to the run's totals. */
  lemma {:induction false} SettleSameTrades(db: Db, e: Event)
    requires e.SettleTrade? || e.SettleMissed?
    ensures var after := Step(db, e);
            if e.trade < |db.trades| && db.trades[e.trade].settled.None?
            then
              && |after.trades| == |db.trades| && after.starts == db.starts
              && SameTrades(db.trades[e.trade := after.trades[e.trade]], after.trades)
              && DoneOf(after.trades[e.trade]) == Some(Done(e.now, e.profit))
              && after.trades[e.trade].account == db.trades[e.trade].account
              && after.trades[e.trade].purchase == db.trades[e.trade].purchase
              && after.runTotal == db.runTotal + e.profit
              && after.runHigh == Max(db.runHigh, after.runTotal)
              && (e.SettleMissed? || db.trades[e.trade].account.None? ==>
                    after.trades[e.trade].cumulative == after.runTotal
                    && after.trades[e.trade].drawdown == after.runHigh - after.runTotal)
            else after == db
  {
    if Open(db, e.trade) && e.SettleTrade? {
      var settled := SettleRow(db, e.trade, e.now, e.profit);
      if !CursorFits(settled, e.trade) && settled.trades[e.trade].account.Some? {
        RepairSameTrades(settled, settled.trades[e.trade].account.value);
      }
    }
    hide Repair;
  }

  lemma {:induction false} BuyTable(db: Db, pre: seq<Event>, e: Event)
    requires TableIs(db, pre) && e.Buy?
    ensures TableIs(Step(db, e), pre + [e])
  {
    assert (pre + [e])[..|pre|] == pre;
    NotBoughtYet(pre, |db.trades|);
  }

  lemma {:induction false} NotBoughtYet(es: seq<Event>, i: nat)
    requires i >= |Buys(es)|
    ensures SettledBy(es, i).None?
  {
    if |es| > 0 {
      NotBoughtYet(es[..|es| - 1], i);
    }
  }

  lemma {:induction false} SettleTable(db: Db, pre: seq<Event>, e: Event)
    requires TableIs(db, pre) && (e.SettleTrade? || e.SettleMissed?)
    ensures TableIs(Step(db, e), pre + [e])
  {
    var es, after := pre + [e], Step(db, e);
    assert es[..|pre|] == pre && Buys(es) == Buys(pre);
    SettleSameTrades(db, e);
    hide Step, Buys;
    forall i | 0 <= i < |after.trades|
      ensures DoneOf(after.trades[i]) == SettledBy(es, i)
    {
      assert DoneOf(db.trades[i]) == SettledBy(pre, i);
    }
  }

  lemma {:induction false} OtherTable(db: Db, pre: seq<Event>, e: Event)
    requires TableIs(db, pre) && (e.StartSession? || e.EndSession? || e.Startup?)
    ensures TableIs(Step(db, e), pre + [e])
  {
    var es, after := pre + [e], Step(db, e);
    assert es[..|pre|] == pre && Buys(es) == Buys(pre);
    if e.Startup? {
      RepairSameTrades(db, e.account);
    }
    hide Repair, Buys;
    forall i | 0 <= i < |after.trades|
      ensures DoneOf(after.trades[i]) == SettledBy(es, i)
    {
      assert DoneOf(db.trades[i]) == SettledBy(pre, i);
    }
  }

  lemma {:induction false} StartsStep(db: Db, pre: seq<Event>, e: Event)
    requires StartsAre(db, pre)
    ensures StartsAre(Step(db, e), pre + [e])
  {
    assert (pre + [e])[..|pre|] == pre;
    if e.Startup? {
      RepairSameTrades(db, e.account);
    } else if e.SettleTrade? || e.SettleMissed? {
      SettleSameTrades(db, e);
    }
    hide Repair, Settle, SettleOnly;
  }

  /** After any events the table, the session starts and the run total are what the events
      say, however often metrics were repaired, missed or settled twice. */
  lemma {:induction false} StateFollowsEvents(es: seq<Event>)
    ensures TableIs(Run(EMPTY, es), es) && StartsAre(Run(EMPTY, es), es)
    ensures Run(EMPTY, es).runTotal == Sum(Profits(es))
  {
    if |es| > 0 {
      var pre, e := es[..|es| - 1], es[|es| - 1];
      var db := Run(EMPTY, pre);
      StateFollowsEvents(pre);
      assert es == pre + [e];
      StartsStep(db, pre, e);
      if e.Buy? {
        BuyTable(db, pre, e);
      } else if e.SettleTrade? || e.SettleMissed? {
        SettleTable(db, pre, e);
      } else {
        OtherTable(db, pre, e);
      }
      TotalStep(db, pre, e);
      hide Step, TableIs, StartsAre, Profits, Sum;
    }
  }

  lemma {:induction false} TotalStep(db: Db, pre: seq<Event>, e: Event)
    requires TableIs(db, pre) && db.runTotal == Sum(Profits(pre))
    ensures Step(db, e).runTotal == Sum(Profits(pre + [e]))
  {
    var es := pre + [e];
    assert es[..|pre|] == pre && es[|es| - 1] == e;
    SumAppend(Profits(pre), if e.SettleTrade? || e.SettleMissed? then e.profit else 0);
    if e.SettleTrade? || e.SettleMissed? {
      SettleSameTrades(db, e);
      if e.trade < |db.trades| {
        assert DoneOf(db.trades[e.trade]) == SettledBy(pre, e.trade);
        assert db.trades[e.trade].settled.None? <==> SettledBy(pre, e.trade).None?;
      }
      hide Step, Buys, SettledBy, Sum;
    } else {
      if e.Startup? {
        RepairSameTrades(db, e.account);
      }
      assert Profits(es) == Profits(pre) + [];
      hide Repair, Buys, SettledBy, Sum;
    }
  }

  lemma SumAppend(xs: seq<int>, x: int)
    ensures Sum(xs + [x]) == Sum(xs) + x
    ensures Sum(xs + []) == Sum(xs)
  {
    assert (xs + [x])[..|xs|] == xs;
    assert xs + [] == xs;
  }

  /** The profit of the account's settled trades bought since its session began, trade by
      trade. */
  function SessionProfits(es: seq<Event>, account: nat, start: int, n: nat): int
    requires n <= |Buys(es)|
  {
    if n == 0 then 0
    else
      var b, done := Buys(es)[n - 1], SettledBy(es, n - 1);
      SessionProfits(es, account, start, n - 1)
      + if b.owner == Some(account) && b.purchase >= start && done.Some? then done.value.profit else 0
  }

  lemma {:induction false} SessionFollowsEvents(db: Db, es: seq<Event>, a: nat, start: int, n: nat)
    requires TableIs(db, es) && n <= |db.trades|
    ensures SessionProfit(db.trades, a, start, n) == SessionProfits(es, a, start, n)
  {
    if n > 0 {
      SessionFollowsEvents(db, es, a, start, n - 1);
      assert DoneOf(db.trades[n - 1]) == SettledBy(es, n - 1);
      hide Buys, SettledBy;
    }
  }

  /** An account whose metrics step was not missed since the last repair has the running
      profit of its session in its cursor: the sum over the trades it bought since the
      session began and that have settled, whatever the order of the events. */
  lemma {:induction false} CursorFollowsEvents(es: seq<Event>, a: nat)
    requires AllowedRun(EMPTY, es) && a !in Missed(EMPTY, es) && Seeded(Run(EMPTY, es), a)
    ensures StartOf(es, a).Some?
    ensures Run(EMPTY, es).cursors[a].cumulative == SessionProfits(es, a, StartOf(es, a).value, |Buys(es)|)
  {
    var db := Run(EMPTY, es);
    StateFollowsEvents(es);
    RunsAgreeWithRescan(es);
    hide Run, AllowedRun, Missed, Buys, SettledBy, SessionProfits;
    assert StartOf(es, a) == Some(db.starts[a]);
    hide StartOf;
    RescannedMeans(db, a);
    TotalIsSessionProfit(db.trades, a, db.starts[a], |db.trades|);
    SessionFollowsEvents(db, es, a, db.starts[a], |db.trades|);
  }
}
