/** Per-session cumulative profit and drawdown: the full rescan and the constant-time
    cursor of app/account_trade_metrics_authority.py.  Amounts are units of 1e-8; a
    trade's id is its index in the table. */
module TradeMetrics {

  datatype Option<T> = None | Some(value: T)

  datatype Trade = Trade(
    account: Option<nat>, purchase: int, settled: Option<int>,
    profit: int, cumulative: int, drawdown: int)

  datatype Cursor = Cursor(started: int, cumulative: int, high: int)

  /** The trade table, each account's session start and cursor, and the run totals
      that the plain settlement writes into a row first. */
  datatype Db = Db(
    trades: seq<Trade>, starts: map<nat, int>, cursors: map<nat, Cursor>,
    runTotal: int, runHigh: int)

  function Max(a: int, b: int): int { if a >= b then a else b }

  // ------------------------------------------------------------ the rescan's order

  predicate InWindow(t: Trade, a: nat, start: int) {
    t.account == Some(a) && t.settled.Some? && start <= t.purchase
  }

  function Time(t: Trade): int { if t.settled.Some? then t.settled.value else 0 }

  predicate Before(ts: seq<Trade>, i: nat, j: nat)
    requires i < |ts| && j < |ts|
  {
    Time(ts[i]) < Time(ts[j]) || (Time(ts[i]) == Time(ts[j]) && i < j)
  }

  predicate InRange(ts: seq<Trade>, ids: seq<nat>) { forall k :: 0 <= k < |ids| ==> ids[k] < |ts| }

  function Insert(ts: seq<Trade>, ids: seq<nat>, j: nat): (r: seq<nat>)
    requires InRange(ts, ids) && j < |ts|
    ensures InRange(ts, r)
  {
    if |ids| == 0 || Before(ts, ids[|ids| - 1], j) then ids + [j]
    else Insert(ts, ids[..|ids| - 1], j) + [ids[|ids| - 1]]
  }

  /** The session's settled trades among the first n ids, by settlement time and id. */
  function Order(ts: seq<Trade>, a: nat, start: int, n: nat): (r: seq<nat>)
    requires n <= |ts|
    ensures InRange(ts, r)
  {
    if n == 0 then []
    else if InWindow(ts[n - 1], a, start) then Insert(ts, Order(ts, a, start, n - 1), n - 1)
    else Order(ts, a, start, n - 1)
  }

  function Session(ts: seq<Trade>, a: nat, start: int): (r: seq<nat>)
    ensures InRange(ts, r)
  {
    Order(ts, a, start, |ts|)
  }

  predicate Sorted(ts: seq<Trade>, ids: seq<nat>) {
    InRange(ts, ids) && forall j, k :: 0 <= j < k < |ids| ==> Before(ts, ids[j], ids[k])
  }

  lemma {:induction false} InsertSorts(ts: seq<Trade>, ids: seq<nat>, j: nat)
    requires Sorted(ts, ids) && j < |ts| && j !in ids
    ensures Sorted(ts, Insert(ts, ids, j))
    ensures forall x :: x in Insert(ts, ids, j) <==> x == j || x in ids
  {
    if |ids| == 0 {
      assert Insert(ts, ids, j) == [j];
    } else {
      var n := |ids| - 1;
      assert ids == ids[..n] + [ids[n]];
      if !Before(ts, ids[n], j) {
        InsertSorts(ts, ids[..n], j);
        var r := Insert(ts, ids[..n], j);
        forall k | 0 <= k < |r| ensures Before(ts, r[k], ids[n]) {
          assert r[k] in r;
          assert r[k] == j || r[k] in ids[..n];
        }
      }
    }
  }

  ghost predicate Covers(ts: seq<Trade>, ids: seq<nat>, a: nat, start: int, n: nat)
    requires n <= |ts|
  {
    forall x: nat :: x in ids <==> x < n && InWindow(ts[x], a, start)
  }

  lemma {:induction false} NextCovered(ts: seq<Trade>, ids: seq<nat>, a: nat, start: int, n: nat)
    requires n < |ts| && Sorted(ts, ids) && Covers(ts, ids, a, start, n)
    ensures InWindow(ts[n], a, start) ==>
              Sorted(ts, Insert(ts, ids, n)) && Covers(ts, Insert(ts, ids, n), a, start, n + 1)
    ensures !InWindow(ts[n], a, start) ==> Covers(ts, ids, a, start, n + 1)
  {
    InsertSorts(ts, ids, n);
    hide Sorted, Insert, InWindow;
  }

  /** The rescan visits exactly the session's settled trades, by settlement time and
      then id. */
  lemma {:induction false} RescanOrder(ts: seq<Trade>, a: nat, start: int, n: nat)
    requires n <= |ts|
    ensures Sorted(ts, Order(ts, a, start, n))
    ensures Covers(ts, Order(ts, a, start, n), a, start, n)
  {
    if n > 0 {
      RescanOrder(ts, a, start, n - 1);
      NextCovered(ts, Order(ts, a, start, n - 1), a, start, n - 1);
      hide Sorted, Covers, Insert, InWindow;
    }
  }

  // ------------------------------------------------------------- the rescan's values

  function Total(ts: seq<Trade>, ids: seq<nat>): int
    requires InRange(ts, ids)
  {
    if |ids| == 0 then 0 else Total(ts, ids[..|ids| - 1]) + ts[ids[|ids| - 1]].profit
  }

  function High(ts: seq<Trade>, ids: seq<nat>): (r: int)
    requires InRange(ts, ids)
    ensures r >= Total(ts, ids) && r >= 0
  {
    if |ids| == 0 then 0 else Max(High(ts, ids[..|ids| - 1]), Total(ts, ids))
  }

  /** The rows after the rescan's loop. */
  function Written(ts: seq<Trade>, ids: seq<nat>): (r: seq<Trade>)
    requires InRange(ts, ids)
    ensures |r| == |ts|
  {
    if |ids| == 0 then ts
    else
      var i := ids[|ids| - 1];
      Written(ts, ids[..|ids| - 1])[i := ts[i].(
        cumulative := Total(ts, ids),
        drawdown := Max(0, High(ts, ids) - Total(ts, ids)))]
  }

  /** `repair_account_session_trade_metrics`. */
  function Repair(db: Db, a: nat): Db {
    if a !in db.starts then db
    else
      var ids := Session(db.trades, a, db.starts[a]);
      db.(trades := Written(db.trades, ids),
          cursors := db.cursors[a := Cursor(db.starts[a], Total(db.trades, ids), High(db.trades, ids))])
  }

  /** High water is the largest prefix sum, or 0: an upper bound that is reached. */
  lemma {:induction false} HighWaterIsLargestPrefix(ts: seq<Trade>, ids: seq<nat>)
    requires InRange(ts, ids)
    ensures forall k :: 0 <= k <= |ids| ==> Total(ts, ids[..k]) <= High(ts, ids)
    ensures exists k :: 0 <= k <= |ids| && Total(ts, ids[..k]) == High(ts, ids)
  {
    assert ids[..|ids|] == ids;
    if |ids| > 0 {
      var n := |ids| - 1;
      HighWaterIsLargestPrefix(ts, ids[..n]);
      assert forall k :: 0 <= k <= n ==> ids[..n][..k] == ids[..k];
      var k :| 0 <= k <= n && Total(ts, ids[..n][..k]) == High(ts, ids[..n]);
      assert Total(ts, ids[..k]) == High(ts, ids[..n]);
    } else {
      assert Total(ts, ids[..0]) == 0;
    }
  }

  // -------------------------------------------------------------- rows in agreement

  /** Every row of the session carries the prefix sum up to it and its distance from
      the high water. */
  predicate RowsAgree(ts: seq<Trade>, ids: seq<nat>)
    requires InRange(ts, ids)
  {
    forall k :: 0 <= k < |ids| ==>
      ts[ids[k]].cumulative == Total(ts, ids[..k + 1])
      && ts[ids[k]].drawdown == High(ts, ids[..k + 1]) - Total(ts, ids[..k + 1])
  }

  /** Totals depend on profits only. */
  lemma {:induction false} TotalsFrame(ts: seq<Trade>, us: seq<Trade>, ids: seq<nat>)
    requires InRange(ts, ids) && InRange(us, ids)
    requires forall k :: 0 <= k < |ids| ==> ts[ids[k]].profit == us[ids[k]].profit
    ensures Total(ts, ids) == Total(us, ids) && High(ts, ids) == High(us, ids)
  {
    if |ids| > 0 {
      TotalsFrame(ts, us, ids[..|ids| - 1]);
    }
  }

  lemma {:induction false} RowsAgreeFrame(ts: seq<Trade>, us: seq<Trade>, ids: seq<nat>)
    requires InRange(ts, ids) && InRange(us, ids)
    requires forall k :: 0 <= k < |ids| ==> ts[ids[k]] == us[ids[k]]
    ensures RowsAgree(ts, ids) <==> RowsAgree(us, ids)
  {
    forall k {:trigger ids[k]} | 0 <= k < |ids|
      ensures Total(ts, ids[..k + 1]) == Total(us, ids[..k + 1]) && High(ts, ids[..k + 1]) == High(us, ids[..k + 1])
    {
      TotalsFrame(ts, us, ids[..k + 1]);
    }
  }

  predicate SameBut(ts: seq<Trade>, us: seq<Trade>, ids: seq<nat>) {
    && |us| == |ts|
    && (forall i: nat :: i < |ts| && i !in ids ==> us[i] == ts[i])
    && (forall i: nat :: i < |ts| ==>
         us[i] == ts[i].(cumulative := us[i].cumulative, drawdown := us[i].drawdown))
  }

  lemma {:induction false} WrittenFrame(ts: seq<Trade>, ids: seq<nat>)
    requires InRange(ts, ids)
    ensures SameBut(ts, Written(ts, ids), ids)
  {
    if |ids| > 0 {
      WrittenFrame(ts, ids[..|ids| - 1]);
      assert ids == ids[..|ids| - 1] + [ids[|ids| - 1]];
    }
  }

  /** A rescan leaves every row in agreement. */
  lemma {:induction false} RescanAgrees(ts: seq<Trade>, ids: seq<nat>)
    requires Sorted(ts, ids)
    ensures RowsAgree(Written(ts, ids), ids)
  {
    if |ids| > 0 {
      var n := |ids| - 1;
      RescanAgrees(ts, ids[..n]);
      WrittenFrame(ts, ids[..n]);
      WrittenFrame(ts, ids);
      var before, after := Written(ts, ids[..n]), Written(ts, ids);
      RowsAgreeFrame(before, after, ids[..n]);
      TotalsFrame(ts, after, ids);
      LastRow(after, ids);
    }
  }

  lemma {:induction false} AgreeOnPrefix(us: seq<Trade>, ids: seq<nat>, n: nat)
    requires InRange(us, ids) && n <= |ids| && RowsAgree(us, ids)
    ensures RowsAgree(us, ids[..n])
  {
    hide Total, High;
    forall k | 0 <= k < n
      ensures us[ids[..n][k]].cumulative == Total(us, ids[..n][..k + 1])
      ensures us[ids[..n][k]].drawdown == High(us, ids[..n][..k + 1]) - Total(us, ids[..n][..k + 1])
    {
      assert ids[..n][..k + 1] == ids[..k + 1];
      assert us[ids[k]].cumulative == Total(us, ids[..k + 1]);
    }
  }

  predicate RowAgrees(us: seq<Trade>, i: nat, ids: seq<nat>)
    requires InRange(us, ids) && i < |us|
  {
    us[i].cumulative == Total(us, ids) && us[i].drawdown == High(us, ids) - Total(us, ids)
  }

  lemma {:induction false} AgreeOneMore(us: seq<Trade>, ids: seq<nat>)
    requires |ids| > 0 && InRange(us, ids)
    requires RowsAgree(us, ids[..|ids| - 1]) && RowAgrees(us, ids[|ids| - 1], ids)
    ensures RowsAgree(us, ids)
  {
    hide Total, High;
    var n := |ids| - 1;
    forall k | 0 <= k < |ids|
      ensures us[ids[k]].cumulative == Total(us, ids[..k + 1])
      ensures us[ids[k]].drawdown == High(us, ids[..k + 1]) - Total(us, ids[..k + 1])
    {
      if k == n {
        assert ids[..k + 1] == ids;
      } else {
        assert ids[..n][..k + 1] == ids[..k + 1];
        assert us[ids[..n][k]].cumulative == Total(us, ids[..n][..k + 1]);
      }
    }
  }

  lemma {:induction false} LastRow(us: seq<Trade>, ids: seq<nat>)
    requires |ids| > 0 && InRange(us, ids)
    ensures RowsAgree(us, ids) <==>
            RowsAgree(us, ids[..|ids| - 1]) && RowAgrees(us, ids[|ids| - 1], ids)
  {
    var n := |ids| - 1;
    assert ids[..n + 1] == ids;
    if RowsAgree(us, ids) {
      AgreeOnPrefix(us, ids, n);
      hide Total, High;
      assert us[ids[n]].cumulative == Total(us, ids[..n + 1]);
    } else if RowsAgree(us, ids[..n]) && RowAgrees(us, ids[n], ids) {
      AgreeOneMore(us, ids);
    }
  }

  /** A rescan changes nothing exactly when the rows agree already. */
  lemma {:induction false} RescanIsNoop(ts: seq<Trade>, ids: seq<nat>)
    requires Sorted(ts, ids)
    ensures Written(ts, ids) == ts <==> RowsAgree(ts, ids)
  {
    if RowsAgree(ts, ids) {
      AgreeingRowsStay(ts, ids);
    }
    if Written(ts, ids) == ts {
      RescanAgrees(ts, ids);
    }
  }

  lemma {:induction false} AgreeingRowsStay(ts: seq<Trade>, ids: seq<nat>)
    requires Sorted(ts, ids) && RowsAgree(ts, ids)
    ensures Written(ts, ids) == ts
  {
    if |ids| > 0 {
      var n := |ids| - 1;
      LastRow(ts, ids);
      assert Sorted(ts, ids[..n]);
      AgreeingRowsStay(ts, ids[..n]);
      hide RowsAgree, Total, High, Sorted;
      assert ts[ids[n]].drawdown == High(ts, ids) - Total(ts, ids);
    }
  }

  // ---------------------------------------------------------------------- settlement

  /** The plain settlement: the row first gets the run-wide totals. */
  function SettleRow(db: Db, i: nat, now: int, profit: int): Db
    requires i < |db.trades|
  {
    var total := db.runTotal + profit;
    var high := Max(db.runHigh, total);
    db.(runTotal := total, runHigh := high,
        trades := db.trades[i := db.trades[i].(
          settled := Some(now), profit := profit, cumulative := total, drawdown := high - total)])
  }

  /** The trade belongs to the current session and the cursor was seeded in it. */
  predicate CursorFits(db: Db, i: nat)
    requires i < |db.trades|
  {
    var t := db.trades[i];
    && t.account.Some?
    && t.account.value in db.starts && db.starts[t.account.value] <= t.purchase
    && t.account.value in db.cursors && db.cursors[t.account.value].started == db.starts[t.account.value]
  }

  /** `_apply_incremental_trade_metrics` when it succeeds. */
  function Incremental(db: Db, i: nat): Db
    requires i < |db.trades| && CursorFits(db, i)
  {
    var t, c := db.trades[i], db.cursors[db.trades[i].account.value];
    var total := c.cumulative + t.profit;
    var high := Max(c.high, total);
    db.(trades := db.trades[i := t.(cumulative := total, drawdown := Max(0, high - total))],
        cursors := db.cursors[t.account.value := Cursor(c.started, total, high)])
  }

  predicate Open(db: Db, i: nat) { i < |db.trades| && db.trades[i].settled.None? }

  /** `settle_trade_with_account_metrics`. */
  function Settle(db: Db, i: nat, now: int, profit: int): Db {
    if !Open(db, i) then db
    else
      var settled := SettleRow(db, i, now, profit);
      if CursorFits(settled, i) then Incremental(settled, i)
      else if settled.trades[i].account.Some? then Repair(settled, settled.trades[i].account.value)
      else settled
  }

  // --------------------------------------------------------- the cursor and the rescan

  /** A full rescan of the account's session would change no row and not the cursor. */
  predicate Rescanned(db: Db, a: nat) { Repair(db, a) == db }

  predicate Seeded(db: Db, a: nat) {
    a in db.starts && a in db.cursors && db.cursors[a].started == db.starts[a]
  }

  ghost predicate Consistent(db: Db) { forall a: nat :: Seeded(db, a) ==> Rescanned(db, a) }

  /** The settlement comes after every settled trade of the same session. */
  predicate InOrder(db: Db, i: nat, now: int)
    requires i < |db.trades|
  {
    var t := db.trades[i];
    t.account.Some? && t.account.value in db.starts && db.starts[t.account.value] <= t.purchase ==>
      Last(db.trades, t.account.value, db.starts[t.account.value], i, now)
  }

  predicate Last(ts: seq<Trade>, a: nat, start: int, i: nat, now: int) {
    forall j: nat :: j < |ts| && InWindow(ts[j], a, start) ==> Time(ts[j]) < now || (Time(ts[j]) == now && j < i)
  }

  lemma {:induction false} InsertFrame(ts: seq<Trade>, us: seq<Trade>, ids: seq<nat>, j: nat)
    requires InRange(ts, ids) && InRange(us, ids) && j < |ts| && j < |us|
    requires Time(ts[j]) == Time(us[j]) && forall k :: 0 <= k < |ids| ==> Time(ts[ids[k]]) == Time(us[ids[k]])
    ensures Insert(ts, ids, j) == Insert(us, ids, j)
  {
    if |ids| > 0 {
      InsertFrame(ts, us, ids[..|ids| - 1], j);
    }
  }

  /** The order depends only on who is in the session and when each was settled. */
  lemma {:induction false} OrderFrame(ts: seq<Trade>, us: seq<Trade>, a: nat, start: int, n: nat)
    requires n <= |ts| && n <= |us|
    requires forall x: nat :: x < n ==>
               (InWindow(ts[x], a, start) <==> InWindow(us[x], a, start))
               && (InWindow(ts[x], a, start) ==> Time(ts[x]) == Time(us[x]))
    ensures Order(ts, a, start, n) == Order(us, a, start, n)
  {
    if n > 0 {
      OrderFrame(ts, us, a, start, n - 1);
      RescanOrder(ts, a, start, n - 1);
      if InWindow(ts[n - 1], a, start) {
        var ids := Order(ts, a, start, n - 1);
        forall k | 0 <= k < |ids| ensures Time(ts[ids[k]]) == Time(us[ids[k]]) {
          assert ids[k] in ids;
        }
        InsertFrame(ts, us, ids, n - 1);
      }
    }
  }

  lemma {:induction false} AppendHere(ts: seq<Trade>, t: Trade, a: nat, start: int, i: nat)
    requires i < |ts| && ts[i].settled.None?
    requires InWindow(t, a, start) && Last(ts, a, start, i, Time(t))
    ensures Order(ts[i := t], a, start, i + 1) == Order(ts, a, start, i + 1) + [i]
  {
    var us := ts[i := t];
    OrderFrame(ts, us, a, start, i);
    RescanOrder(ts, a, start, i);
    var ids := Order(us, a, start, i);
    if |ids| > 0 {
      assert ids[|ids| - 1] in Order(ts, a, start, i);
      assert Before(us, ids[|ids| - 1], i);
    }
  }

  lemma {:induction false} AppendLater(ts: seq<Trade>, t: Trade, a: nat, start: int, i: nat, j: nat)
    requires i < j < |ts| && ts[i].settled.None?
    requires InWindow(t, a, start) && Last(ts, a, start, i, Time(t))
    requires Order(ts[i := t], a, start, j) == Order(ts, a, start, j) + [i]
    ensures Order(ts[i := t], a, start, j + 1) == Order(ts, a, start, j + 1) + [i]
  {
    var us := ts[i := t];
    if InWindow(us[j], a, start) {
      var ids := Order(ts, a, start, j);
      RescanOrder(ts, a, start, j);
      hide Sorted, Insert;
      forall k | 0 <= k < |ids| ensures Time(ts[ids[k]]) == Time(us[ids[k]]) {
        assert ids[k] in ids;
      }
      InsertFrame(ts, us, ids, j);
      assert !Before(us, i, j);
      InsertBeforeLast(us, ids, i, j);
    }
  }

  /** Settling last in the session appends to the rescan order. */
  lemma {:induction false} OrderAppends(ts: seq<Trade>, t: Trade, a: nat, start: int, i: nat, n: nat)
    requires i < n <= |ts| && ts[i].settled.None?
    requires InWindow(t, a, start) && Last(ts, a, start, i, Time(t))
    ensures Order(ts[i := t], a, start, n) == Order(ts, a, start, n) + [i]
  {
    hide Order, Last;
    if n - 1 == i {
      AppendHere(ts, t, a, start, i);
    } else {
      OrderAppends(ts, t, a, start, i, n - 1);
      AppendLater(ts, t, a, start, i, n - 1);
    }
  }

  lemma {:induction false} InsertBeforeLast(us: seq<Trade>, ids: seq<nat>, i: nat, j: nat)
    requires InRange(us, ids) && i < |us| && j < |us| && !Before(us, i, j)
    ensures Insert(us, ids + [i], j) == Insert(us, ids, j) + [i]
  {
    assert (ids + [i])[..|ids|] == ids;
  }

  /** What a seeded and consistent account means, in values. */
  lemma {:induction false} RescannedMeans(db: Db, a: nat)
    requires Seeded(db, a)
    ensures var ids := Session(db.trades, a, db.starts[a]);
            Rescanned(db, a) <==>
              RowsAgree(db.trades, ids)
              && db.cursors[a].cumulative == Total(db.trades, ids) && db.cursors[a].high == High(db.trades, ids)
  {
    var ids := Session(db.trades, a, db.starts[a]);
    RescanOrder(db.trades, a, db.starts[a], |db.trades|);
    RescanIsNoop(db.trades, ids);
    hide Order, Written, Total, High, RowsAgree, Sorted;
    var c := Cursor(db.starts[a], Total(db.trades, ids), High(db.trades, ids));
    if Rescanned(db, a) {
      assert db.cursors[a := c][a] == c;
    } else if db.cursors[a] == c {
      assert db.cursors[a := c] == db.cursors;
    }
  }

  /** Repairing twice is repairing once. */
  lemma {:induction false} RepairSettles(db: Db, a: nat)
    ensures Rescanned(Repair(db, a), a)
    ensures a in db.starts ==> Seeded(Repair(db, a), a)
  {
    if a in db.starts {
      var start := db.starts[a];
      var ids := Session(db.trades, a, start);
      var after := Repair(db, a);
      RescanOrder(db.trades, a, start, |db.trades|);
      WrittenFrame(db.trades, ids);
      OrderFrame(db.trades, after.trades, a, start, |db.trades|);
      RescanAgrees(db.trades, ids);
      TotalsFrame(db.trades, after.trades, ids);
      RescannedMeans(after, a);
    }
  }

  /** Another account's rows, start and cursor are untouched: so is its agreement. */
  lemma {:induction false} OthersUntouched(db: Db, after: Db, b: nat)
    requires |after.trades| == |db.trades|
    requires b in db.starts <==> b in after.starts
    requires b in db.starts ==> db.starts[b] == after.starts[b]
    requires b in db.cursors <==> b in after.cursors
    requires b in db.cursors ==> db.cursors[b] == after.cursors[b]
    requires forall x: nat :: x < |db.trades| ==>
               db.trades[x] == after.trades[x]
               || (db.trades[x].account != Some(b) && after.trades[x].account != Some(b))
    ensures Seeded(db, b) ==> (Rescanned(db, b) <==> Rescanned(after, b))
  {
    if Seeded(db, b) {
      var start := db.starts[b];
      OrderFrame(db.trades, after.trades, b, start, |db.trades|);
      RescanOrder(db.trades, b, start, |db.trades|);
      var ids := Session(db.trades, b, start);
      forall k | 0 <= k < |ids| ensures db.trades[ids[k]] == after.trades[ids[k]] {
        assert ids[k] in ids;
      }
      TotalsFrame(db.trades, after.trades, ids);
      RowsAgreeFrame(db.trades, after.trades, ids);
      RescannedMeans(db, b);
      RescannedMeans(after, b);
    }
  }

  /** The incremental step on an account in agreement, settling last: the rescan
      would write the same. */
  lemma {:induction false} IncrementalAgrees(db: Db, i: nat, now: int, profit: int)
    requires Open(db, i) && CursorFits(SettleRow(db, i, now, profit), i) && InOrder(db, i, now)
    requires Rescanned(db, db.trades[i].account.value)
    ensures Rescanned(Incremental(SettleRow(db, i, now, profit), i), db.trades[i].account.value)
  {
    var a := db.trades[i].account.value;
    var start := db.starts[a];
    var after := Incremental(SettleRow(db, i, now, profit), i);
    var ts, vs := db.trades, after.trades;
    assert vs == ts[i := vs[i]];
    OrderAppends(ts, vs[i], a, start, i, |ts|);
    RescanOrder(ts, a, start, |ts|);
    RescannedMeans(db, a);
    RescannedMeans(after, a);
    var ids := Session(ts, a, start);
    assert i !in ids;
    hide Order, RowsAgree, Sorted, InOrder;
    RowsAgreeFrame(ts, vs, ids);
    TotalsFrame(ts, vs, ids);
    LastRow(vs, ids + [i]);
    assert (ids + [i])[..|ids|] == ids;
  }

  /** One settlement and one account: whoever was in agreement still is. */
  lemma {:induction false} SettleKeepsAccount(db: Db, i: nat, now: int, profit: int, b: nat)
    requires Open(db, i) && InOrder(db, i, now) && (Seeded(db, b) ==> Rescanned(db, b))
    ensures Seeded(Settle(db, i, now, profit), b) ==> Rescanned(Settle(db, i, now, profit), b)
  {
    var after := Settle(db, i, now, profit);
    var settled := SettleRow(db, i, now, profit);
    var account := db.trades[i].account;
    if account == Some(b) {
      if CursorFits(settled, i) {
        IncrementalAgrees(db, i, now, profit);
      } else {
        RepairSettles(settled, b);
      }
    } else {
      if account.Some? {
        RepairFrame(settled, account.value);
      }
      hide Rescanned, InOrder;
      if Seeded(after, b) {
        OthersUntouched(db, after, b);
      }
    }
  }

  /** The cursor refines the rescan: every settlement that comes last in its session
      leaves every account in agreement, and the settled trade's account seeded. */
  lemma {:induction false} CursorRefinesRescan(db: Db, i: nat, now: int, profit: int)
    requires Consistent(db) && Open(db, i) && InOrder(db, i, now)
    ensures Consistent(Settle(db, i, now, profit))
    ensures var a := db.trades[i].account;
            a.Some? && a.value in db.starts ==>
              Seeded(Settle(db, i, now, profit), a.value) && Rescanned(Settle(db, i, now, profit), a.value)
  {
    var settled := SettleRow(db, i, now, profit);
    forall b: nat ensures Seeded(Settle(db, i, now, profit), b) ==> Rescanned(Settle(db, i, now, profit), b) {
      SettleKeepsAccount(db, i, now, profit, b);
    }
    if db.trades[i].account.Some? {
      RepairSettles(settled, db.trades[i].account.value);
    }
    hide Rescanned, InOrder;
  }

  lemma {:induction false} RepairFrame(db: Db, a: nat)
    ensures |Repair(db, a).trades| == |db.trades|
    ensures forall x: nat :: x < |db.trades| ==>
              Repair(db, a).trades[x].account == db.trades[x].account
              && (db.trades[x].account != Some(a) ==> Repair(db, a).trades[x] == db.trades[x])
  {
    if a in db.starts {
      var ids := Session(db.trades, a, db.starts[a]);
      RescanOrder(db.trades, a, db.starts[a], |db.trades|);
      WrittenFrame(db.trades, ids);
    }
  }

  // ------------------------------------------------------------- settling out of order

  /** The session's profit, added up by id. */
  function SessionProfit(ts: seq<Trade>, a: nat, start: int, n: nat): int
    requires n <= |ts|
  {
    if n == 0 then 0
    else SessionProfit(ts, a, start, n - 1) + if InWindow(ts[n - 1], a, start) then ts[n - 1].profit else 0
  }

  lemma {:induction false} TotalOfInsert(ts: seq<Trade>, ids: seq<nat>, j: nat)
    requires InRange(ts, ids) && j < |ts|
    ensures Total(ts, Insert(ts, ids, j)) == Total(ts, ids) + ts[j].profit
  {
    if |ids| == 0 || Before(ts, ids[|ids| - 1], j) {
      assert (ids + [j])[..|ids|] == ids;
    } else {
      var n := |ids| - 1;
      TotalOfInsert(ts, ids[..n], j);
      assert Insert(ts, ids, j)[..|Insert(ts, ids, j)| - 1] == Insert(ts, ids[..n], j);
    }
  }

  lemma {:induction false} TotalIsSessionProfit(ts: seq<Trade>, a: nat, start: int, n: nat)
    requires n <= |ts|
    ensures Total(ts, Order(ts, a, start, n)) == SessionProfit(ts, a, start, n)
  {
    if n > 0 {
      TotalIsSessionProfit(ts, a, start, n - 1);
      if InWindow(ts[n - 1], a, start) {
        TotalOfInsert(ts, Order(ts, a, start, n - 1), n - 1);
      }
    }
  }

  lemma {:induction false} SessionProfitGrows(ts: seq<Trade>, t: Trade, a: nat, start: int, i: nat, n: nat)
    requires n <= |ts| && i < |ts| && ts[i].settled.None? && InWindow(t, a, start)
    ensures SessionProfit(ts[i := t], a, start, n) == SessionProfit(ts, a, start, n) + if i < n then t.profit else 0
  {
    if n > 0 {
      SessionProfitGrows(ts, t, a, start, i, n - 1);
    }
  }

  /** In whatever order trades settle, the cursor's running profit is the rescan's. */
  lemma {:induction false} CursorProfitIgnoresOrder(db: Db, i: nat, now: int, profit: int)
    requires Open(db, i) && CursorFits(SettleRow(db, i, now, profit), i)
    requires var a := db.trades[i].account.value;
             db.cursors[a].cumulative == Total(db.trades, Session(db.trades, a, db.starts[a]))
    ensures var a, after := db.trades[i].account.value, Settle(db, i, now, profit);
            after.cursors[a].cumulative == Total(after.trades, Session(after.trades, a, after.starts[a]))
  {
    var a, after := db.trades[i].account.value, Settle(db, i, now, profit);
    var start := db.starts[a];
    assert after.trades == db.trades[i := after.trades[i]];
    TotalIsSessionProfit(db.trades, a, start, |db.trades|);
    TotalIsSessionProfit(after.trades, a, start, |after.trades|);
    SessionProfitGrows(db.trades, after.trades[i], a, start, i, |db.trades|);
  }

  /** In any order, the last trade of the session's rescan is the same unless it is
      the one just settled. */
  lemma {:induction false} LastStays(ts: seq<Trade>, t: Trade, a: nat, start: int, i: nat)
    requires i < |ts| && ts[i].settled.None? && InWindow(t, a, start)
    requires !Last(ts, a, start, i, Time(t))
    ensures var ids, next := Session(ts, a, start), Session(ts[i := t], a, start);
            |ids| > 0 && |next| > 0 && next[|next| - 1] == ids[|ids| - 1] && ids[|ids| - 1] != i
  {
    var us := ts[i := t];
    var ids, next := Session(ts, a, start), Session(us, a, start);
    RescanOrder(ts, a, start, |ts|);
    RescanOrder(us, a, start, |us|);
    hide Order;
    var j: nat :| j < |ts| && InWindow(ts[j], a, start) && !(Time(ts[j]) < Time(t) || (Time(ts[j]) == Time(t) && j < i));
    assert j in ids && i in next && j in next;
    var last, newLast := ids[|ids| - 1], next[|next| - 1];
    LargestIsLast(us, next, j);
    LargestIsLast(us, next, i);
    assert newLast != i;
    assert newLast in next && newLast in ids;
    LargestIsLast(ts, ids, newLast);
    assert last in ids && last in next;
    LargestIsLast(us, next, last);
  }

  lemma {:induction false} LargestIsLast(ts: seq<Trade>, ids: seq<nat>, j: nat)
    requires Sorted(ts, ids) && j in ids
    ensures j == ids[|ids| - 1] || Before(ts, j, ids[|ids| - 1])
  {
    var k :| 0 <= k < |ids| && ids[k] == j;
  }

  /** The incremental step is right exactly when the trade settles last in its session
      (a trade with profit 0 may slip in unnoticed). */
  lemma {:induction false} RefinesExactlyInOrder(db: Db, i: nat, now: int, profit: int)
    requires Open(db, i) && CursorFits(SettleRow(db, i, now, profit), i) && profit != 0
    requires Rescanned(db, db.trades[i].account.value)
    ensures Rescanned(Settle(db, i, now, profit), db.trades[i].account.value) <==> InOrder(db, i, now)
  {
    var a := db.trades[i].account.value;
    var start := db.starts[a];
    var after := Settle(db, i, now, profit);
    RescannedMeans(db, a);
    if InOrder(db, i, now) {
      IncrementalAgrees(db, i, now, profit);
    } else if Rescanned(after, a) {
      var ts, us := db.trades, after.trades;
      assert us == ts[i := us[i]];
      CursorProfitIgnoresOrder(db, i, now, profit);
      LastStays(ts, us[i], a, start, i);
      RescannedMeans(after, a);
      hide Order, Rescanned;
      LastRow(ts, Session(ts, a, start));
      LastRow(us, Session(us, a, start));
      assert false;
    }
  }

  // ------------------------------------------------------------------------- whole runs

  datatype Event =
    | Buy(owner: Option<nat>, purchase: int)
    | StartSession(account: nat, at: int)
    | EndSession(account: nat)
    | SettleTrade(trade: nat, now: int, profit: int)
    | SettleMissed(trade: nat, now: int, profit: int)
    | Startup(account: nat)

  /** The plain settlement commits; the metrics block after it raises, is rolled back and
      the exception swallowed. */
  function SettleOnly(db: Db, i: nat, now: int, profit: int): Db {
    if Open(db, i) then SettleRow(db, i, now, profit) else db
  }

  function Step(db: Db, e: Event): Db {
    match e
    case Buy(owner, purchase) => db.(trades := db.trades + [Trade(owner, purchase, None, 0, 0, 0)])
    case StartSession(account, at) => db.(starts := db.starts[account := at])
    case EndSession(account) => db.(starts := db.starts - {account})
    case SettleTrade(trade, now, profit) => Settle(db, trade, now, profit)
    case SettleMissed(trade, now, profit) => SettleOnly(db, trade, now, profit)
    case Startup(account) => Repair(db, account)
  }

  /** A new session carries a new time stamp, and trades settle in order. */
  predicate Allowed(db: Db, e: Event) {
    match e
    case StartSession(account, at) => account in db.cursors ==> db.cursors[account].started != at
    case SettleTrade(trade, now, _) => Open(db, trade) ==> InOrder(db, trade, now)
    case _ => true
  }

  function Run(db: Db, es: seq<Event>): Db {
    if |es| == 0 then db else Step(Run(db, es[..|es| - 1]), es[|es| - 1])
  }

  predicate AllowedRun(db: Db, es: seq<Event>) {
    |es| == 0 || (AllowedRun(db, es[..|es| - 1]) && Allowed(Run(db, es[..|es| - 1]), es[|es| - 1]))
  }

  lemma {:induction false} BuyKeepsAgreement(db: Db, e: Event, b: nat)
    requires e.Buy? && Seeded(db, b) && Rescanned(db, b)
    ensures Rescanned(Step(db, e), b)
  {
    var start, n := db.starts[b], |db.trades|;
    var after := Step(db, e);
    OrderFrame(db.trades, after.trades, b, start, n);
    assert Session(after.trades, b, start) == Session(db.trades, b, start);
    var ids := Session(db.trades, b, start);
    TotalsFrame(db.trades, after.trades, ids);
    RowsAgreeFrame(db.trades, after.trades, ids);
    RescannedMeans(db, b);
    RescannedMeans(after, b);
  }

  /** The accounts with a missed metrics step that no repair has made good. */
  function Missed(db: Db, es: seq<Event>): set<nat> {
    if |es| == 0 then {}
    else MissedAfter(Run(db, es[..|es| - 1]), Missed(db, es[..|es| - 1]), es[|es| - 1])
  }

  function MissedAfter(db: Db, missed: set<nat>, e: Event): set<nat> {
    match e
    case SettleMissed(i, _, _) =>
      if Open(db, i) && db.trades[i].account.Some? then missed + {db.trades[i].account.value} else missed
    case SettleTrade(i, now, profit) =>
      if Open(db, i) && db.trades[i].account.Some? && !CursorFits(SettleRow(db, i, now, profit), i)
      then missed - {db.trades[i].account.value} else missed
    case Startup(account) => missed - {account}
    case _ => missed
  }

  /** Every account outside the set is as a full rescan would leave it. */
  ghost predicate ConsistentBut(db: Db, missed: set<nat>) {
    forall a: nat :: a !in missed && Seeded(db, a) ==> Rescanned(db, a)
  }

  lemma {:induction false} SettleKeepsRest(db: Db, missed: set<nat>, i: nat, now: int, profit: int)
    requires ConsistentBut(db, missed) && Open(db, i) && InOrder(db, i, now)
    ensures ConsistentBut(Settle(db, i, now, profit), MissedAfter(db, missed, SettleTrade(i, now, profit)))
  {
    var after, still := Settle(db, i, now, profit), MissedAfter(db, missed, SettleTrade(i, now, profit));
    forall b: nat | b !in still ensures Seeded(after, b) ==> Rescanned(after, b) {
      if b in missed {
        RepairSettles(SettleRow(db, i, now, profit), b);
      } else {
        SettleKeepsAccount(db, i, now, profit, b);
      }
    }
    hide Rescanned, Settle, MissedAfter, InOrder;
  }

  lemma {:induction false} MissKeepsRest(db: Db, missed: set<nat>, i: nat, now: int, profit: int)
    requires ConsistentBut(db, missed)
    ensures ConsistentBut(SettleOnly(db, i, now, profit), MissedAfter(db, missed, SettleMissed(i, now, profit)))
  {
    var after := SettleOnly(db, i, now, profit);
    hide Rescanned;
    forall b: nat | b !in MissedAfter(db, missed, SettleMissed(i, now, profit)) && Seeded(after, b)
      ensures Rescanned(after, b)
    {
      OthersUntouched(db, after, b);
    }
  }

  lemma {:induction false} StartupKeepsRest(db: Db, missed: set<nat>, account: nat)
    requires ConsistentBut(db, missed)
    ensures ConsistentBut(Repair(db, account), missed - {account})
  {
    RepairSettles(db, account);
    hide Rescanned, Repair;
    forall b: nat | b !in missed - {account} && Seeded(Repair(db, account), b)
      ensures Rescanned(Repair(db, account), b)
    {
      if b != account {
        RepairOthers(db, account, b);
      }
    }
  }

  lemma {:induction false} StepKeepsAgreement(db: Db, missed: set<nat>, e: Event)
    requires ConsistentBut(db, missed) && Allowed(db, e)
    ensures ConsistentBut(Step(db, e), MissedAfter(db, missed, e))
  {
    var after := Step(db, e);
    hide Rescanned, Settle, Repair, SettleOnly, InOrder;
    match e
    case Buy(_, _) =>
      forall b: nat | b !in missed && Seeded(after, b) ensures Rescanned(after, b) {
        BuyKeepsAgreement(db, e, b);
      }
    case StartSession(account, at) =>
      forall b: nat | b !in missed && Seeded(after, b) ensures Rescanned(after, b) {
        OthersUntouched(db, after, b);
      }
    case EndSession(account) =>
      forall b: nat | b !in missed && Seeded(after, b) ensures Rescanned(after, b) {
        OthersUntouched(db, after, b);
      }
    case SettleTrade(trade, now, profit) =>
      if Open(db, trade) {
        SettleKeepsRest(db, missed, trade, now, profit);
      } else {
        ClosedSettlesNothing(db, trade, now, profit);
      }
    case SettleMissed(trade, now, profit) => MissKeepsRest(db, missed, trade, now, profit);
    case Startup(account) => StartupKeepsRest(db, missed, account);
  }

  lemma {:induction false} ClosedSettlesNothing(db: Db, i: nat, now: int, profit: int)
    requires !Open(db, i)
    ensures Settle(db, i, now, profit) == db
  {
  }

  lemma {:induction false} RepairOthers(db: Db, a: nat, b: nat)
    requires a != b && Seeded(Repair(db, a), b)
    ensures Seeded(db, b) && (Rescanned(db, b) <==> Rescanned(Repair(db, a), b))
  {
    RepairFrame(db, a);
    OthersUntouched(db, Repair(db, a), b);
  }

  /** No accounts, no trades. */
  const EMPTY := Db([], map[], map[], 0, 0)

  /** Over every run from an empty database, session restarts and failing metrics steps
      included, a full rescan would change nothing of any seeded account, save those with
      a missed step that no repair has made good. */
  lemma {:induction false} RunsAgreeWithRescan(es: seq<Event>)
    requires AllowedRun(EMPTY, es)
    ensures ConsistentBut(Run(EMPTY, es), Missed(EMPTY, es))
    ensures (forall e :: e in es ==> !e.SettleMissed?) ==> Consistent(Run(EMPTY, es))
  {
    if |es| > 0 {
      RunsAgreeWithRescan(es[..|es| - 1]);
      StepKeepsAgreement(Run(EMPTY, es[..|es| - 1]), Missed(EMPTY, es[..|es| - 1]), es[|es| - 1]);
      hide Rescanned, Step, Allowed, MissedAfter;
    }
    if forall e :: e in es ==> !e.SettleMissed? {
      NothingMissed(es);
    }
    hide Rescanned, Step;
  }

  lemma {:induction false} NothingMissed(es: seq<Event>)
    requires forall e :: e in es ==> !e.SettleMissed?
    ensures Missed(EMPTY, es) == {}
  {
    if |es| > 0 {
      assert es[|es| - 1] in es;
      NothingMissed(es[..|es| - 1]);
    }
  }

  // ---------------------------------------------------- what a missed step costs

  /** How far the cursor's running profit is behind the session's. */
  function Lag(db: Db, a: nat): int
    requires Seeded(db, a)
  {
    Total(db.trades, Session(db.trades, a, db.starts[a])) - db.cursors[a].cumulative
  }

  lemma {:induction false} SettledTotal(db: Db, after: Db, i: nat, a: nat)
    requires Open(db, i) && a in db.starts && |after.trades| == |db.trades|
    requires after.trades == db.trades[i := after.trades[i]]
    requires InWindow(after.trades[i], a, db.starts[a])
    ensures Total(after.trades, Session(after.trades, a, db.starts[a]))
            == Total(db.trades, Session(db.trades, a, db.starts[a])) + after.trades[i].profit
  {
    var start := db.starts[a];
    TotalIsSessionProfit(db.trades, a, start, |db.trades|);
    TotalIsSessionProfit(after.trades, a, start, |after.trades|);
    SessionProfitGrows(db.trades, after.trades[i], a, start, i, |db.trades|);
  }

  /** A missed step leaves the cursor behind by exactly the trade's profit; a non-zero
      one breaks the agreement. */
  lemma {:induction false} MissedStepLags(db: Db, i: nat, now: int, profit: int)
    requires Open(db, i) && CursorFits(SettleRow(db, i, now, profit), i)
    ensures var a, after := db.trades[i].account.value, SettleOnly(db, i, now, profit);
            Seeded(db, a) && Seeded(after, a) && Lag(after, a) == Lag(db, a) + profit
            && (Rescanned(db, a) && profit != 0 ==> !Rescanned(after, a))
  {
    var a, after := db.trades[i].account.value, SettleOnly(db, i, now, profit);
    SettledTotal(db, after, i, a);
    RescannedMeans(db, a);
    RescannedMeans(after, a);
    hide Order, Total, High, Rescanned;
  }

  /** Later incremental steps carry the lag along unchanged ... */
  lemma {:induction false} LagStays(db: Db, i: nat, now: int, profit: int)
    requires Open(db, i) && CursorFits(SettleRow(db, i, now, profit), i)
    ensures var a, after := db.trades[i].account.value, Settle(db, i, now, profit);
            Seeded(db, a) && Seeded(after, a) && Lag(after, a) == Lag(db, a)
  {
    var a, after := db.trades[i].account.value, Settle(db, i, now, profit);
    assert after.trades == db.trades[i := after.trades[i]];
    SettledTotal(db, after, i, a);
    hide Order, Total, High;
  }

  /** ... until a repair, at startup or in the next session, takes it away. */
  lemma {:induction false} RepairEndsLag(db: Db, a: nat)
    requires a in db.starts
    ensures Seeded(Repair(db, a), a) && Lag(Repair(db, a), a) == 0
  {
    RepairSettles(db, a);
    RescannedMeans(Repair(db, a), a);
  }

  // ------------------------------------------------------------------------ in place

  class MetricsLedger {
    var trades: seq<Trade>
    var starts: map<nat, int>
    var cursors: map<nat, Cursor>
    var runTotal: int
    var runHigh: int

    ghost function State(): Db
      reads this
    {
      Db(trades, starts, cursors, runTotal, runHigh)
    }

    /** The loop over the session's rows. */
    method RepairAccountSession(account: nat) returns (repaired: nat)
      modifies this
      ensures State() == Repair(old(State()), account)
      ensures repaired == if account in starts then |Session(old(trades), account, starts[account])| else 0
    {
      repaired := 0;
      if account !in starts {
        return;
      }
      ghost var before := trades;
      var rows := Session(trades, account, starts[account]);
      var cumulative, highWater := 0, 0;
      RescanOrder(before, account, starts[account], |before|);
      while repaired < |rows|
        invariant repaired <= |rows|
        invariant trades == Written(before, rows[..repaired])
        invariant cumulative == Total(before, rows[..repaired])
        invariant highWater == High(before, rows[..repaired])
        invariant starts == old(starts) && cursors == old(cursors) && runTotal == old(runTotal) && runHigh == old(runHigh)
      {
        hide Sorted, Covers, Written, Total, High, Order, InRange;
        NextRow(before, rows, repaired);
        var row := rows[repaired];
        cumulative := cumulative + trades[row].profit;
        highWater := Max(highWater, cumulative);
        trades := trades[row := trades[row].(
          cumulative := cumulative, drawdown := Max(0, highWater - cumulative))];
        repaired := repaired + 1;
      }
      assert rows[..repaired] == rows;
      cursors := cursors[account := Cursor(starts[account], cumulative, highWater)];
    }

    method ApplyIncremental(i: nat) returns (applied: bool)
      requires i < |trades|
      modifies this
      ensures applied <==> CursorFits(old(State()), i)
      ensures State() == if applied then Incremental(old(State()), i) else old(State())
    {
      var t := trades[i];
      if t.account.None? || t.account.value !in starts || t.purchase < starts[t.account.value] {
        return false;
      }
      var account := t.account.value;
      if account !in cursors || cursors[account].started != starts[account] {
        return false;
      }
      var cumulative := cursors[account].cumulative + t.profit;
      var highWater := Max(cursors[account].high, cumulative);
      trades := trades[i := t.(cumulative := cumulative, drawdown := Max(0, highWater - cumulative))];
      cursors := cursors[account := Cursor(starts[account], cumulative, highWater)];
      return true;
    }

    /** The plain settlement, a transaction of its own. */
    method SettlePlain(i: nat, now: int, profit: int) returns (settled: bool)
      modifies this
      ensures settled <==> Open(old(State()), i)
      ensures State() == SettleOnly(old(State()), i, now, profit)
    {
      if i >= |trades| || trades[i].settled.Some? {
        return false;
      }
      runTotal := runTotal + profit;
      runHigh := Max(runHigh, runTotal);
      trades := trades[i := trades[i].(
        settled := Some(now), profit := profit, cumulative := runTotal, drawdown := runHigh - runTotal)];
      return true;
    }

    /** The wrapper: the plain settlement, then the metrics block, whose exceptions are
        swallowed; `raises` says that it raises and is rolled back. */
    method SettleTradeWithAccountMetrics(i: nat, now: int, profit: int, raises: bool) returns (settled: bool)
      modifies this
      ensures settled <==> Open(old(State()), i)
      ensures State() == if raises then SettleOnly(old(State()), i, now, profit)
                         else Settle(old(State()), i, now, profit)
    {
      settled := SettlePlain(i, now, profit);
      if !settled || raises {
        return;
      }
      var applied := ApplyIncremental(i);
      if !applied && trades[i].account.Some? {
        var _ := RepairAccountSession(trades[i].account.value);
      }
    }
  }

  /** One turn of the rescan's loop: the next row is still as it was, and is written
      with the next prefix sum. */
  lemma {:induction false} NextRow(ts: seq<Trade>, ids: seq<nat>, k: nat)
    requires Sorted(ts, ids) && k < |ids|
    ensures Written(ts, ids[..k])[ids[k]] == ts[ids[k]]
    ensures Total(ts, ids[..k + 1]) == Total(ts, ids[..k]) + ts[ids[k]].profit
    ensures High(ts, ids[..k + 1]) == Max(High(ts, ids[..k]), Total(ts, ids[..k + 1]))
    ensures Written(ts, ids[..k + 1]) == Written(ts, ids[..k])[ids[k] := ts[ids[k]].(
              cumulative := Total(ts, ids[..k + 1]),
              drawdown := Max(0, High(ts, ids[..k + 1]) - Total(ts, ids[..k + 1])))]
  {
    NotYetWritten(ts, ids, k);
    hide Sorted;
    assert ids[..k + 1][..k] == ids[..k];
  }

  lemma {:induction false} NotYetWritten(ts: seq<Trade>, ids: seq<nat>, k: nat)
    requires Sorted(ts, ids) && k < |ids|
    ensures Written(ts, ids[..k])[ids[k]] == ts[ids[k]]
  {
    WrittenFrame(ts, ids[..k]);
    hide Written;
    assert ids[k] !in ids[..k];
  }
}
