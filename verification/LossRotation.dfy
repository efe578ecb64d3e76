/** The loss-rotation list of enhanced_bot.py: markets blocked after losses until a win
    or a purchase on another market. */
module LossRotation {

  import opened Strings

  datatype Outcome = Win | Loss | Other

  /** The blocked list and the single-market field kept beside it for old state files. */
  datatype State = State(blocked: seq<string>, legacy: string)

  predicate NoDuplicates(ms: seq<string>) {
    forall i, j :: 0 <= i < j < |ms| ==> ms[i] != ms[j]
  }

  function Without(ms: seq<string>, m: string): (r: seq<string>)
    ensures |r| <= |ms|
    ensures forall x :: x in r ==> x in ms
  {
    if |ms| == 0 then [] else if ms[0] == m then ms[1..] else [ms[0]] + Without(ms[1..], m)
  }

  function Keep(ms: seq<string>, configured: seq<string>): (r: seq<string>) {
    if |ms| == 0 then []
    else Keep(ms[..|ms| - 1], configured) + if ms[|ms| - 1] in configured then [ms[|ms| - 1]] else []
  }

  function Newest(ms: seq<string>): string { if |ms| == 0 then "" else ms[|ms| - 1] }

  /** `_loss_rotation_markets`. */
  function Refresh(s: State, configured: seq<string>): State {
    var legacy := Strip(s.legacy);
    var merged := if legacy != "" && legacy !in s.blocked then s.blocked + [legacy] else s.blocked;
    var blocked := if |configured| > 0 then Keep(merged, configured) else merged;
    State(blocked, Newest(blocked))
  }

  lemma {:induction false} KeepExactly(ms: seq<string>, configured: seq<string>, m: string)
    ensures m in Keep(ms, configured) <==> m in ms && m in configured
  {
    if |ms| > 0 {
      KeepExactly(ms[..|ms| - 1], configured, m);
      assert ms == ms[..|ms| - 1] + [ms[|ms| - 1]];
    }
  }

  /** The cleaned list holds the blocked markets and a named legacy one, only configured ones
      if any are configured, and the legacy field names its newest. */
  lemma {:induction false} RefreshExactly(s: State, configured: seq<string>, m: string)
    ensures var r := Refresh(s, configured);
            && (m in r.blocked <==> (m in s.blocked || (m != "" && m == Strip(s.legacy)))
                                    && (configured == [] || m in configured))
            && (r.blocked != [] ==> r.legacy == r.blocked[|r.blocked| - 1]) && (r.blocked == [] ==> r.legacy == "")
  {
    var legacy := Strip(s.legacy);
    var merged := if legacy != "" && legacy !in s.blocked then s.blocked + [legacy] else s.blocked;
    KeepExactly(merged, configured, m);
    hide Strip, Keep;
  }

  /** `_register_execution_market_outcome`. */
  function Register(s: State, configured: seq<string>, symbol: string, outcome: Outcome): State {
    var r := Refresh(s, configured);
    match outcome
    case Win => State([], "")
    case Other => r
    case Loss =>
      var appended := Without(r.blocked, symbol) + [symbol];
      var blocked := if |configured| > 1 && |appended| >= |configured| then appended[1..] else appended;
      State(blocked, Newest(blocked))
  }

  /** `_complete_market_rotation_after_purchase`. */
  function Purchased(s: State, configured: seq<string>, symbol: string): State {
    var r := Refresh(s, configured);
    if r.blocked == [] || symbol in r.blocked then r else State([], "")
  }

  /** With one market configured, or none, a loss releases nothing: the lost market becomes the
      newest and every other one stays. */
  lemma {:induction false} LossWithFewMarkets(s: State, configured: seq<string>, symbol: string, m: string)
    requires |configured| <= 1
    ensures var before, after := Refresh(s, configured).blocked, Register(s, configured, symbol, Loss);
            && after.blocked != [] && after.blocked[|after.blocked| - 1] == symbol && after.legacy == symbol
            && (m != symbol ==> (m in after.blocked <==> m in before))
  {
    if m != symbol {
      WithoutOthers(Refresh(s, configured).blocked, symbol, m);
    }
    hide Refresh, Without;
  }

  lemma {:induction false} WithoutOthers(ms: seq<string>, x: string, m: string)
    requires m != x
    ensures m in Without(ms, x) <==> m in ms
  {
    if |ms| > 0 {
      assert ms == [ms[0]] + ms[1..];
      WithoutOthers(ms[1..], x, m);
    }
  }

  // ------------------------------------------------------------- reference definition

  function LastIndex(h: seq<string>, m: string): (i: int)
    ensures -1 <= i < |h|
    ensures i >= 0 ==> h[i] == m
    ensures forall j :: i < j < |h| ==> h[j] != m
  {
    if |h| == 0 then -1 else if h[|h| - 1] == m then |h| - 1 else LastIndex(h[..|h| - 1], m)
  }

  predicate LossOrder(h: seq<string>, r: seq<string>) {
    forall i, j :: 0 <= i < j < |r| ==> LastIndex(h, r[i]) < LastIndex(h, r[j])
  }

  /** r lists the distinct markets of h in order of their last loss. */
  predicate ByLastLoss(h: seq<string>, r: seq<string>) {
    && (forall m :: m in h ==> m in r)
    && (forall m :: m in r ==> m in h)
    && LossOrder(h, r)
  }

  function Recency(h: seq<string>): seq<string> {
    if |h| == 0 then [] else Without(Recency(h[..|h| - 1]), h[|h| - 1]) + [h[|h| - 1]]
  }

  function Tail(ms: seq<string>, k: nat): seq<string> {
    if |ms| <= k then ms else ms[|ms| - k..]
  }

  lemma {:induction false} PrependNew(x: string, w: seq<string>)
    requires NoDuplicates(w) && x !in w
    ensures NoDuplicates([x] + w)
  {
  }

  lemma {:induction false} TailHasNoDuplicates(ms: seq<string>)
    requires NoDuplicates(ms) && |ms| > 0
    ensures NoDuplicates(ms[1..]) && ms[0] !in ms[1..]
  {
  }

  lemma {:induction false} WithoutKeepsOrder(ms: seq<string>, m: string)
    requires NoDuplicates(ms)
    ensures NoDuplicates(Without(ms, m)) && m !in Without(ms, m)
    ensures forall x :: x in ms && x != m ==> x in Without(ms, m)
    ensures |Without(ms, m)| == if m in ms then |ms| - 1 else |ms|
  {
    if |ms| > 0 {
      assert ms == [ms[0]] + ms[1..];
      TailHasNoDuplicates(ms);
      WithoutKeepsOrder(ms[1..], m);
      if ms[0] != m {
        PrependNew(ms[0], Without(ms[1..], m));
      }
    }
  }

  lemma {:induction false} WithoutAbsent(ms: seq<string>, m: string)
    requires m !in ms
    ensures Without(ms, m) == ms
  {
    if |ms| > 0 {
      WithoutAbsent(ms[1..], m);
    }
  }

  lemma {:induction false} WithoutConcat(a: seq<string>, b: seq<string>, m: string)
    ensures Without(a + b, m) == if m in a then Without(a, m) + b else a + Without(b, m)
  {
    if |a| == 0 {
      assert a + b == b;
    } else {
      assert (a + b)[1..] == a[1..] + b;
      WithoutConcat(a[1..], b, m);
    }
  }

  lemma {:induction false} PrependInOrder(h: seq<string>, x: string, w: seq<string>)
    requires LossOrder(h, w) && forall y :: y in w ==> LastIndex(h, x) < LastIndex(h, y)
    ensures LossOrder(h, [x] + w)
  {
    hide LastIndex;
  }

  lemma {:induction false} HeadIsOldest(h: seq<string>, r: seq<string>, y: string)
    requires LossOrder(h, r) && |r| > 0 && y in r[1..]
    ensures LastIndex(h, r[0]) < LastIndex(h, y)
  {
    hide LastIndex;
    var k :| 0 <= k < |r| - 1 && r[1..][k] == y;
    assert r[k + 1] == y;
  }

  /** Dropping one market keeps the order of losses. */
  lemma {:induction false} WithoutInOrder(h: seq<string>, r: seq<string>, m: string)
    requires LossOrder(h, r)
    ensures LossOrder(h, Without(r, m))
  {
    if |r| > 0 {
      assert LossOrder(h, r[1..]);
      if r[0] != m {
        WithoutInOrder(h, r[1..], m);
        var w := Without(r[1..], m);
        forall y | y in w ensures LastIndex(h, r[0]) < LastIndex(h, y) {
          HeadIsOldest(h, r, y);
        }
        PrependInOrder(h, r[0], w);
      }
    }
  }

  lemma {:induction false} SortedHasNoDuplicates(h: seq<string>, r: seq<string>)
    requires LossOrder(h, r)
    ensures NoDuplicates(r)
  {
  }

  /** The recursive reference is the ordering by last loss, without duplicates. */
  lemma {:induction false} RecencyIsByLastLoss(h: seq<string>)
    ensures ByLastLoss(h, Recency(h)) && NoDuplicates(Recency(h))
  {
    if |h| > 0 {
      var pre, m := h[..|h| - 1], h[|h| - 1];
      RecencyIsByLastLoss(pre);
      assert h == pre + [m];
      var r := Recency(pre);
      WithoutKeepsOrder(r, m);
      WithoutInOrder(pre, r, m);
      AppendNewest(pre, Without(r, m), m);
      SortedHasNoDuplicates(h, Recency(h));
      hide LossOrder, NoDuplicates, LastIndex;
    }
  }

  lemma {:induction false} AppendNewest(h: seq<string>, w: seq<string>, m: string)
    requires LossOrder(h, w) && m !in w
    ensures LossOrder(h + [m], w + [m])
  {
    forall x ensures LastIndex(h + [m], x) == if x == m then |h| else LastIndex(h, x) {
      assert (h + [m])[..|h|] == h;
    }
  }

  // ------------------------------------------------------------------------ one loss

  lemma {:induction false} TailOfConcat(a: seq<string>, b: seq<string>, k: nat)
    requires |b| == k || (a == [] && |b| <= k)
    ensures Tail(a + b, k) == b
  {
    if |b| == k {
      assert (a + b)[|a|..] == b;
    } else {
      assert a + b == b;
    }
  }

  lemma {:induction false} TailStepKnown(dropped: seq<string>, kept: seq<string>, m: string, k: nat)
    requires NoDuplicates(kept) && m in kept && m !in dropped
    requires |kept| == k || (dropped == [] && |kept| <= k)
    ensures |Without(kept, m) + [m]| <= k
    ensures Tail(Without(dropped + kept, m) + [m], k) == Without(kept, m) + [m]
  {
    var appended := Without(kept, m) + [m];
    WithoutKeepsOrder(kept, m);
    WithoutConcat(dropped, kept, m);
    hide Without, NoDuplicates;
    assert dropped + Without(kept, m) + [m] == dropped + appended;
    TailOfConcat(dropped, appended, k);
  }

  lemma {:induction false} TailStepNew(dropped: seq<string>, kept: seq<string>, m: string, k: nat)
    requires m !in kept && (|kept| == k || (dropped == [] && |kept| <= k))
    ensures var appended := Without(kept, m) + [m];
            Tail(Without(dropped + kept, m) + [m], k) == if |appended| > k then appended[1..] else appended
  {
    WithoutAbsent(kept, m);
    WithoutConcat(dropped, kept, m);
    ghost var left := if m in dropped then Without(dropped, m) else dropped;
    hide Without, Tail;
    TailOfAppended(left, kept, m, k);
  }

  lemma {:induction false} TailOfAppended(left: seq<string>, kept: seq<string>, m: string, k: nat)
    requires |kept| == k || (left == [] && |kept| <= k)
    ensures var appended := kept + [m];
            Tail(left + kept + [m], k) == if |appended| > k then appended[1..] else appended
  {
    hide Tail;
    var appended := kept + [m];
    if |kept| == k {
      assert left + kept + [m] == left + [appended[0]] + appended[1..];
      TailOfConcat(left + [appended[0]], appended[1..], k);
    } else {
      assert left + kept + [m] == [] + appended;
      TailOfConcat([], appended, k);
    }
  }

  /** Blocking one more market is one step of a least-recently-lost list of size k. */
  lemma {:induction false} TailStep(all: seq<string>, m: string, k: nat)
    requires k >= 1 && NoDuplicates(all)
    ensures var appended := Without(Tail(all, k), m) + [m];
            Tail(Without(all, m) + [m], k) == if |appended| > k then appended[1..] else appended
  {
    var cut := if |all| <= k then 0 else |all| - k;
    var dropped, kept := all[..cut], all[cut..];
    assert all == dropped + kept && Tail(all, k) == kept;
    SplitHasNoDuplicates(all, cut);
    hide Tail, Without, NoDuplicates;
    if m in kept {
      TailStepKnown(dropped, kept, m, k);
    } else {
      TailStepNew(dropped, kept, m, k);
    }
  }

  lemma {:induction false} SplitHasNoDuplicates(all: seq<string>, cut: nat)
    requires NoDuplicates(all) && cut <= |all|
    ensures NoDuplicates(all[..cut]) && NoDuplicates(all[cut..])
    ensures forall m :: m in all[cut..] ==> m !in all[..cut]
  {
  }

  lemma {:induction false} KeepAll(ms: seq<string>, configured: seq<string>)
    requires forall m :: m in ms ==> m in configured
    ensures Keep(ms, configured) == ms
  {
    if |ms| > 0 {
      KeepAll(ms[..|ms| - 1], configured);
      assert ms == ms[..|ms| - 1] + [ms[|ms| - 1]];
    }
  }

  lemma {:induction false} KeepOnly(ms: seq<string>, configured: seq<string>)
    ensures forall m :: m in Keep(ms, configured) <==> m in ms && m in configured
    ensures NoDuplicates(ms) ==> NoDuplicates(Keep(ms, configured))
    ensures |Keep(ms, configured)| <= |ms|
  {
    if |ms| > 0 {
      var pre := ms[..|ms| - 1];
      KeepOnly(pre, configured);
      assert ms == pre + [ms[|ms| - 1]];
    }
  }

  /** More than one market, none twice, no surrounding blanks. */
  predicate Configuration(configured: seq<string>) {
    |configured| > 1 && NoDuplicates(configured)
    && forall m :: m in configured ==> m != "" && Strip(m) == m
  }

  /** The list and the old field are in step and name configured markets only. */
  predicate Clean(s: State, configured: seq<string>) {
    s.legacy == Newest(s.blocked) && forall m :: m in s.blocked ==> m in configured
  }

  lemma {:induction false} CleanStays(s: State, configured: seq<string>)
    requires Configuration(configured) && Clean(s, configured)
    ensures Refresh(s, configured) == s
  {
    KeepAll(s.blocked, configured);
    if |s.blocked| > 0 {
      assert s.blocked[|s.blocked| - 1] in s.blocked;
    }
  }

  // ------------------------------------------------------------------------- whole runs

  datatype Event = Settled(symbol: string, outcome: Outcome) | Bought(symbol: string)

  function Next(s: State, configured: seq<string>, e: Event): State {
    match e
    case Settled(symbol, outcome) => Register(s, configured, symbol, outcome)
    case Bought(symbol) => Purchased(s, configured, symbol)
  }

  /** The n - 1 most recently lost markets, oldest loss first. */
  function RecentlyLost(losses: seq<string>, n: nat): seq<string>
    requires n > 0
  {
    Tail(Recency(losses), n - 1)
  }

  /** The losses since the last release: a win, or a purchase on a market that is not
      among the recently lost. */
  function LossesSince(losses: seq<string>, n: nat, e: Event): seq<string>
    requires n > 0
  {
    match e
    case Settled(symbol, outcome) =>
      if outcome.Win? then [] else if outcome.Loss? then losses + [symbol] else losses
    case Bought(symbol) => if symbol in RecentlyLost(losses, n) then losses else []
  }

  function Run(configured: seq<string>, es: seq<Event>): State {
    if |es| == 0 then State([], "") else Next(Run(configured, es[..|es| - 1]), configured, es[|es| - 1])
  }

  function Losses(n: nat, es: seq<Event>): seq<string>
    requires n > 0
  {
    if |es| == 0 then [] else LossesSince(Losses(n, es[..|es| - 1]), n, es[|es| - 1])
  }

  /** Every lost market is a configured one. */
  predicate KnownLosses(configured: seq<string>, es: seq<Event>) {
    forall e :: e in es && e.Settled? && e.outcome.Loss? ==> e.symbol in configured
  }

  predicate Mirrors(s: State, configured: seq<string>, losses: seq<string>)
    requires |configured| > 0
  {
    Clean(s, configured) && s.blocked == RecentlyLost(losses, |configured|)
  }

  lemma {:induction false} LossMirrors(s: State, configured: seq<string>, losses: seq<string>, symbol: string)
    requires Configuration(configured) && symbol in configured
    requires Mirrors(s, configured, losses)
    ensures Mirrors(Register(s, configured, symbol, Loss), configured, losses + [symbol])
  {
    RegisterLoss(s, configured, symbol);
    RecencyIsByLastLoss(losses);
    TailStep(Recency(losses), symbol, |configured| - 1);
    assert (losses + [symbol])[..|losses|] == losses;
    hide ByLastLoss, Configuration, NoDuplicates, Clean, Register, Without, Tail;
  }

  lemma {:induction false} RegisterLoss(s: State, configured: seq<string>, symbol: string)
    requires Configuration(configured) && Clean(s, configured) && symbol in configured
    ensures var appended, after := Without(s.blocked, symbol) + [symbol], Register(s, configured, symbol, Loss);
            Clean(after, configured)
            && after.blocked == if |appended| >= |configured| then appended[1..] else appended
  {
    CleanStays(s, configured);
    hide Refresh, Strip, Without, NoDuplicates;
  }

  lemma {:induction false} PurchaseMirrors(s: State, configured: seq<string>, losses: seq<string>, symbol: string)
    requires Configuration(configured) && Mirrors(s, configured, losses)
    ensures Mirrors(Purchased(s, configured, symbol), configured, LossesSince(losses, |configured|, Bought(symbol)))
  {
    CleanStays(s, configured);
  }

  /** With two or more configured markets the blocked list always is the n - 1 most
      recently lost markets since the last release, in order of last loss. */
  lemma {:induction false} BlockedIsRecentlyLost(configured: seq<string>, es: seq<Event>)
    requires Configuration(configured) && KnownLosses(configured, es)
    ensures Mirrors(Run(configured, es), configured, Losses(|configured|, es))
  {
    if |es| > 0 {
      var pre, e := es[..|es| - 1], es[|es| - 1];
      BlockedIsRecentlyLost(configured, pre);
      var s, losses := Run(configured, pre), Losses(|configured|, pre);
      hide Mirrors, Configuration;
      if e.Bought? {
        PurchaseMirrors(s, configured, losses, e.symbol);
      } else if e.outcome.Loss? {
        assert e in es;
        LossMirrors(s, configured, losses, e.symbol);
      } else {
        QuietMirrors(s, configured, losses, e);
      }
    }
  }

  lemma {:induction false} QuietMirrors(s: State, configured: seq<string>, losses: seq<string>, e: Event)
    requires Configuration(configured) && Mirrors(s, configured, losses)
    requires e.Settled? && !e.outcome.Loss?
    ensures Mirrors(Next(s, configured, e), configured, LossesSince(losses, |configured|, e))
  {
    CleanStays(s, configured);
  }

  lemma {:induction false} Pigeonhole(some: seq<string>, all: seq<string>)
    requires NoDuplicates(all) && |some| < |all|
    ensures exists m :: m in all && m !in some
  {
    if |some| > 0 {
      var n := |some| - 1;
      assert some == some[..n] + [some[n]];
      WithoutKeepsOrder(all, some[n]);
      Pigeonhole(some[..n], Without(all, some[n]));
      var m :| m in Without(all, some[n]) && m !in some[..n];
      assert m in all && m !in some;
    } else {
      assert all[0] in all;
    }
  }

  /** No market is listed twice and one is always eligible. */
  lemma {:induction false} OneMarketEligible(configured: seq<string>, es: seq<Event>)
    requires Configuration(configured) && KnownLosses(configured, es)
    ensures NoDuplicates(Run(configured, es).blocked)
    ensures exists m :: m in configured && m !in Refresh(Run(configured, es), configured).blocked
  {
    var s := Run(configured, es);
    BlockedIsRecentlyLost(configured, es);
    RecencyIsByLastLoss(Losses(|configured|, es));
    CleanStays(s, configured);
    hide Run, Refresh, Strip, ByLastLoss;
    Pigeonhole(s.blocked, configured);
  }

  /** A loss on a market that is not configured keeps the list exactly while it has
      room: on a full list the oldest blocked market is set free.  A name that is a
      configured one but for surrounding blanks comes back through the old field. */
  lemma {:induction false} UnknownLossExactly(s: State, configured: seq<string>, symbol: string)
    requires Configuration(configured) && Clean(s, configured) && NoDuplicates(s.blocked)
    requires symbol !in configured && |s.blocked| < |configured|
    ensures var after := Refresh(Register(s, configured, symbol, Loss), configured);
            var known := Surviving(s, configured);
            var name := Strip(symbol);
            after.blocked == known + (if name in configured && name !in known then [name] else [])
    ensures Strip(symbol) !in configured ==>
              (Refresh(Register(s, configured, symbol, Loss), configured).blocked == s.blocked
               <==> |s.blocked| < |configured| - 1)
  {
    UnknownRegistered(s, configured, symbol);
    StrippedUnknown(Surviving(s, configured), configured, symbol);
    hide Register, Refresh, Strip, NoDuplicates, Configuration, Clean;
  }

  /** What a loss on one more market leaves of a list. */
  function Surviving(s: State, configured: seq<string>): seq<string>
    requires |s.blocked| < |configured|
  {
    if |s.blocked| == |configured| - 1 && |s.blocked| > 0 then s.blocked[1..] else s.blocked
  }

  lemma {:induction false} UnknownRegistered(s: State, configured: seq<string>, symbol: string)
    requires Configuration(configured) && Clean(s, configured)
    requires symbol !in configured && |s.blocked| < |configured|
    ensures var known := Surviving(s, configured);
            Register(s, configured, symbol, Loss) == State(known + [symbol], symbol)
    ensures forall m :: m in Surviving(s, configured) ==> m in configured
  {
    CleanStays(s, configured);
    WithoutAbsent(s.blocked, symbol);
    hide Refresh, Strip, Without, NoDuplicates;
    var appended := s.blocked + [symbol];
    if |appended| >= |configured| {
      assert appended[1..] == s.blocked[1..] + [symbol];
    }
  }

  lemma {:induction false} StrippedUnknown(known: seq<string>, configured: seq<string>, symbol: string)
    requires Configuration(configured) && symbol !in configured
    requires forall m :: m in known ==> m in configured
    ensures var name := Strip(symbol);
            Refresh(State(known + [symbol], symbol), configured).blocked
            == known + (if name in configured && name !in known then [name] else [])
  {
    var name := Strip(symbol);
    hide Strip;
    KeepAll(known, configured);
    KeepOneMore(known, configured, symbol);
    KeepOneMore(known + [symbol], configured, name);
  }

  lemma {:induction false} KeepOneMore(ms: seq<string>, configured: seq<string>, m: string)
    ensures Keep(ms + [m], configured) == Keep(ms, configured) + if m in configured then [m] else []
  {
    assert (ms + [m])[..|ms|] == ms;
  }

  // ------------------------------------------------------------------------ in place

  class MarketRotation {
    var blocked: seq<string>
    var legacy: string
    const configured: seq<string>

    constructor (symbols: seq<string>)
      ensures configured == symbols && Abstract() == State([], "")
    {
      configured, blocked, legacy := symbols, [], "";
    }

    ghost function Abstract(): State
      reads this
    {
      State(blocked, legacy)
    }

    /** `_loss_rotation_markets`: the field is cleaned before it is read. */
    method LossRotationMarkets() returns (markets: seq<string>)
      modifies this
      ensures Abstract() == Refresh(old(Abstract()), configured) && markets == blocked
    {
      var stripped := Strip(legacy);
      if stripped != "" && stripped !in blocked {
        blocked := blocked + [stripped];
      }
      if |configured| > 0 {
        ghost var merged := blocked;
        var kept := [];
        for i := 0 to |blocked|
          invariant blocked == merged
          invariant kept == Keep(merged[..i], configured)
          invariant legacy == old(legacy)
        {
          assert merged[..i + 1][..i] == merged[..i];
          if blocked[i] in configured {
            kept := kept + [blocked[i]];
          }
        }
        assert merged[..|merged|] == merged;
        blocked := kept;
      }
      legacy := if |blocked| > 0 then blocked[|blocked| - 1] else "";
      markets := blocked;
    }

    method RegisterExecutionMarketOutcome(symbol: string, outcome: Outcome)
      modifies this
      ensures Abstract() == Register(old(Abstract()), configured, symbol, outcome)
    {
      var markets := LossRotationMarkets();
      if outcome.Win? {
        if |markets| > 0 {
          blocked, legacy := [], "";
        }
        return;
      }
      if !outcome.Loss? {
        return;
      }
      if symbol in blocked {
        blocked := Without(blocked, symbol);
      } else {
        WithoutAbsent(blocked, symbol);
      }
      blocked := blocked + [symbol];
      if |configured| > 1 && |blocked| >= |configured| {
        blocked := blocked[1..];
      }
      legacy := if |blocked| > 0 then blocked[|blocked| - 1] else "";
    }

    method CompleteMarketRotationAfterPurchase(symbol: string)
      modifies this
      ensures Abstract() == Purchased(old(Abstract()), configured, symbol)
    {
      var markets := LossRotationMarkets();
      if |markets| == 0 || symbol in markets {
        return;
      }
      blocked, legacy := [], "";
    }
  }
}
