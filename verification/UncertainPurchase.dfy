/** The uncertain-purchase protocol of one account:
    app/custom_execution_consistency_authority.py over
    app/account_execution_session.py and app/custom_strategy_direct_runtime.py.

    Prices are cents, times are whole seconds.  The clock, the network and the
    provider are part of the state: a BUY on the wire may execute late, and an
    executed deal enters the provider's history when it becomes visible. */
module UncertainPurchase {

  const OBSERVATION_SECONDS := 75
  const MATCH_SECONDS := 45

  datatype Option<T> = None | Some(value: T)

  // ------------------------------------------------------------- matching history

  /** One history entry as the account reads it: fields that do not parse make it
      malformed, a missing purchase time reads as 0, a missing id as none. */
  datatype Tx = Malformed | Tx(contract: Option<nat>, price: int, time: int)

  datatype Order = Order(stake: int, requestedAt: int)

  function Abs(x: int): nat { if x < 0 then -x else x }

  /** Within one cent of the stake and, when dated, within 45 seconds. */
  predicate Matches(tx: Tx, order: Order) {
    tx.Tx? && Abs(tx.price - order.stake) <= 1
    && (tx.time == 0 || Abs(tx.time - order.requestedAt) <= MATCH_SECONDS)
  }

  function Matching(txs: seq<Tx>, order: Order): seq<Tx> {
    if |txs| == 0 then []
    else Matching(txs[..|txs| - 1], order)
         + if Matches(txs[|txs| - 1], order) then [txs[|txs| - 1]] else []
  }

  function Unique(txs: seq<Tx>, order: Order): Option<Tx> {
    var found := Matching(txs, order);
    if |found| == 1 then Some(found[0]) else None
  }

  /** `_candidate_from_transactions` */
  method CandidateFromTransactions(txs: seq<Tx>, order: Order) returns (candidate: Option<Tx>)
    ensures candidate == Unique(txs, order)
  {
    var candidates := [];
    for i := 0 to |txs|
      invariant candidates == Matching(txs[..i], order)
    {
      assert txs[..i + 1][..i] == txs[..i];
      var tx := txs[i];
      if tx.Malformed? || Abs(tx.price - order.stake) > 1 {
        continue;
      }
      if tx.time != 0 && Abs(tx.time - order.requestedAt) > MATCH_SECONDS {
        continue;
      }
      candidates := candidates + [tx];
    }
    assert txs[..|txs|] == txs;
    if |candidates| == 1 {
      return Some(candidates[0]);
    }
    return None;
  }

  lemma {:induction false} NoMatch(txs: seq<Tx>, order: Order)
    requires forall j :: 0 <= j < |txs| ==> !Matches(txs[j], order)
    ensures Matching(txs, order) == []
  {
    if |txs| > 0 {
      NoMatch(txs[..|txs| - 1], order);
    }
  }

  lemma {:induction false} MatchingSplits(a: seq<Tx>, b: seq<Tx>, order: Order)
    ensures Matching(a + b, order) == Matching(a, order) + Matching(b, order)
  {
    if |b| == 0 {
      assert a + b == a;
    } else {
      var n := |b| - 1;
      MatchingSplits(a, b[..n], order);
      assert (a + b)[..|a + b| - 1] == a + b[..n];
    }
  }

  /** A candidate is returned exactly when one position, and only one, matches. */
  lemma {:induction false} UniqueExactly(txs: seq<Tx>, order: Order, i: nat)
    requires i < |txs| && Matches(txs[i], order)
    ensures Unique(txs, order) == Some(txs[i])
       <== (forall j :: 0 <= j < |txs| && j != i ==> !Matches(txs[j], order))
    ensures Unique(txs, order).Some?
       ==> (forall j :: 0 <= j < |txs| && j != i ==> !Matches(txs[j], order))
  {
    assert txs == txs[..i] + [txs[i]] + txs[i + 1..];
    MatchingSplits(txs[..i] + [txs[i]], txs[i + 1..], order);
    MatchingSplits(txs[..i], [txs[i]], order);
    assert Matching([txs[i]], order) == [txs[i]] by { assert ([txs[i]])[..0] == []; }
    if forall j :: 0 <= j < |txs| && j != i ==> !Matches(txs[j], order) {
      NoMatch(txs[..i], order);
      NoMatch(txs[i + 1..], order);
    } else {
      var j :| 0 <= j < |txs| && j != i && Matches(txs[j], order);
      if j < i { MatchCounted(txs[..i], order, j); } else { MatchCounted(txs[i + 1..], order, j - i - 1); }
    }
  }

  lemma {:induction false} MatchCounted(txs: seq<Tx>, order: Order, j: nat)
    requires j < |txs| && Matches(txs[j], order)
    ensures |Matching(txs, order)| >= 1
  {
    if j < |txs| - 1 {
      MatchCounted(txs[..|txs| - 1], order, j);
    }
  }

  /** A reply to one history request. */
  datatype Reply = Failed | Transactions(txs: seq<Tx>)

  function CandidateId(reply: Reply, order: Order): Option<nat> {
    if reply.Failed? then None
    else
      match Unique(reply.txs, order)
      case Some(Tx(contract, _, _)) => contract
      case _ => None
  }

  /** `_find_ambiguous_purchase`: the portfolio first, then the profit table. */
  function Find(portfolio: Reply, profits: Reply, order: Order): Option<nat> {
    var first := CandidateId(portfolio, order);
    if first.Some? then first else CandidateId(profits, order)
  }

  // -------------------------------------------------------------------- the account

  datatype Deal = Deal(price: int, time: int, isOpen: bool, visible: bool)

  /** The execution task of the account: none, before BUY, or awaiting its reply. */
  datatype Task = Idle | Planned | Sent(order: Order)

  /** A running reconciliation: the order it looks for and the time it started. */
  datatype Watch = Watch(order: Order, started: int)

  /** What `register_purchase` came to: recorded; refused by the database, which
      still leaves the contract monitored; or refused before anything was stored. */
  datatype Registration = Recorded | DatabaseRefused | NotPrepared

  /** `locked` and `reconciling` are the account's entries in the ambiguity set and
      the reconcile task map; `monitored` are the pending contracts of its private
      session and `durable` the contracts with a Trade row; `wire` is a BUY sent but
      not yet executed or lost; `hidden` is the executed deal of the latest BUY while
      nobody has registered it; `book` is the provider's view. */
  datatype State = State(
    now: int,
    enabled: bool,
    task: Task,
    locked: bool,
    reconciling: Option<Watch>,
    monitored: set<nat>,
    durable: set<nat>,
    wire: Option<Order>,
    hidden: Option<nat>,
    book: map<nat, Deal>)

  datatype Step =
    | Tick(seconds: nat)
    | Launch
    | SendBuy(stake: int)
    | Execute(id: nat, time: int)
    | Lose
    | Acknowledged(registration: Registration)
    | ErrorReply
    | TimedOut
    | CancelTask
    | Iterate(portfolio: Reply, profits: Reply, registration: Registration)
    | LoopExit
    | CancelLoop
    | Reveal(id: nat)
    | Close(id: nat)
    | Settled(id: nat)
    | SetEnabled(value: bool)
    | Restart

  /** `open_actual_including_ambiguity` */
  predicate HasOpenActual(s: State) { s.locked || s.monitored != {} }

  function Register(s: State, id: nat, registration: Registration): State {
    if registration.NotPrepared? then s
    else s.(monitored := s.monitored + {id},
            durable := if registration.Recorded? then s.durable + {id} else s.durable,
            hidden := if s.hidden == Some(id) then None else s.hidden)
  }

  /** The `finally` of a reconciliation: the lock and its entry go together. */
  function Release(s: State): State { s.(locked := false, reconciling := None) }

  predicate Enabled(s: State, e: Step) {
    match e
    case Tick(_) => true
    case Launch => s.enabled && s.task.Idle? && !HasOpenActual(s)
    case SendBuy(_) => s.task.Planned?
    case Execute(id, _) => s.wire.Some? && id !in s.book
    case Lose => s.wire.Some?
    case Acknowledged(_) => s.task.Sent? && s.hidden.Some?
    case ErrorReply => s.task.Sent?
    case TimedOut => s.task.Sent?
    case CancelTask => !s.task.Idle?
    case Iterate(_, _, _) => s.reconciling.Some? && s.enabled
    case LoopExit => s.reconciling.Some? && !s.enabled
    case CancelLoop => s.reconciling.Some?
    case Reveal(id) => id in s.book
    case Close(id) => id in s.book
    case Settled(id) => id in s.monitored && (id in s.book ==> !s.book[id].isOpen)
    case SetEnabled(_) => true
    case Restart => true
  }

  /** The observation window of the running reconciliation is over. */
  predicate WindowOver(s: State) {
    s.reconciling.Some? && s.now - s.reconciling.value.started >= OBSERVATION_SECONDS
  }

  function Next(s: State, e: Step): State
    requires Enabled(s, e)
  {
    match e
    case Tick(seconds) => s.(now := s.now + seconds)
    case Launch => s.(task := Planned)
    case SendBuy(stake) => s.(task := Sent(Order(stake, s.now)), wire := Some(Order(stake, s.now)))
    case Execute(id, time) =>
      s.(wire := None, hidden := Some(id), book := s.book[id := Deal(s.wire.value.stake, time, true, false)])
    case Lose => s.(wire := None)
    case Acknowledged(registration) => Register(s, s.hidden.value, registration).(task := Idle)
    case ErrorReply => s.(task := Idle)
    case TimedOut =>
      s.(task := Idle, locked := true,
         reconciling := if s.reconciling.Some? then s.reconciling else Some(Watch(s.task.order, s.now)))
    case CancelTask => s.(task := Idle)
    case Iterate(portfolio, profits, registration) =>
      var found := Find(portfolio, profits, s.reconciling.value.order);
      if found.Some? then Release(Register(s, found.value, registration))
      else if WindowOver(s) then Release(s)
      else s
    case LoopExit => Release(s)
    case CancelLoop => Release(s)
    case Reveal(id) => s.(book := s.book[id := s.book[id].(visible := true)])
    case Close(id) => s.(book := s.book[id := s.book[id].(isOpen := false)])
    case Settled(id) => s.(monitored := s.monitored - {id})
    case SetEnabled(value) => s.(enabled := value)
    case Restart => Release(s).(task := Idle, monitored := s.monitored * s.durable)
  }

  // --------------------------------------------------------------------- safety

  /** A BUY that has left the account and is neither registered nor known dead. */
  predicate AtLarge(s: State) { s.wire.Some? || s.hidden.Some? }

  predicate Blocked(s: State) { s.locked || s.task.Sent? }

  /** Whatever is at large comes from this order. */
  predicate SameOrder(s: State, order: Order) {
    && (s.wire.Some? ==> s.wire.value == order)
    && (s.hidden.Some? && s.hidden.value in s.book ==> s.book[s.hidden.value].price == order.stake)
  }

  /** Nothing at large escapes the account's own knowledge: an unregistered BUY
      keeps the purchase waiting or the lock held, every other open deal is monitored,
      and a BUY under way is alone. */
  predicate Guarded(s: State) {
    && (AtLarge(s) ==> Blocked(s))
    && !(s.wire.Some? && s.hidden.Some?)
    && (s.hidden.Some? ==> s.hidden.value in s.book && s.hidden.value !in s.monitored)
    && (s.task.Sent? ==> SameOrder(s, s.task.order))
    && (s.reconciling.Some? ==> SameOrder(s, s.reconciling.value.order))
    && (forall id :: id in s.book && s.book[id].isOpen ==> id in s.monitored || s.hidden == Some(id))
    && (s.task.Planned? || Blocked(s) ==> s.monitored == {})
    && (s.task.Planned? ==> !s.locked)
    && (s.locked ==> s.task.Idle?)
    && (s.locked <==> s.reconciling.Some?)
    && (forall a, b :: a in s.monitored && b in s.monitored ==> a == b)
  }

  function OpenDeals(s: State): set<nat> {
    set id | id in s.book && s.book[id].isOpen
  }

  /** The steps at which the protocol itself lets a BUY at large go: a reply other
      than a timeout hides it, its registration is refused before anything is
      stored, the waiting task or the reconciliation is cancelled, the reconcile pass
      accepts another contract or gives up, the account is disabled while
      reconciling, or the process restarts (which also forgets a contract the
      database refused). */
  predicate Leaks(s: State, e: Step)
    requires Enabled(s, e)
  {
    match e
    case Acknowledged(registration) => registration.NotPrepared?
    case ErrorReply => AtLarge(s)
    case CancelTask => AtLarge(s)
    case Iterate(portfolio, profits, registration) =>
      var found := Find(portfolio, profits, s.reconciling.value.order);
      AtLarge(s) && (if found.Some? then found != s.hidden || registration.NotPrepared? else WindowOver(s))
    case LoopExit => AtLarge(s)
    case CancelLoop => AtLarge(s)
    case Restart => AtLarge(s) || exists id :: id in s.monitored && id !in s.durable && id in s.book && s.book[id].isOpen
    case _ => false
  }

  lemma IterateGuardedExactly(s: State, portfolio: Reply, profits: Reply, registration: Registration)
    requires Guarded(s) && s.reconciling.Some? && s.enabled
    ensures var e := Iterate(portfolio, profits, registration);
            Guarded(Next(s, e)) <==> !Leaks(s, e)
  {
  }

  lemma RestartGuardedExactly(s: State)
    requires Guarded(s)
    ensures Guarded(Next(s, Restart)) <==> !Leaks(s, Restart)
  {
  }

  lemma BookGuarded(s: State, e: Step)
    requires Guarded(s) && Enabled(s, e)
    requires e.Execute? || e.Reveal? || e.Close? || e.Settled?
    ensures Guarded(Next(s, e))
  {
  }

  lemma ReplyGuardedExactly(s: State, e: Step)
    requires Guarded(s) && Enabled(s, e)
    requires e.Acknowledged? || e.ErrorReply? || e.TimedOut? || e.CancelTask?
    ensures Guarded(Next(s, e)) <==> !Leaks(s, e)
  {
  }

  /** From a guarded state a step keeps the guard exactly when it is not a leak. */
  lemma {:induction false} GuardedExactly(s: State, e: Step)
    requires Guarded(s) && Enabled(s, e)
    ensures Guarded(Next(s, e)) <==> !Leaks(s, e)
  {
    match e
    case Iterate(portfolio, profits, registration) =>
      IterateGuardedExactly(s, portfolio, profits, registration);
    case Restart => RestartGuardedExactly(s);
    case Acknowledged(_) => ReplyGuardedExactly(s, e);
    case ErrorReply => ReplyGuardedExactly(s, e);
    case TimedOut => ReplyGuardedExactly(s, e);
    case CancelTask => ReplyGuardedExactly(s, e);
    case Execute(_, _) => BookGuarded(s, e);
    case Reveal(_) => BookGuarded(s, e);
    case Close(_) => BookGuarded(s, e);
    case Settled(_) => BookGuarded(s, e);
    case _ =>
  }

  lemma {:induction false} AtMostOneElement(a: set<nat>)
    requires forall x, y :: x in a && y in a ==> x == y
    ensures |a| <= 1
  {
    if a != {} {
      var x :| x in a;
      assert a == {x};
    }
  }

  /** A guarded account has at most one open real contract, and may launch or send a
      BUY only when none is open and none is at large. */
  lemma {:induction false} GuardedIsSafe(s: State)
    requires Guarded(s)
    ensures |OpenDeals(s)| <= 1
    ensures Enabled(s, Launch) || s.task.Planned? ==> OpenDeals(s) == {} && !AtLarge(s)
  {
    AtMostOneElement(OpenDeals(s));
  }

  /** An account with a clean session starts guarded. */
  lemma IdleIsGuarded(now: int, enabled: bool)
    ensures Guarded(State(now, enabled, Idle, false, None, {}, {}, None, None, map[]))
  {
  }

  predicate Possible(s: State, es: seq<Step>)
    decreases |es|
  {
    |es| == 0 || (Enabled(s, es[0]) && Possible(Next(s, es[0]), es[1..]))
  }

  function Run(s: State, es: seq<Step>): State
    requires Possible(s, es)
    decreases |es|
  {
    if |es| == 0 then s else Run(Next(s, es[0]), es[1..])
  }

  predicate LeakFree(s: State, es: seq<Step>)
    requires Possible(s, es)
    decreases |es|
  {
    |es| == 0 || (!Leaks(s, es[0]) && LeakFree(Next(s, es[0]), es[1..]))
  }

  predicate AlwaysGuarded(s: State, es: seq<Step>)
    requires Possible(s, es)
    decreases |es|
  {
    Guarded(s) && (|es| == 0 || AlwaysGuarded(Next(s, es[0]), es[1..]))
  }

  /** Whole runs: guarded throughout exactly when no step leaks. */
  lemma {:induction false} GuardedRuns(s: State, es: seq<Step>)
    requires Guarded(s) && Possible(s, es)
    ensures AlwaysGuarded(s, es) <==> LeakFree(s, es)
    decreases |es|
  {
    if |es| > 0 {
      GuardedExactly(s, es[0]);
      if Guarded(Next(s, es[0])) {
        GuardedRuns(Next(s, es[0]), es[1..]);
      }
    }
  }

  // ------------------------------------------------------------- what a pass registers

  /** The reply has exactly one entry that passes for the order, and it names the
      contract. */
  predicate Offers(reply: Reply, order: Order, id: nat) {
    reply.Transactions? &&
    exists i :: 0 <= i < |reply.txs| && Matches(reply.txs[i], order) && reply.txs[i].contract == Some(id)
                && forall j :: 0 <= j < |reply.txs| && j != i ==> !Matches(reply.txs[j], order)
  }

  lemma {:induction false} CandidateIsOffer(reply: Reply, order: Order, id: nat)
    ensures CandidateId(reply, order) == Some(id) <==> Offers(reply, order, id)
  {
    if reply.Transactions? {
      if Offers(reply, order, id) {
        var i :| 0 <= i < |reply.txs| && Matches(reply.txs[i], order) && reply.txs[i].contract == Some(id)
                 && forall j :: 0 <= j < |reply.txs| && j != i ==> !Matches(reply.txs[j], order);
        UniqueExactly(reply.txs, order, i);
      }
      if CandidateId(reply, order) == Some(id) {
        var i := MatchStands(reply.txs, order);
        UniqueExactly(reply.txs, order, i);
      }
    }
  }

  lemma {:induction false} MatchStands(txs: seq<Tx>, order: Order) returns (i: nat)
    requires Matching(txs, order) != []
    ensures i < |txs| && Matches(txs[i], order)
  {
    if Matches(txs[|txs| - 1], order) {
      i := |txs| - 1;
    } else {
      i := MatchStands(txs[..|txs| - 1], order);
    }
  }

  /** The portfolio outranks the profit table: a contract the portfolio offers is
      registered whatever the profit table holds, one that only the profit table offers
      is registered next, and without an offer nothing is. */
  lemma {:induction false} PassRegistersExactly(s: State, e: Step)
    requires e.Iterate? && Enabled(s, e) && !e.registration.NotPrepared?
    ensures var order, t := s.reconciling.value.order, Next(s, e);
            && (forall id: nat :: Offers(e.portfolio, order, id) ==> t.monitored == s.monitored + {id} && !t.locked)
            && (forall id: nat :: Offers(e.profits, order, id) && (forall other: nat :: !Offers(e.portfolio, order, other))
                 ==> t.monitored == s.monitored + {id} && !t.locked)
            && ((forall id: nat :: !Offers(e.portfolio, order, id) && !Offers(e.profits, order, id))
                 ==> t == if WindowOver(s) then s.(locked := false, reconciling := None) else s)
  {
    var order := s.reconciling.value.order;
    forall id: nat
      ensures CandidateId(e.portfolio, order) == Some(id) <==> Offers(e.portfolio, order, id)
      ensures CandidateId(e.profits, order) == Some(id) <==> Offers(e.profits, order, id)
    {
      CandidateIsOffer(e.portfolio, order, id);
      CandidateIsOffer(e.profits, order, id);
    }
    hide Offers, CandidateId;
    var first := CandidateId(e.portfolio, order);
    var second := CandidateId(e.profits, order);
    assert first.Some? ==> Offers(e.portfolio, order, first.value);
    assert second.Some? ==> Offers(e.profits, order, second.value);
  }

  // ------------------------------------------------------------- the environment

  function HistoryEntry(s: State, id: nat): Tx
    requires id in s.book
  {
    Tx(Some(id), s.book[id].price, s.book[id].time)
  }

  predicate ListsOnly(reply: Reply, s: State, open: bool)
    requires reply.Transactions?
  {
    forall i :: 0 <= i < |reply.txs| ==>
      reply.txs[i].Tx? && reply.txs[i].contract.Some?
      && var id := reply.txs[i].contract.value;
         id in s.book && s.book[id].visible && s.book[id].isOpen == open && reply.txs[i] == HistoryEntry(s, id)
  }

  predicate ListsOnce(reply: Reply)
    requires reply.Transactions?
  {
    forall i, j :: 0 <= i < j < |reply.txs| ==> reply.txs[i] != reply.txs[j]
  }

  /** A reply that arrives lists visible deals of its kind only, each once, and the
      hidden deal if that is one of them: open ones in the portfolio, closed ones in
      the profit table. */
  predicate Truthful(reply: Reply, s: State, open: bool) {
    reply.Transactions? ==>
      && ListsOnly(reply, s, open) && ListsOnce(reply)
      && (s.hidden.Some? && s.hidden.value in s.book
          && s.book[s.hidden.value].visible && s.book[s.hidden.value].isOpen == open
          ==> HistoryEntry(s, s.hidden.value) in reply.txs)
  }

  /** No other visible deal of the account passes for the order. */
  predicate NoneLike(s: State, order: Order) {
    forall id :: id in s.book && s.hidden != Some(id) && s.book[id].visible ==> !Matches(HistoryEntry(s, id), order)
  }

  /** The hidden deal is open and visible. */
  predicate ShownOpen(s: State) {
    s.hidden.Some? && s.hidden.value in s.book && s.book[s.hidden.value].visible && s.book[s.hidden.value].isOpen
  }

  /** The provider dates a deal within 45 seconds of the request, or not at all. */
  predicate Dated(time: int, order: Order) {
    time == 0 || Abs(time - order.requestedAt) <= MATCH_SECONDS
  }

  /** By the time the observation window is over, a BUY at large has executed and
      stands in the history. */
  predicate Timely(s: State) {
    WindowOver(s) && AtLarge(s) ==>
      s.hidden.Some? && s.hidden.value in s.book && s.book[s.hidden.value].visible
  }

  /** What the protocol asks of its surroundings, step by step: the account stays
      enabled and the process up, only a timeout hides a BUY, nobody cancels a task
      that waits for one, the account's session stays prepared, and the provider answers
      truthfully and in time.  A closed deal may resemble the order only while the
      portfolio shows the hidden deal. */
  predicate Fair(s: State, e: Step)
    requires Enabled(s, e)
  {
    match e
    case Tick(_) => Timely(Next(s, e))
    case Execute(_, time) => Dated(time, s.wire.value)
    case Acknowledged(registration) => !registration.NotPrepared?
    case ErrorReply => s.wire.None? && s.hidden.None?
    case CancelTask => s.task.Planned?
    case Iterate(portfolio, profits, registration) =>
      && !registration.NotPrepared?
      && Truthful(portfolio, s, true) && Truthful(profits, s, false)
      && (WindowOver(s) ==> !portfolio.Failed? && !profits.Failed?)
      && (AtLarge(s) ==> NoneLike(s, s.reconciling.value.order) || (ShownOpen(s) && !portfolio.Failed?))
    case CancelLoop => false
    case SetEnabled(value) => value
    case Restart => false
    case _ => true
  }

  predicate FairRun(s: State, es: seq<Step>)
    requires Possible(s, es)
    decreases |es|
  {
    |es| == 0 || (Fair(s, es[0]) && FairRun(Next(s, es[0]), es[1..]))
  }

  /** The hidden deal matches the order. */
  predicate Singled(s: State, order: Order) {
    s.hidden.Some? && s.hidden.value in s.book ==> Matches(HistoryEntry(s, s.hidden.value), order)
  }

  /** What a fair run keeps besides the guard. */
  predicate OnTrack(s: State) {
    && Guarded(s) && s.enabled && Timely(s)
    && (s.task.Sent? ==> Singled(s, s.task.order))
    && (s.reconciling.Some? ==> Singled(s, s.reconciling.value.order))
  }

  /** Nothing else that the list may hold passes for the order. */
  predicate NoneListed(s: State, open: bool, order: Order) {
    forall id :: id in s.book && s.hidden != Some(id) && s.book[id].visible && s.book[id].isOpen == open
      ==> !Matches(HistoryEntry(s, id), order)
  }

  /** A truthful list without the hidden deal offers no candidate; with it, that one. */
  lemma {:induction false} TruthfulCandidate(reply: Reply, s: State, open: bool, order: Order)
    requires Truthful(reply, s, open) && Singled(s, order) && NoneListed(s, open, order)
    requires s.hidden.Some? ==> s.hidden.value in s.book
    ensures CandidateId(reply, order).None? || CandidateId(reply, order) == s.hidden
    ensures reply.Transactions? && s.hidden.Some?
            && s.book[s.hidden.value].visible && s.book[s.hidden.value].isOpen == open
            ==> CandidateId(reply, order) == s.hidden
  {
    if reply.Transactions? {
      if s.hidden.Some? && HistoryEntry(s, s.hidden.value) in reply.txs {
        var i :| 0 <= i < |reply.txs| && reply.txs[i] == HistoryEntry(s, s.hidden.value);
        forall j | 0 <= j < |reply.txs| && j != i ensures !Matches(reply.txs[j], order) {
          assert reply.txs[j] != reply.txs[i];
        }
        UniqueExactly(reply.txs, order, i);
      } else {
        forall j | 0 <= j < |reply.txs| ensures !Matches(reply.txs[j], order) {
          assert reply.txs[j] in reply.txs;
        }
        NoMatch(reply.txs, order);
      }
    }
  }

  /** While an account is locked, the hidden deal is the only open one. */
  lemma OnlyHiddenIsOpen(s: State, order: Order)
    requires Guarded(s) && Blocked(s)
    ensures NoneListed(s, true, order)
  {
  }

  /** The hidden deal stands in the history and both requests of the pass are answered. */
  predicate Answered(s: State, e: Step) {
    && e.Iterate? && !e.portfolio.Failed? && !e.profits.Failed?
    && s.hidden.Some? && s.hidden.value in s.book && s.book[s.hidden.value].visible
  }

  /** Every pass over truthful replies finds nothing or the hidden deal; it finds it as
      soon as both requests are answered after the deal became visible, and when the
      window is over. */
  lemma {:induction false} PassFindsHidden(s: State, e: Step)
    requires e.Iterate? && OnTrack(s) && Enabled(s, e) && Fair(s, e) && AtLarge(s)
    ensures var found := Find(e.portfolio, e.profits, s.reconciling.value.order);
            (found.None? || found == s.hidden) && (WindowOver(s) || Answered(s, e) ==> found.Some?)
  {
    var order := s.reconciling.value.order;
    OnlyHiddenIsOpen(s, order);
    assert NoneLike(s, order) ==> NoneListed(s, false, order);
    hide CandidateId, Truthful, Singled, NoneListed;
    TruthfulCandidate(e.portfolio, s, true, order);
    if NoneLike(s, order) {
      TruthfulCandidate(e.profits, s, false, order);
    }
  }

  /** In a fair environment no step leaks. */
  lemma {:induction false} FairNeverLeaks(s: State, e: Step)
    requires OnTrack(s) && Enabled(s, e) && Fair(s, e)
    ensures !Leaks(s, e)
  {
    if e.Iterate? && AtLarge(s) {
      PassFindsHidden(s, e);
    }
    hide Find, Truthful, Singled, Guarded;
  }

  lemma {:induction false} FairKeepsTrack(s: State, e: Step)
    requires OnTrack(s) && Enabled(s, e) && Fair(s, e)
    ensures OnTrack(Next(s, e))
  {
    FairNeverLeaks(s, e);
    GuardedExactly(s, e);
    TimelyStays(s, e);
    SingledStays(s, e);
    hide Guarded, Singled, Timely, Next, Leaks;
    EnabledStays(s, e);
  }

  lemma EnabledStays(s: State, e: Step)
    requires s.enabled && Enabled(s, e) && Fair(s, e)
    ensures Next(s, e).enabled
  {
    hide Find, Truthful;
  }

  lemma TimelyStays(s: State, e: Step)
    requires OnTrack(s) && Enabled(s, e) && Fair(s, e)
    ensures Timely(Next(s, e))
  {
    hide Find, Truthful, Singled;
  }

  lemma SingledStays(s: State, e: Step)
    requires OnTrack(s) && Enabled(s, e) && Fair(s, e)
    ensures var t := Next(s, e);
            (t.task.Sent? ==> Singled(t, t.task.order))
            && (t.reconciling.Some? ==> Singled(t, t.reconciling.value.order))
  {
    hide Find, Truthful, Timely;
    FairNeverLeaks(s, e);
  }

  /** At most one real contract is open, and while the account plans or sends a BUY
      none is open and none is executed but unregistered or still on the wire. */
  predicate Safe(s: State) {
    && |OpenDeals(s)| <= 1
    && (Enabled(s, Launch) || s.task.Planned? ==> OpenDeals(s) == {} && !AtLarge(s))
  }

  predicate AlwaysSafe(s: State, es: seq<Step>)
    requires Possible(s, es)
    decreases |es|
  {
    && Safe(s)
    && (|es| == 0 ||
        (&& (es[0].SendBuy? ==> OpenDeals(s) == {} && !AtLarge(s))
         && AlwaysSafe(Next(s, es[0]), es[1..])))
  }

  /** On every run in a fair environment no second BUY is sent while an earlier one is
      executed but unregistered or still on the wire, and at most one real contract
      is open at any time. */
  lemma {:induction false} NoDuplicateBuy(s: State, es: seq<Step>)
    requires OnTrack(s) && Possible(s, es) && FairRun(s, es)
    ensures AlwaysSafe(s, es)
    decreases |es|
  {
    GuardedIsSafe(s);
    if |es| > 0 {
      FairKeepsTrack(s, es[0]);
      NoDuplicateBuy(Next(s, es[0]), es[1..]);
    }
  }

  /** An account without a session history is on track. */
  lemma IdleIsOnTrack(now: int)
    ensures OnTrack(State(now, true, Idle, false, None, {}, {}, None, None, map[]))
  {
  }

  /** ... and the same safety, for any environment, as long as no step leaks. */
  lemma {:induction false} LeakFreeRunsAreSafe(s: State, es: seq<Step>)
    requires Guarded(s) && Possible(s, es) && LeakFree(s, es)
    ensures AlwaysSafe(s, es)
    decreases |es|
  {
    GuardedIsSafe(s);
    if |es| > 0 {
      GuardedExactly(s, es[0]);
      LeakFreeRunsAreSafe(Next(s, es[0]), es[1..]);
    }
  }

  /** On a fair run a hidden BUY is registered, as the very deal that executed, by the
      first answered pass after the deal became visible, and at the latest by the pass
      that ends the window. */
  lemma {:induction false} UniqueMatchIsReconciled(s: State, es: seq<Step>, e: Step)
    requires OnTrack(s) && Possible(s, es + [e]) && FairRun(s, es + [e]) && Possible(s, es)
    requires var t := Run(s, es); e.Iterate? && AtLarge(t) && (WindowOver(t) || Answered(t, e))
    ensures var t := Run(s, es);
            && Enabled(t, e) && t.hidden.Some?
            && Next(t, e).monitored == {t.hidden.value} && Next(t, e).hidden.None? && !Next(t, e).locked
    decreases |es|
  {
    if |es| == 0 {
      assert (es + [e])[0] == e;
      PassFindsHidden(s, e);
    } else {
      assert (es + [e])[0] == es[0] && (es + [e])[1..] == es[1..] + [e];
      FairKeepsTrack(s, es[0]);
      UniqueMatchIsReconciled(Next(s, es[0]), es[1..], e);
    }
  }

  lemma {:induction false} RunOneMore(s: State, e: Step, es: seq<Step>)
    requires Enabled(s, e) && Fair(s, e) && Possible(Next(s, e), es) && FairRun(Next(s, e), es)
    ensures Possible(s, [e] + es) && FairRun(s, [e] + es) && Run(s, [e] + es) == Run(Next(s, e), es)
  {
    assert ([e] + es)[0] == e && ([e] + es)[1..] == es;
  }

  function IdleAt(now: int): State { State(now, true, Idle, false, None, {}, {}, None, None, map[]) }

  /** Locked after the timeout, the BUY still on the wire. */
  function TimedOutAt(stake: int, now: int): State {
    State(now, true, Idle, true, Some(Watch(Order(stake, now), now)), {}, {}, Some(Order(stake, now)), None, map[])
  }

  /** A second later, executed and visible. */
  function VisibleAt(stake: int, id: nat, now: int): State {
    State(now + 1, true, Idle, true, Some(Watch(Order(stake, now), now)), {}, {}, None, Some(id),
          map[id := Deal(stake, now, true, true)])
  }

  lemma {:induction false} SendAndTimeOut(stake: int, now: int, es: seq<Step>)
    requires Possible(TimedOutAt(stake, now), es) && FairRun(TimedOutAt(stake, now), es)
    ensures var all := [Launch] + ([SendBuy(stake)] + ([TimedOut] + es));
            Possible(IdleAt(now), all) && FairRun(IdleAt(now), all)
            && Run(IdleAt(now), all) == Run(TimedOutAt(stake, now), es)
  {
    var s1 := Next(IdleAt(now), Launch);
    var s2 := Next(s1, SendBuy(stake));
    RunOneMore(s2, TimedOut, es);
    RunOneMore(s1, SendBuy(stake), [TimedOut] + es);
    RunOneMore(IdleAt(now), Launch, [SendBuy(stake)] + ([TimedOut] + es));
  }

  lemma {:induction false} ExecuteAndShow(stake: int, id: nat, now: int, es: seq<Step>)
    requires Possible(VisibleAt(stake, id, now), es) && FairRun(VisibleAt(stake, id, now), es)
    ensures var all := [Execute(id, now)] + ([Tick(1)] + ([Reveal(id)] + es));
            Possible(TimedOutAt(stake, now), all) && FairRun(TimedOutAt(stake, now), all)
            && Run(TimedOutAt(stake, now), all) == Run(VisibleAt(stake, id, now), es)
  {
    var s4 := Next(TimedOutAt(stake, now), Execute(id, now));
    var s5 := Next(s4, Tick(1));
    assert Next(s5, Reveal(id)) == VisibleAt(stake, id, now);
    RunOneMore(s5, Reveal(id), es);
    RunOneMore(s4, Tick(1), [Reveal(id)] + es);
    RunOneMore(TimedOutAt(stake, now), Execute(id, now), [Tick(1)] + ([Reveal(id)] + es));
  }

  lemma {:induction false} PassOver(stake: int, id: nat, now: int)
    ensures var s := VisibleAt(stake, id, now);
            var pass := Iterate(Transactions([Tx(Some(id), stake, now)]), Transactions([]), Recorded);
            Possible(s, [pass] + []) && FairRun(s, [pass] + [])
            && Run(s, [pass] + []) == State(now + 1, true, Idle, false, None, {id}, {id}, None, None, s.book)
  {
    var s := VisibleAt(stake, id, now);
    var txs := [Tx(Some(id), stake, now)];
    var pass := Iterate(Transactions(txs), Transactions([]), Recorded);
    UniqueExactly(txs, Order(stake, now), 0);
    assert Find(pass.portfolio, pass.profits, Order(stake, now)) == Some(id);
    assert HistoryEntry(s, id) == txs[0];
    RunOneMore(s, pass, []);
  }

  /** A BUY that times out before it executes, is dated at once, and shows in the
      portfolio a second later. */
  function LostReply(stake: int, id: nat, now: int): seq<Step> {
    [Launch] + ([SendBuy(stake)] + ([TimedOut] + ([Execute(id, now)] + ([Tick(1)] + ([Reveal(id)]
    + ([Iterate(Transactions([Tx(Some(id), stake, now)]), Transactions([]), Recorded)] + []))))))
  }

  /** The fair runs are no empty class: such a run ends with the deal monitored and the
      account unlocked. */
  lemma {:induction false} TimeoutIsReconciled(stake: int, id: nat, now: int)
    ensures var es := LostReply(stake, id, now);
            && OnTrack(IdleAt(now)) && Possible(IdleAt(now), es) && FairRun(IdleAt(now), es)
            && var t := Run(IdleAt(now), es);
               t.monitored == {id} && t.hidden.None? && t.wire.None? && !t.locked
  {
    hide Possible, FairRun, Run, VisibleAt, TimedOutAt;
    var pass := Iterate(Transactions([Tx(Some(id), stake, now)]), Transactions([]), Recorded);
    PassOver(stake, id, now);
    ExecuteAndShow(stake, id, now, [pass] + []);
    SendAndTimeOut(stake, now, [Execute(id, now)] + ([Tick(1)] + ([Reveal(id)] + ([pass] + []))));
  }

  /** A closed trade of the same stake half a minute earlier does not disturb a pass whose
      portfolio shows the open one. */
  lemma LookAlikeIsOutranked(registration: Registration)
    requires !registration.NotPrepared?
    ensures var order := Order(100, 1000);
            var s := State(1002, true, Idle, true, Some(Watch(order, 1001)), {}, {}, None, Some(2),
                           map[1 := Deal(100, 970, false, true), 2 := Deal(100, 1001, true, true)]);
            var e := Iterate(Transactions([Tx(Some(2), 100, 1001)]), Transactions([Tx(Some(1), 100, 970)]), registration);
            && OnTrack(s) && Enabled(s, e) && Fair(s, e) && !NoneLike(s, order) && Next(s, e).monitored == {2}
  {
    var order := Order(100, 1000);
    var s := State(1002, true, Idle, true, Some(Watch(order, 1001)), {}, {}, None, Some(2),
                   map[1 := Deal(100, 970, false, true), 2 := Deal(100, 1001, true, true)]);
    var e := Iterate(Transactions([Tx(Some(2), 100, 1001)]), Transactions([Tx(Some(1), 100, 970)]), registration);
    assert Matches(HistoryEntry(s, 1), order);
    assert Offers(e.portfolio, order, 2) by {
      assert Matches(e.portfolio.txs[0], order);
    }
    PassRegistersExactly(s, e);
  }

  /** Without uniqueness the pass can accept the wrong contract: a closed deal of the
      same stake within 45 seconds stands in for a BUY still on the wire. */
  lemma StaleDealIsMistaken(order: Order, stale: nat)
    ensures var s := State(order.requestedAt, true, Idle, true, Some(Watch(order, order.requestedAt)), {}, {}, Some(order), None,
                           map[stale := Deal(order.stake, order.requestedAt - 10, false, true)]);
            var e := Iterate(Transactions([]), Transactions([Tx(Some(stale), order.stake, order.requestedAt - 10)]), Recorded);
            && Guarded(s) && Truthful(e.portfolio, s, true) && Truthful(e.profits, s, false)
            && Leaks(s, e) && Next(s, e).monitored == {stale} && !Next(s, e).locked
  {
    var txs := [Tx(Some(stale), order.stake, order.requestedAt - 10)];
    UniqueExactly(txs, order, 0);
    NoMatch([], order);
  }

  /** A task cancelled between its BUY and the reply leaves the executed deal unknown,
      and the account free to buy again. */
  lemma CancelledTaskForgetsBuy(now: int, stake: int, id: nat)
    ensures var s := State(now, true, Idle, false, None, {}, {}, None, None, map[]);
            var es := [Launch, SendBuy(stake), Execute(id, now), CancelTask];
            Possible(s, es) && Enabled(Run(s, es), Launch) && OpenDeals(Run(s, es)) == {id}
  {
    var s := State(now, true, Idle, false, None, {}, {}, None, None, map[]);
    var es := [Launch, SendBuy(stake), Execute(id, now), CancelTask];
    assert es[1..] == [SendBuy(stake), Execute(id, now), CancelTask];
    assert es[1..][1..] == [Execute(id, now), CancelTask];
    assert es[1..][1..][1..] == [CancelTask];
    assert es[1..][1..][1..][1..] == [];
    var s1 := Next(s, es[0]);
    var s2 := Next(s1, es[1]);
    var s3 := Next(s2, es[2]);
    var s4 := Next(s3, es[3]);
    assert Possible(s3, es[1..][1..][1..]) && Run(s3, es[1..][1..][1..]) == s4;
    assert Possible(s2, es[1..][1..]) && Run(s2, es[1..][1..]) == s4;
    assert Possible(s1, es[1..]) && Run(s1, es[1..]) == s4;
    assert id in OpenDeals(s4);
  }

  lemma {:induction false} RunStep(s: State, e: Step, es: seq<Step>)
    requires Enabled(s, e) && Possible(Next(s, e), es)
    ensures Possible(s, [e] + es) && Run(s, [e] + es) == Run(Next(s, e), es)
  {
    assert ([e] + es)[0] == e && ([e] + es)[1..] == es;
  }

  lemma {:induction false} LaunchSendTimeOut(stake: int, now: int, es: seq<Step>)
    requires Possible(TimedOutAt(stake, now), es)
    ensures var all := [Launch] + ([SendBuy(stake)] + ([TimedOut] + es));
            Possible(IdleAt(now), all) && Run(IdleAt(now), all) == Run(TimedOutAt(stake, now), es)
  {
    var s1 := Next(IdleAt(now), Launch);
    var s2 := Next(s1, SendBuy(stake));
    RunStep(s2, TimedOut, es);
    RunStep(s1, SendBuy(stake), [TimedOut] + es);
    RunStep(IdleAt(now), Launch, [SendBuy(stake)] + ([TimedOut] + es));
  }

  /** An open deal that nobody monitors, and an account free to buy again. */
  predicate Forgotten(s: State, id: nat) {
    id in OpenDeals(s) && id !in s.monitored && Enabled(s, Launch)
  }

  /** The BUY executes after the last of the steps. */
  function Late(id: nat, time: int): seq<Step> { [Execute(id, time)] + [] }

  lemma {:induction false} LateIsForgotten(s: State, id: nat, time: int)
    requires s.wire.Some? && s.book == map[] && s.monitored == {} && s.enabled && s.task.Idle? && !s.locked
    ensures Possible(s, Late(id, time)) && Forgotten(Run(s, Late(id, time)), id)
  {
    RunStep(s, Execute(id, time), []);
  }

  /** When the window ends before a BUY on the wire executes, the empty last pass lets go
      of the lock and the BUY is forgotten. */
  lemma {:induction false} WindowEndForgetsBuy(stake: int, id: nat, now: int)
    ensures var pass := Iterate(Transactions([]), Transactions([]), Recorded);
            var es := [Launch] + ([SendBuy(stake)] + ([TimedOut]
                      + ([Tick(OBSERVATION_SECONDS)] + ([pass] + Late(id, now + OBSERVATION_SECONDS)))));
            Possible(IdleAt(now), es) && Forgotten(Run(IdleAt(now), es), id)
  {
    hide Forgotten, Late;
    var pass := Iterate(Transactions([]), Transactions([]), Recorded);
    var s3 := TimedOutAt(stake, now);
    var s4 := Next(s3, Tick(OBSERVATION_SECONDS));
    var s5 := Next(s4, pass);
    LateIsForgotten(s5, id, now + OBSERVATION_SECONDS);
    RunStep(s4, pass, Late(id, now + OBSERVATION_SECONDS));
    RunStep(s3, Tick(OBSERVATION_SECONDS), [pass] + Late(id, now + OBSERVATION_SECONDS));
    LaunchSendTimeOut(stake, now, [Tick(OBSERVATION_SECONDS)] + ([pass] + Late(id, now + OBSERVATION_SECONDS)));
  }

  /** Disabling the account ends its reconciliation; enabled again, it has forgotten the
      BUY. */
  lemma {:induction false} DisableForgetsBuy(stake: int, id: nat, now: int)
    ensures var es := [Launch] + ([SendBuy(stake)] + ([TimedOut]
                      + ([SetEnabled(false)] + ([LoopExit] + ([SetEnabled(true)] + Late(id, now))))));
            Possible(IdleAt(now), es) && Forgotten(Run(IdleAt(now), es), id)
  {
    hide Forgotten, Late;
    var s3 := TimedOutAt(stake, now);
    var s4 := Next(s3, SetEnabled(false));
    var s5 := Next(s4, LoopExit);
    var s6 := Next(s5, SetEnabled(true));
    LateIsForgotten(s6, id, now);
    RunStep(s5, SetEnabled(true), Late(id, now));
    RunStep(s4, LoopExit, [SetEnabled(true)] + Late(id, now));
    RunStep(s3, SetEnabled(false), [LoopExit] + ([SetEnabled(true)] + Late(id, now)));
    LaunchSendTimeOut(stake, now, [SetEnabled(false)] + ([LoopExit] + ([SetEnabled(true)] + Late(id, now))));
  }

  /** So does a restart: the lock lives in memory only. */
  lemma {:induction false} RestartForgetsBuy(stake: int, id: nat, now: int)
    ensures var es := [Launch] + ([SendBuy(stake)] + ([TimedOut] + ([Restart] + Late(id, now))));
            Possible(IdleAt(now), es) && Forgotten(Run(IdleAt(now), es), id)
  {
    hide Forgotten, Late;
    var s3 := TimedOutAt(stake, now);
    LateIsForgotten(Next(s3, Restart), id, now);
    RunStep(s3, Restart, Late(id, now));
    LaunchSendTimeOut(stake, now, [Restart] + Late(id, now));
  }

  // --------------------------------------------------------- the bot's shared maps

  /** The ambiguity set and the map of running reconciliations, for all accounts. */
  class AmbiguityLock {
    var pending: set<nat>
    var tasks: map<nat, Watch>

    ghost predicate Valid()
      reads this
    {
      pending == tasks.Keys
    }

    /** The entries of one account are those of its state. */
    ghost predicate Shows(s: State, account: nat)
      reads this
    {
      && s.locked == (account in pending)
      && s.reconciling == if account in tasks then Some(tasks[account]) else None
    }

    constructor ()
      ensures Valid() && pending == {}
    {
      pending, tasks := {}, map[];
    }

    /** `_schedule_ambiguous_reconciliation`, the timeout step of the account: a running
        reconciliation is never replaced. */
    method Schedule(account: nat, order: Order, now: int, ghost s: State)
      requires Valid() && Shows(s, account) && s.task == Sent(order) && s.now == now
      modifies this
      ensures Valid() && Shows(Next(s, TimedOut), account)
      ensures pending == old(pending) + {account}
      ensures tasks == if account in old(tasks) then old(tasks) else old(tasks)[account := Watch(order, now)]
    {
      pending := pending + {account};
      if account !in tasks {
        tasks := tasks[account := Watch(order, now)];
      }
    }

    /** The `finally` of a reconciliation, however it ends. */
    method Finish(account: nat, ghost s: State)
      requires Valid() && Shows(s, account)
      modifies this
      ensures Valid() && Shows(Release(s), account)
      ensures pending == old(pending) - {account} && tasks == old(tasks) - {account}
    {
      pending := pending - {account};
      tasks := tasks - {account};
    }

    /** `open_actual_including_ambiguity`, given the account's monitored contracts. */
    method OpenActual(account: nat, monitored: set<nat>, ghost s: State) returns (busy: bool)
      requires Shows(s, account) && s.monitored == monitored
      ensures busy == HasOpenActual(s)
    {
      if account in pending {
        return true;
      }
      return monitored != {};
    }
  }
}
