/** Contract and signal bookkeeping of the worker: enhanced_bot.py
    (`_release_contract_runtime_state`, `_prune_stale_pending_contracts`,
    `handle_contract_update`) and `register_purchase` of
    app/account_execution_session.py.

    Contracts, signals and accounts are numbers; a settled contract's outcome is
    won or not.  The dictionary `pending_by_signal` keeps its insertion order. */
module ContractCycle {

  datatype Option<T> = None | Some(value: T)

  datatype Runtime = Runtime(
    sessions: map<nat, set<nat>>,
    unresolved: set<nat>,
    unregistered: set<nat>,
    pending: set<nat>,
    symbols: map<nat, nat>,
    startedAt: set<nat>,
    delayed: set<nat>,
    signalOf: map<nat, nat>,
    order: seq<nat>,
    bySignal: map<nat, set<nat>>,
    outcomes: map<nat, map<nat, bool>>,
    signalSymbols: map<nat, nat>)

  function Without(order: seq<nat>, s: nat): seq<nat> {
    if |order| == 0 then []
    else (if order[0] == s then [] else [order[0]]) + Without(order[1..], s)
  }

  /** The first signal, in insertion order, whose pending set holds the contract. */
  function Scan(order: seq<nat>, bySignal: map<nat, set<nat>>, c: nat): Option<nat> {
    if |order| == 0 then None
    else if order[0] in bySignal && c in bySignal[order[0]] then Some(order[0])
    else Scan(order[1..], bySignal, c)
  }

  function DropEverywhere(sessions: map<nat, set<nat>>, c: nat): map<nat, set<nat>> {
    map t | t in sessions :: sessions[t] - {c}
  }

  /** The contract leaves every owner set and map. */
  function Forget(rt: Runtime, c: nat): Runtime {
    rt.(sessions := DropEverywhere(rt.sessions, c),
        unresolved := rt.unresolved - {c},
        unregistered := rt.unregistered - {c},
        pending := rt.pending - {c},
        symbols := rt.symbols - {c},
        startedAt := rt.startedAt - {c},
        delayed := rt.delayed - {c},
        signalOf := rt.signalOf - {c})
  }

  /** What `_release_contract_runtime_state` returns: the signal, if any, and
      whether its cycle closed. */
  datatype Release = Release(signal: Option<nat>, closed: bool)

  /** The contract leaves its signal; the last one closes it. */
  function LeftSignal(rest: Runtime, c: nat, signal: Option<nat>): (Runtime, Release) {
    if signal.None? then (rest, Release(None, false))
    else if signal.value !in rest.bySignal then (rest, Release(signal, false))
    else
      var left := rest.bySignal[signal.value] - {c};
      if left != {} then (rest.(bySignal := rest.bySignal[signal.value := left]), Release(signal, false))
      else (rest.(bySignal := rest.bySignal - {signal.value}, order := Without(rest.order, signal.value)),
            Release(signal, true))
  }

  /** `_release_contract_runtime_state` */
  function Released(rt: Runtime, c: nat): (Runtime, Release) {
    LeftSignal(Forget(rt, c), c, if c in rt.signalOf then Some(rt.signalOf[c]) else Scan(rt.order, rt.bySignal, c))
  }

  /** `_clear_closed_signal_runtime_state` */
  function ClearSignal(rt: Runtime, s: nat): Runtime {
    rt.(outcomes := rt.outcomes - {s}, signalSymbols := rt.signalSymbols - {s})
  }

  function ReleaseAndClear(rt: Runtime, c: nat): Runtime {
    var (next, r) := Released(rt, c);
    if r.closed then ClearSignal(next, r.signal.value) else next
  }

  /** `setdefault(key, set()).add(c)` */
  function AddTo(table: map<nat, set<nat>>, key: nat, c: nat): map<nat, set<nat>> {
    table[key := (if key in table then table[key] else {}) + {c}]
  }

  /** The in-memory part of `register_purchase` once the Trade row is stored. */
  function Registered(rt: Runtime, c: nat, s: nat, symbol: nat, token: nat): Runtime {
    rt.(pending := rt.pending + {c},
        signalOf := rt.signalOf[c := s],
        symbols := rt.symbols[c := symbol],
        order := if s in rt.bySignal then rt.order else rt.order + [s],
        bySignal := AddTo(rt.bySignal, s, c),
        outcomes := if s in rt.outcomes then rt.outcomes else rt.outcomes[s := map[]],
        signalSymbols := rt.signalSymbols[s := symbol],
        sessions := AddTo(rt.sessions, token, c),
        startedAt := rt.startedAt + {c})
  }

  /** ... and when storing it fails: only the account is isolated. */
  function Unregistered(rt: Runtime, c: nat, token: nat): Runtime {
    rt.(unregistered := rt.unregistered + {c}, sessions := AddTo(rt.sessions, token, c),
        startedAt := rt.startedAt + {c})
  }

  predicate Watched(rt: Runtime, c: nat) {
    c in rt.pending || c in rt.unresolved || exists t :: t in rt.sessions && c in rt.sessions[t]
  }

  function Wins(outcomes: map<nat, bool>): set<nat> { set a | a in outcomes && outcomes[a] }

  function Losses(outcomes: map<nat, bool>): set<nat> { set a | a in outcomes && !outcomes[a] }

  /** `independent_execution_outcome`: the majority, or none on a tie. */
  function GroupOutcome(outcomes: map<nat, bool>): Option<bool> {
    if |Wins(outcomes)| == |Losses(outcomes)| then None
    else Some(|Wins(outcomes)| > |Losses(outcomes)|)
  }

  /** A shared strategy update: the signal and the group's result. */
  datatype Update = NoUpdate | SharedUpdate(signal: nat, won: bool)

  /** `handle_contract_update` for a terminal contract; `firstTime` is the answer of
      `settle_trade`, false for a duplicate or missing trade. */
  function Terminal(rt: Runtime, c: nat, account: nat, won: bool, firstTime: bool): (Runtime, Update) {
    if c in rt.unregistered then (Released(rt, c).0, NoUpdate)
    else if !Watched(rt, c) then (rt, NoUpdate)
    else if !firstTime then (ReleaseAndClear(rt, c), NoUpdate)
    else
      var noted :=
        if c !in rt.signalOf then rt
        else
          var s := rt.signalOf[c];
          rt.(outcomes := rt.outcomes[s := (if s in rt.outcomes then rt.outcomes[s] else map[])[account := won]]);
      var (next, r) := Released(noted, c);
      if !r.closed then (next, NoUpdate)
      else
        var s := r.signal.value;
        var group := GroupOutcome(if s in next.outcomes then next.outcomes[s] else map[account := won]);
        (ClearSignal(next, s), if group.Some? then SharedUpdate(s, group.value) else NoUpdate)
  }

  // -------------------------------------------------------------------- consistency

  /** The two views of "contract belongs to open signal" agree, and every open
      signal has a contract. */
  predicate Consistent(rt: Runtime) {
    && (forall c :: c in rt.signalOf ==> rt.signalOf[c] in rt.bySignal && c in rt.bySignal[rt.signalOf[c]])
    && (forall s, c :: s in rt.bySignal && c in rt.bySignal[s] ==> c in rt.signalOf && rt.signalOf[c] == s)
    && (forall s :: s in rt.bySignal ==> rt.bySignal[s] != {})
    && rt.unregistered !! rt.signalOf.Keys
  }

  /** No owner set or map still knows the contract. */
  predicate Gone(rt: Runtime, c: nat) {
    && (forall t :: t in rt.sessions ==> c !in rt.sessions[t])
    && c !in rt.unresolved && c !in rt.unregistered && c !in rt.pending && c !in rt.symbols
    && c !in rt.startedAt && c !in rt.delayed && c !in rt.signalOf
    && (forall s :: s in rt.bySignal ==> c !in rt.bySignal[s])
  }

  lemma {:induction false} ScanFindsNothing(order: seq<nat>, bySignal: map<nat, set<nat>>, c: nat)
    requires forall s :: s in bySignal ==> c !in bySignal[s]
    ensures Scan(order, bySignal, c).None?
  {
    if |order| > 0 {
      ScanFindsNothing(order[1..], bySignal, c);
    }
  }

  /** What a release leaves of the signals, apart from the contract's own traces. */
  lemma {:induction false} ReleaseShape(rt: Runtime, c: nat)
    requires Consistent(rt)
    ensures var (next, r) := Released(rt, c);
            && next == Forget(rt, c).(bySignal := next.bySignal, order := next.order)
            && r.signal == (if c in rt.signalOf then Some(rt.signalOf[c]) else None)
            && (r.closed <==> c in rt.signalOf && rt.bySignal[rt.signalOf[c]] == {c})
            && (forall s :: s in next.bySignal <==> s in rt.bySignal && !(r.closed && r.signal == Some(s)))
            && (forall s :: s in next.bySignal ==> next.bySignal[s] == rt.bySignal[s] - {c})
  {
    ForgetKeepsSignals(rt, c);
    hide Forget, Without;
    if c !in rt.signalOf {
      ScanFindsNothing(rt.order, rt.bySignal, c);
    }
    hide Scan;
  }

  lemma ForgetKeepsSignals(rt: Runtime, c: nat)
    ensures Forget(rt, c).bySignal == rt.bySignal && Forget(rt, c).order == rt.order
  {
  }

  lemma {:induction false} ForgottenIsGone(rt: Runtime, c: nat, next: Runtime)
    requires next == Forget(rt, c).(bySignal := next.bySignal, order := next.order)
    requires forall s :: s in next.bySignal ==> c !in next.bySignal[s]
    ensures Gone(next, c)
  {
  }

  lemma {:induction false} ForgottenIsConsistent(rt: Runtime, c: nat, next: Runtime, closed: Option<nat>)
    requires Consistent(rt) && next == Forget(rt, c).(bySignal := next.bySignal, order := next.order)
    requires closed.Some? ==> closed.value in rt.bySignal && rt.bySignal[closed.value] == {c}
    requires closed.None? ==> c in rt.signalOf ==> rt.bySignal[rt.signalOf[c]] != {c}
    requires forall s :: s in next.bySignal <==> s in rt.bySignal && closed != Some(s)
    requires forall s :: s in next.bySignal ==> next.bySignal[s] == rt.bySignal[s] - {c}
    ensures Consistent(next)
  {
    forall s | s in next.bySignal ensures next.bySignal[s] != {} {
      assert c in rt.bySignal[s] ==> c in rt.signalOf && rt.signalOf[c] == s;
      AnotherMember(rt.bySignal[s], c);
    }
  }

  lemma AnotherMember(members: set<nat>, c: nat)
    requires members != {} && members != {c}
    ensures members - {c} != {}
  {
    var some :| some in members;
    if members <= {c} {
      assert false;
    }
  }

  /** A release reports "closed" exactly at the signal's last contract, leaves no
      trace of the contract, and touches no other signal. */
  lemma {:induction false} ReleaseExactly(rt: Runtime, c: nat)
    requires Consistent(rt)
    ensures var (next, r) := Released(rt, c);
            && Consistent(next) && Gone(next, c)
            && r.signal == (if c in rt.signalOf then Some(rt.signalOf[c]) else None)
            && (r.closed <==> c in rt.signalOf && rt.bySignal[rt.signalOf[c]] == {c})
            && (r.closed ==> r.signal.value in rt.bySignal)
            && (forall s :: s in next.bySignal <==> s in rt.bySignal && !(r.closed && r.signal == Some(s)))
            && (forall s :: s in next.bySignal ==> next.bySignal[s] == rt.bySignal[s] - {c})
  {
    ReleaseShape(rt, c);
    hide Released, Forget, Gone;
    var (next, r) := Released(rt, c);
    ForgottenIsGone(rt, c, next);
    ForgottenIsConsistent(rt, c, next, if r.closed then r.signal else None);
  }

  lemma ForgetTwice(rt: Runtime, c: nat)
    requires Gone(rt, c)
    ensures Forget(rt, c) == rt
  {
    assert forall t :: t in rt.sessions ==> rt.sessions[t] - {c} == rt.sessions[t];
    assert DropEverywhere(rt.sessions, c) == rt.sessions;
    assert rt.symbols - {c} == rt.symbols && rt.signalOf - {c} == rt.signalOf;
  }

  /** Releasing again changes nothing and reports nothing. */
  lemma {:induction false} ReleaseIsIdempotent(rt: Runtime, c: nat)
    requires Consistent(rt)
    ensures Released(Released(rt, c).0, c) == (Released(rt, c).0, Release(None, false))
  {
    ReleaseExactly(rt, c);
    var next := Released(rt, c).0;
    ScanFindsNothing(next.order, next.bySignal, c);
    ForgetTwice(next, c);
  }

  // -------------------------------------------------------------------- whole runs

  datatype Step =
    | Register(c: nat, s: nat, symbol: nat, token: nat)
    | RegisterFails(c: nat, token: nat)
    | Settle(c: nat, account: nat, won: bool, firstTime: bool)
    | Prune(c: nat)
    | Isolate(c: nat)

  /** Contract ids are new when they are registered. */
  predicate Possible(rt: Runtime, e: Step) {
    match e
    case Register(c, _, _, _) => Gone(rt, c)
    case RegisterFails(c, _) => Gone(rt, c)
    case _ => true
  }

  function Next(rt: Runtime, e: Step): Runtime {
    match e
    case Register(c, s, symbol, token) => Registered(rt, c, s, symbol, token)
    case RegisterFails(c, token) => Unregistered(rt, c, token)
    case Settle(c, account, won, firstTime) => Terminal(rt, c, account, won, firstTime).0
    case Prune(c) => ReleaseAndClear(rt, c)
    case Isolate(c) => rt.(pending := rt.pending - {c})
  }

  /** The contract a step releases, if the step gets that far. */
  predicate Releases(rt: Runtime, e: Step) {
    match e
    case Settle(c, _, _, _) => c in rt.unregistered || Watched(rt, c)
    case Prune(_) => true
    case _ => false
  }

  /** 1 when the step reports the cycle of `s` closed. */
  function Closes(rt: Runtime, e: Step, s: nat): nat {
    if Releases(rt, e) && Released(rt, e.c).1 == Release(Some(s), true) then 1 else 0
  }

  /** 1 when the step registers the first contract of a cycle of `s`. */
  function Opens(rt: Runtime, e: Step, s: nat): nat {
    if e.Register? && e.s == s && s !in rt.bySignal then 1 else 0
  }

  /** 1 when the step applies the shared strategy update for `s`. */
  function Updates(rt: Runtime, e: Step, s: nat): nat {
    if e.Settle? && var u := Terminal(rt, e.c, e.account, e.won, e.firstTime).1; u.SharedUpdate? && u.signal == s
    then 1 else 0
  }

  function Live(rt: Runtime, s: nat): nat { if s in rt.bySignal then 1 else 0 }

  lemma ForgetNoted(rt: Runtime, c: nat, outcomes: map<nat, map<nat, bool>>)
    ensures Forget(rt.(outcomes := outcomes), c) == Forget(rt, c).(outcomes := outcomes)
    ensures Forget(rt, c).bySignal == rt.bySignal && Forget(rt, c).order == rt.order
  {
  }

  /** Noting an outcome changes neither the release nor the open signals. */
  lemma NotingIsHarmless(rt: Runtime, c: nat, outcomes: map<nat, map<nat, bool>>)
    ensures Released(rt.(outcomes := outcomes), c).1 == Released(rt, c).1
    ensures Released(rt.(outcomes := outcomes), c).0 == Released(rt, c).0.(outcomes := outcomes)
  {
    ForgetNoted(rt, c, outcomes);
    hide Scan, Forget;
    var signal := if c in rt.signalOf then Some(rt.signalOf[c]) else Scan(rt.order, rt.bySignal, c);
    LeftNoted(Forget(rt, c), c, signal, outcomes);
    hide LeftSignal;
  }

  lemma LeftNoted(rest: Runtime, c: nat, signal: Option<nat>, outcomes: map<nat, map<nat, bool>>)
    ensures LeftSignal(rest.(outcomes := outcomes), c, signal)
         == (LeftSignal(rest, c, signal).0.(outcomes := outcomes), LeftSignal(rest, c, signal).1)
  {
    hide Without;
  }

  /** A terminal update that gets through is a release with other outcome tables, and
      its shared update belongs to a closing. */
  lemma {:induction false} TerminalShape(rt: Runtime, e: Step)
    requires e.Settle?
    ensures var (next, u) := Terminal(rt, e.c, e.account, e.won, e.firstTime);
            if Releases(rt, e)
            then var (released, r) := Released(rt, e.c);
                 next == released.(outcomes := next.outcomes, signalSymbols := next.signalSymbols)
                 && (u.SharedUpdate? ==> r == Release(Some(u.signal), true))
            else next == rt && u == NoUpdate
  {
    assert Released(rt, e.c).1.closed ==> Released(rt, e.c).1.signal.Some?;
    hide Released;
    if e.c in rt.signalOf {
      var t := rt.signalOf[e.c];
      var noted := rt.outcomes[t := (if t in rt.outcomes then rt.outcomes[t] else map[])[e.account := e.won]];
      NotingIsHarmless(rt, e.c, noted);
    }
  }

  lemma OutcomeTablesAreApart(a: Runtime, b: Runtime, c: nat)
    requires a == b.(outcomes := a.outcomes, signalSymbols := a.signalSymbols)
    ensures Consistent(a) <==> Consistent(b)
    ensures Gone(a, c) <==> Gone(b, c)
    ensures a.bySignal == b.bySignal
  {
  }

  lemma {:induction false} SettleStep(rt: Runtime, e: Step, s: nat)
    requires Consistent(rt) && e.Settle?
    ensures Consistent(Next(rt, e))
    ensures Closes(rt, e, s) + Live(Next(rt, e), s) == Live(rt, s)
    ensures Updates(rt, e, s) <= Closes(rt, e, s)
    ensures Releases(rt, e) ==> Gone(Next(rt, e), e.c)
  {
    hide Released, Terminal, Consistent, Gone;
    TerminalShape(rt, e);
    if Releases(rt, e) {
      ReleaseExactly(rt, e.c);
      OutcomeTablesAreApart(Next(rt, e), Released(rt, e.c).0, e.c);
    }
  }

  lemma {:induction false} PruneStep(rt: Runtime, c: nat, s: nat)
    requires Consistent(rt)
    ensures Consistent(Next(rt, Prune(c))) && Gone(Next(rt, Prune(c)), c)
    ensures Closes(rt, Prune(c), s) + Live(Next(rt, Prune(c)), s) == Live(rt, s)
  {
    ReleaseExactly(rt, c);
  }

  /** Openings and closings of a signal balance at every step; an update needs a
      closing. */
  lemma {:induction false} StepBalances(rt: Runtime, e: Step, s: nat)
    requires Consistent(rt) && Possible(rt, e)
    ensures Consistent(Next(rt, e))
    ensures Closes(rt, e, s) + Live(Next(rt, e), s) == Opens(rt, e, s) + Live(rt, s)
    ensures Updates(rt, e, s) <= Closes(rt, e, s)
  {
    match e
    case Settle(_, _, _, _) => SettleStep(rt, e, s);
    case Prune(c) => PruneStep(rt, c, s);
    case Register(_, _, _, _) => RegisterStep(rt, e, s);
    case _ => hide Released, Terminal;
  }

  lemma {:induction false} RegisterStep(rt: Runtime, e: Step, s: nat)
    requires Consistent(rt) && Possible(rt, e) && e.Register?
    ensures Consistent(Next(rt, e))
    ensures Live(Next(rt, e), s) == Opens(rt, e, s) + Live(rt, s)
  {
    RegisteredIsConsistent(rt, e.c, e.s, e.symbol, e.token);
    hide Released, Terminal, Consistent, Gone;
  }

  /** The insertion order names every open signal once and nothing else. */
  predicate Ordered(rt: Runtime) {
    && (forall s :: s in rt.order ==> s in rt.bySignal) && (forall s :: s in rt.bySignal ==> s in rt.order)
    && forall i, j :: 0 <= i < j < |rt.order| ==> rt.order[i] != rt.order[j]
  }

  lemma {:induction false} WithoutExactly(order: seq<nat>, s: nat)
    ensures forall t :: t in Without(order, s) <==> t in order && t != s
  {
    if |order| > 0 {
      assert order == [order[0]] + order[1..];
      WithoutExactly(order[1..], s);
    }
  }

  lemma {:induction false} WithoutDistinct(order: seq<nat>, s: nat)
    requires forall i, j :: 0 <= i < j < |order| ==> order[i] != order[j]
    ensures forall i, j :: 0 <= i < j < |Without(order, s)| ==> Without(order, s)[i] != Without(order, s)[j]
  {
    if |order| > 0 {
      assert order[0] !in order[1..];
      WithoutExactly(order[1..], s);
      WithoutDistinct(order[1..], s);
    }
  }

  lemma {:induction false} ReleaseOrdered(rt: Runtime, c: nat)
    requires Consistent(rt) && Ordered(rt)
    ensures Ordered(Released(rt, c).0)
  {
    ReleaseExactly(rt, c);
    ForgetKeepsSignals(rt, c);
    if c in rt.signalOf {
      WithoutExactly(rt.order, rt.signalOf[c]);
      WithoutDistinct(rt.order, rt.signalOf[c]);
    } else {
      ScanFindsNothing(rt.order, rt.bySignal, c);
    }
    hide Forget, Scan, Without, Gone;
  }

  /** Every step keeps it, so a signal that reopens goes to the end. */
  lemma {:induction false} OrderStays(rt: Runtime, e: Step)
    requires Consistent(rt) && Possible(rt, e) && Ordered(rt)
    ensures Ordered(Next(rt, e))
  {
    if e.Settle? || e.Prune? {
      ReleaseOrdered(rt, e.c);
      if e.Settle? {
        TerminalShape(rt, e);
      }
      hide Released, Terminal, Consistent, Gone;
    } else {
      hide Released, Terminal, Consistent, Gone;
    }
  }

  predicate PossibleRun(rt: Runtime, es: seq<Step>)
    decreases |es|
  {
    |es| == 0 || (Possible(rt, es[0]) && PossibleRun(Next(rt, es[0]), es[1..]))
  }

  function Run(rt: Runtime, es: seq<Step>): Runtime
    decreases |es|
  {
    if |es| == 0 then rt else Run(Next(rt, es[0]), es[1..])
  }

  function TotalCloses(rt: Runtime, es: seq<Step>, s: nat): nat
    decreases |es|
  {
    if |es| == 0 then 0 else Closes(rt, es[0], s) + TotalCloses(Next(rt, es[0]), es[1..], s)
  }

  function TotalOpens(rt: Runtime, es: seq<Step>, s: nat): nat
    decreases |es|
  {
    if |es| == 0 then 0 else Opens(rt, es[0], s) + TotalOpens(Next(rt, es[0]), es[1..], s)
  }

  function TotalUpdates(rt: Runtime, es: seq<Step>, s: nat): nat
    decreases |es|
  {
    if |es| == 0 then 0 else Updates(rt, es[0], s) + TotalUpdates(Next(rt, es[0]), es[1..], s)
  }

  /** Over any order of updates, duplicates and prune passes, the closings reported
      for a signal are its openings less the one still open. */
  lemma {:induction false} RunBalances(rt: Runtime, es: seq<Step>, s: nat)
    requires Consistent(rt) && PossibleRun(rt, es)
    ensures Consistent(Run(rt, es))
    ensures TotalCloses(rt, es, s) + Live(Run(rt, es), s) == TotalOpens(rt, es, s) + Live(rt, s)
    ensures TotalUpdates(rt, es, s) <= TotalCloses(rt, es, s)
    decreases |es|
  {
    if |es| > 0 {
      StepBalances(rt, es[0], s);
      RunBalances(Next(rt, es[0]), es[1..], s);
    }
  }

  /** No contract of `s` is registered once the first of them has closed the cycle;
      `closed` remembers that it has. */
  predicate RegisteredFirst(rt: Runtime, es: seq<Step>, s: nat, closed: bool)
    decreases |es|
  {
    |es| == 0 ||
    (&& (es[0].Register? && es[0].s == s ==> !closed)
     && RegisteredFirst(Next(rt, es[0]), es[1..], s, closed || Closes(rt, es[0], s) == 1))
  }

  lemma {:induction false} OpenedAtMostOnce(rt: Runtime, es: seq<Step>, s: nat, closed: bool)
    requires Consistent(rt) && PossibleRun(rt, es) && RegisteredFirst(rt, es, s, closed)
    requires closed ==> s !in rt.bySignal
    ensures TotalOpens(rt, es, s) + Live(rt, s) <= 1
    ensures closed ==> TotalOpens(rt, es, s) == 0
    decreases |es|
  {
    if |es| > 0 {
      StepBalances(rt, es[0], s);
      OpenedAtMostOnce(Next(rt, es[0]), es[1..], s, closed || Closes(rt, es[0], s) == 1);
    }
  }

  /** When every contract of a signal is registered before its cycle closes, the
      cycle closes at most once, exactly when its contracts are all released, and
      the shared strategy update runs at most once. */
  lemma {:induction false} CycleClosesOnce(rt: Runtime, es: seq<Step>, s: nat)
    requires Consistent(rt) && PossibleRun(rt, es) && RegisteredFirst(rt, es, s, false)
    ensures TotalCloses(rt, es, s) <= 1 && TotalUpdates(rt, es, s) <= 1
    ensures TotalCloses(rt, es, s) == 1
       <==> TotalOpens(rt, es, s) + Live(rt, s) == 1 && s !in Run(rt, es).bySignal
  {
    OpenedAtMostOnce(rt, es, s, false);
    RunBalances(rt, es, s);
  }

  /** A cycle of `s` is opened a second time exactly when a contract of `s` is registered
      after the cycle has closed. */
  lemma {:induction false} ReopenedExactly(rt: Runtime, es: seq<Step>, s: nat, closed: bool)
    requires Consistent(rt) && PossibleRun(rt, es)
    requires closed ==> s !in rt.bySignal
    ensures RegisteredFirst(rt, es, s, closed)
       <==> if closed then TotalOpens(rt, es, s) == 0 else TotalOpens(rt, es, s) + Live(rt, s) <= 1
    decreases |es|
  {
    if |es| > 0 {
      var e, next := es[0], Next(rt, es[0]);
      StepBalances(rt, e, s);
      hide Consistent, Next, Possible;
      var after := closed || Closes(rt, e, s) == 1;
      if closed && Opens(rt, e, s) == 1 {
      } else {
        assert after ==> s !in next.bySignal;
        ReopenedExactly(next, es[1..], s, after);
      }
    }
  }

  /** The settlement of a signal's last contract, the first of its trade, with a majority
      among the outcomes noted and its own. */
  predicate Decides(rt: Runtime, e: Step, s: nat) {
    && e.Settle? && e.firstTime && e.c !in rt.unregistered && Watched(rt, e.c)
    && e.c in rt.signalOf && rt.signalOf[e.c] == s && s in rt.bySignal && rt.bySignal[s] == {e.c}
    && GroupOutcome((if s in rt.outcomes then rt.outcomes[s] else map[])[e.account := e.won]).Some?
  }

  lemma {:induction false} UpdatedExactly(rt: Runtime, e: Step, s: nat)
    requires Consistent(rt)
    ensures Updates(rt, e, s) == 1 <==> Decides(rt, e, s)
  {
    if e.Settle? && e.c !in rt.unregistered && Watched(rt, e.c) && e.firstTime {
      ReleaseExactly(rt, e.c);
      if e.c in rt.signalOf {
        var t := rt.signalOf[e.c];
        var noted := rt.outcomes[t := (if t in rt.outcomes then rt.outcomes[t] else map[])[e.account := e.won]];
        NotingIsHarmless(rt, e.c, noted);
        ReleaseKeepsOutcomes(rt.(outcomes := noted), e.c);
      }
      hide Released, Watched, GroupOutcome, Consistent, Gone;
    }
  }

  /** The step with this index decides. */
  predicate DecidesAt(rt: Runtime, es: seq<Step>, i: nat, s: nat)
    requires i < |es|
  {
    Decides(Run(rt, es[..i]), es[i], s)
  }

  lemma {:induction false} DecidesShift(rt: Runtime, es: seq<Step>, i: nat, s: nat)
    requires i + 1 < |es|
    ensures DecidesAt(rt, es, i + 1, s) <==> DecidesAt(Next(rt, es[0]), es[1..], i, s)
  {
    assert es[..i + 1][0] == es[0] && es[..i + 1][1..] == es[1..][..i];
    hide Decides, Next;
  }

  lemma {:induction false} UpdatesOnce(rt: Runtime, es: seq<Step>, s: nat)
    requires Consistent(rt) && PossibleRun(rt, es)
    ensures TotalUpdates(rt, es, s) >= 1 <==> exists i :: 0 <= i < |es| && DecidesAt(rt, es, i, s)
    decreases |es|
  {
    if |es| > 0 {
      FirstStep(rt, es, s);
      StepBalances(rt, es[0], s);
      UpdatesOnce(Next(rt, es[0]), es[1..], s);
      ShiftAll(rt, es, s);
      hide DecidesAt, Updates, Next, Consistent, Possible;
      if exists i :: 0 <= i < |es| - 1 && DecidesAt(Next(rt, es[0]), es[1..], i, s) {
        var i :| 0 <= i < |es| - 1 && DecidesAt(Next(rt, es[0]), es[1..], i, s);
        assert DecidesAt(rt, es, i + 1, s);
      }
      if exists i :: 0 < i < |es| && DecidesAt(rt, es, i, s) {
        var i :| 0 < i < |es| && DecidesAt(rt, es, i, s);
        assert DecidesAt(Next(rt, es[0]), es[1..], i - 1, s);
      }
    }
  }

  lemma {:induction false} FirstStep(rt: Runtime, es: seq<Step>, s: nat)
    requires Consistent(rt) && |es| > 0
    ensures Updates(rt, es[0], s) == 1 <==> DecidesAt(rt, es, 0, s)
  {
    UpdatedExactly(rt, es[0], s);
    assert es[..0] == [] && Run(rt, []) == rt;
    hide Updates, Decides;
  }

  lemma {:induction false} ShiftAll(rt: Runtime, es: seq<Step>, s: nat)
    requires |es| > 0
    ensures forall i :: 0 < i < |es| ==> (DecidesAt(rt, es, i, s) <==> DecidesAt(Next(rt, es[0]), es[1..], i - 1, s))
  {
    hide DecidesAt, Next;
    forall i | 0 < i < |es|
      ensures DecidesAt(rt, es, i, s) <==> DecidesAt(Next(rt, es[0]), es[1..], i - 1, s)
    {
      DecidesShift(rt, es, i - 1, s);
    }
  }

  /** A second shared update of a signal is applied exactly when two of its settlements
      decide, and only when a contract was registered after the cycle had closed. */
  lemma {:induction false} SecondUpdateExactly(rt: Runtime, es: seq<Step>, s: nat)
    requires Consistent(rt) && PossibleRun(rt, es)
    ensures TotalUpdates(rt, es, s) >= 2 <==>
            exists i, j :: 0 <= i < j < |es| && DecidesAt(rt, es, i, s) && DecidesAt(rt, es, j, s)
    ensures TotalUpdates(rt, es, s) >= 2 ==> !RegisteredFirst(rt, es, s, false)
    decreases |es|
  {
    if |es| > 0 {
      if RegisteredFirst(rt, es, s, false) {
        CycleClosesOnce(rt, es, s);
      }
      FirstStep(rt, es, s);
      StepBalances(rt, es[0], s);
      UpdatesOnce(Next(rt, es[0]), es[1..], s);
      SecondUpdateExactly(Next(rt, es[0]), es[1..], s);
      ShiftAll(rt, es, s);
      hide DecidesAt, Updates, Next, Consistent, Possible, RegisteredFirst;
      SplitPairs(rt, es, s);
    }
  }

  /** Two deciding steps: the first step and a later one, or two later ones. */
  lemma {:induction false} SplitPairs(rt: Runtime, es: seq<Step>, s: nat)
    requires |es| > 0
    ensures (exists i, j :: 0 <= i < j < |es| && DecidesAt(rt, es, i, s) && DecidesAt(rt, es, j, s))
       <==> var next, rest := Next(rt, es[0]), es[1..];
            (DecidesAt(rt, es, 0, s) && exists j :: 0 <= j < |rest| && DecidesAt(next, rest, j, s))
            || exists i, j :: 0 <= i < j < |rest| && DecidesAt(next, rest, i, s) && DecidesAt(next, rest, j, s)
  {
    ShiftAll(rt, es, s);
    hide DecidesAt;
    var next, rest := Next(rt, es[0]), es[1..];
    hide Next;
    if i, j :| 0 <= i < j < |es| && DecidesAt(rt, es, i, s) && DecidesAt(rt, es, j, s) {
      assert DecidesAt(next, rest, j - 1, s);
      if i > 0 {
        assert DecidesAt(next, rest, i - 1, s);
      }
    }
    if j :| 0 <= j < |rest| && DecidesAt(next, rest, j, s) {
      assert DecidesAt(rt, es, j + 1, s);
    }
    if i, j :| 0 <= i < j < |rest| && DecidesAt(next, rest, i, s) && DecidesAt(next, rest, j, s) {
      assert DecidesAt(rt, es, i + 1, s) && DecidesAt(rt, es, j + 1, s);
    }
  }

  // ------------------------------------------------------------------ the bot's fields

  class ContractBook {
    var sessions: map<nat, set<nat>>
    var unresolved: set<nat>
    var unregistered: set<nat>
    var pending: set<nat>
    var symbols: map<nat, nat>
    var startedAt: set<nat>
    var delayed: set<nat>
    var signalOf: map<nat, nat>
    var order: seq<nat>
    var bySignal: map<nat, set<nat>>
    var outcomes: map<nat, map<nat, bool>>
    var signalSymbols: map<nat, nat>

    function Snapshot(): Runtime
      reads this
    {
      Runtime(sessions, unresolved, unregistered, pending, symbols, startedAt, delayed, signalOf, order,
              bySignal, outcomes, signalSymbols)
    }

    /** `next(... for ... in pending_by_signal.items() if contract_id in pending)` */
    method FindSignal(c: nat) returns (signal: Option<nat>)
      ensures signal == Scan(order, bySignal, c)
    {
      var i := 0;
      while i < |order|
        invariant 0 <= i <= |order|
        invariant Scan(order, bySignal, c) == Scan(order[i..], bySignal, c)
      {
        assert order[i..][1..] == order[i + 1..];
        if order[i] in bySignal && c in bySignal[order[i]] {
          return Some(order[i]);
        }
        i := i + 1;
      }
      return None;
    }

    method LeaveOwners(c: nat)
      modifies this`sessions, this`unresolved, this`unregistered, this`pending
      ensures sessions == DropEverywhere(old(sessions), c) && unresolved == old(unresolved) - {c}
      ensures unregistered == old(unregistered) - {c} && pending == old(pending) - {c}
    {
      sessions := DropEverywhere(sessions, c);
      unresolved := unresolved - {c};
      unregistered := unregistered - {c};
      pending := pending - {c};
    }

    method ForgetContract(c: nat)
      modifies this
      ensures Snapshot() == Forget(old(Snapshot()), c)
    {
      hide DropEverywhere;
      LeaveOwners(c);
      symbols := symbols - {c};
      startedAt := startedAt - {c};
      delayed := delayed - {c};
      signalOf := signalOf - {c};
    }

    /** The last part of a release: the contract leaves its signal. */
    method LeaveSignal(c: nat, s: nat) returns (closed: bool)
      requires s in bySignal
      modifies this`bySignal, this`order
      ensures closed <==> old(bySignal)[s] - {c} == {}
      ensures bySignal == if closed then old(bySignal) - {s} else old(bySignal)[s := old(bySignal)[s] - {c}]
      ensures order == if closed then Without(old(order), s) else old(order)
    {
      var left := bySignal[s] - {c};
      closed := left == {};
      if closed {
        bySignal := bySignal - {s};
        order := Without(order, s);
      } else {
        bySignal := bySignal[s := left];
      }
    }

    /** `_release_contract_runtime_state` */
    method ReleaseContract(c: nat) returns (r: Release)
      modifies this
      ensures (Snapshot(), r) == Released(old(Snapshot()), c)
    {
      var signal := None;
      if c in signalOf {
        signal := Some(signalOf[c]);
      } else {
        signal := FindSignal(c);
      }
      ForgetContract(c);
      if signal.None? {
        return Release(None, false);
      }
      if signal.value !in bySignal {
        return Release(signal, false);
      }
      var closed := LeaveSignal(c, signal.value);
      return Release(signal, closed);
    }

    method ReleaseAndClearSignal(c: nat)
      modifies this
      ensures Snapshot() == ReleaseAndClear(old(Snapshot()), c)
    {
      var r := ReleaseContract(c);
      if r.closed {
        outcomes := outcomes - {r.signal.value};
        signalSymbols := signalSymbols - {r.signal.value};
      }
    }

    /** `setdefault` on the two tables of the signal. */
    method JoinSignal(c: nat, s: nat)
      modifies this`bySignal, this`order, this`outcomes
      ensures order == if s in old(bySignal) then old(order) else old(order) + [s]
      ensures bySignal == AddTo(old(bySignal), s, c)
      ensures outcomes == if s in old(outcomes) then old(outcomes) else old(outcomes)[s := map[]]
    {
      if s !in bySignal {
        order := order + [s];
      }
      bySignal := AddTo(bySignal, s, c);
      if s !in outcomes {
        outcomes := outcomes[s := map[]];
      }
    }

    /** The contract's own tables. */
    method OwnContract(c: nat, s: nat, symbol: nat, token: nat)
      modifies this`pending, this`signalOf, this`symbols, this`sessions, this`startedAt
      ensures pending == old(pending) + {c} && signalOf == old(signalOf)[c := s]
      ensures symbols == old(symbols)[c := symbol]
      ensures sessions == AddTo(old(sessions), token, c) && startedAt == old(startedAt) + {c}
    {
      pending := pending + {c};
      signalOf := signalOf[c := s];
      symbols := symbols[c := symbol];
      sessions := AddTo(sessions, token, c);
      startedAt := startedAt + {c};
    }

    /** The tables `register_purchase` fills. */
    method RegisterPurchase(c: nat, s: nat, symbol: nat, token: nat)
      modifies this
      ensures Snapshot() == Registered(old(Snapshot()), c, s, symbol, token)
    {
      hide AddTo;
      OwnContract(c, s, symbol, token);
      JoinSignal(c, s);
      signalSymbols := signalSymbols[s := symbol];
    }

    /** `handle_contract_update` for a terminal contract. */
    method HandleTerminal(c: nat, account: nat, won: bool, firstTime: bool) returns (update: Update)
      modifies this
      ensures (Snapshot(), update) == Terminal(old(Snapshot()), c, account, won, firstTime)
    {
      update := NoUpdate;
      if c in unregistered {
        var _ := ReleaseContract(c);
        return;
      }
      if !Watched(Snapshot(), c) {
        return;
      }
      if !firstTime {
        ReleaseAndClearSignal(c);
        return;
      }
      if c in signalOf {
        var s := signalOf[c];
        outcomes := outcomes[s := (if s in outcomes then outcomes[s] else map[])[account := won]];
      }
      var r := ReleaseContract(c);
      if r.closed {
        var s := r.signal.value;
        var group := GroupOutcome(if s in outcomes then outcomes[s] else map[account := won]);
        outcomes := outcomes - {s};
        signalSymbols := signalSymbols - {s};
        if group.Some? {
          update := SharedUpdate(s, group.value);
        }
      }
    }

    /** `_prune_stale_pending_contracts` past its throttle: every pending contract
        without a durable open trade is released. */
    method PruneStale(durableOpen: set<nat>) returns (released: seq<nat>)
      modifies this
      ensures Snapshot() == Run(old(Snapshot()), PruneSteps(released))
      ensures forall c :: c in released <==> c in old(pending) && c !in durableOpen
    {
      var stale := pending - durableOpen;
      ghost var start := Snapshot();
      ghost var all := stale;
      released := [];
      while stale != {}
        invariant stale <= all
        invariant forall c :: c in released <==> c in all && c !in stale
        invariant Snapshot() == Run(start, PruneSteps(released))
        decreases |stale|
      {
        var c :| c in stale;
        stale := stale - {c};
        ReleaseAndClearSignal(c);
        PruneOneMore(start, released, c);
        released := released + [c];
      }
    }
  }

  function PruneSteps(cs: seq<nat>): seq<Step> {
    seq(|cs|, i requires 0 <= i < |cs| => Prune(cs[i]))
  }

  lemma {:induction false} PruneOneMore(rt: Runtime, cs: seq<nat>, c: nat)
    ensures Run(rt, PruneSteps(cs + [c])) == ReleaseAndClear(Run(rt, PruneSteps(cs)), c)
    decreases |cs|
  {
    var all := PruneSteps(cs + [c]);
    if |cs| == 0 {
      assert all[1..] == [];
    } else {
      PruneOneMore(Next(rt, Prune(cs[0])), cs[1..], c);
      assert all[1..] == PruneSteps(cs[1..] + [c]);
      assert PruneSteps(cs)[1..] == PruneSteps(cs[1..]);
    }
  }

  lemma RegisteredIsConsistent(rt: Runtime, c: nat, s: nat, symbol: nat, token: nat)
    requires Consistent(rt) && Gone(rt, c)
    ensures Consistent(Registered(rt, c, s, symbol, token))
  {
  }

  lemma RegisteredKeepsGone(rt: Runtime, c: nat, s: nat, symbol: nat, token: nat, d: nat)
    requires d != c && Gone(rt, d)
    ensures Gone(Registered(rt, c, s, symbol, token), d)
  {
  }

  lemma RegisteringOne(rt: Runtime, c: nat, s: nat)
    requires Consistent(rt) && Gone(rt, c) && s !in rt.bySignal && s !in rt.outcomes
    ensures var r1 := Registered(rt, c, s, 0, 0);
            && Consistent(r1) && Watched(r1, c) && c !in r1.unregistered
            && c in r1.signalOf && r1.signalOf[c] == s && s in r1.bySignal && r1.bySignal[s] == {c}
            && s in r1.outcomes && r1.outcomes[s] == map[]
            && (forall d :: d != c && Gone(rt, d) ==> Gone(r1, d))
  {
    RegisteredIsConsistent(rt, c, s, 0, 0);
    assert c !in rt.unregistered;
    hide Consistent, Gone;
    forall d | d != c && Gone(rt, d) ensures Gone(Registered(rt, c, s, 0, 0), d) {
      RegisteredKeepsGone(rt, c, s, 0, 0, d);
    }
  }

  lemma ReleaseKeepsGone(rt: Runtime, c: nat, d: nat)
    requires Consistent(rt) && Gone(rt, d)
    ensures Gone(Released(rt, c).0, d)
  {
    ReleaseExactly(rt, c);
  }

  lemma ReleaseKeepsOutcomes(rt: Runtime, c: nat)
    ensures Released(rt, c).0.outcomes == rt.outcomes
  {
  }

  /** One contract registered on a new signal and settled: one shared update, and
      nothing of the signal is left. */
  lemma {:induction false} LoneContractUpdates(rt: Runtime, c: nat, s: nat, account: nat, won: bool)
    requires Consistent(rt) && Gone(rt, c) && s !in rt.bySignal && s !in rt.outcomes
    ensures var r1 := Registered(rt, c, s, 0, 0);
            var (r2, u) := Terminal(r1, c, account, won, true);
            && u == SharedUpdate(s, won) && Consistent(r2) && s !in r2.bySignal && s !in r2.outcomes
            && (forall d :: d != c && Gone(rt, d) ==> Gone(r2, d))
  {
    RegisteringOne(rt, c, s);
    hide Released, Registered, Terminal, Consistent, Gone, Watched;
    var r1 := Registered(rt, c, s, 0, 0);
    var e := Settle(c, account, won, true);
    var r2 := Terminal(r1, c, account, won, true).0;
    ReleaseExactly(r1, c);
    TerminalShape(r1, e);
    OutcomeTablesAreApart(r2, Released(r1, c).0, c);
    LoneTerminal(r1, c, s, account, won);
    forall d | d != c && Gone(rt, d) ensures Gone(r2, d) {
      ReleaseKeepsGone(r1, c, d);
      OutcomeTablesAreApart(r2, Released(r1, c).0, d);
    }
  }

  /** The last contract of a signal without earlier outcomes decides its update. */
  lemma {:induction false} LoneTerminal(rt: Runtime, c: nat, s: nat, account: nat, won: bool)
    requires c !in rt.unregistered && Watched(rt, c) && c in rt.signalOf && rt.signalOf[c] == s
    requires Released(rt, c).1 == Release(Some(s), true) && s in rt.outcomes && rt.outcomes[s] == map[]
    ensures Terminal(rt, c, account, won, true).1 == SharedUpdate(s, won)
    ensures s !in Terminal(rt, c, account, won, true).0.outcomes
  {
    var one := map[account := won];
    assert Wins(one) == (if won then {account} else {}) && Losses(one) == (if won then {} else {account});
    assert GroupOutcome(one) == Some(won);
    hide Released, Watched, Wins, Losses, GroupOutcome;
    var noted := rt.outcomes[s := one];
    NotingIsHarmless(rt, c, noted);
    ReleaseKeepsOutcomes(rt, c);
  }

  /** Registering after the close reopens the signal: two shared updates for one
      signal. */
  lemma {:induction false} LateRegistrationUpdatesTwice(rt: Runtime, c: nat, d: nat, s: nat, won: bool, lost: bool)
    requires Consistent(rt) && Gone(rt, c) && Gone(rt, d) && c != d && s !in rt.bySignal && s !in rt.outcomes
    ensures var r1 := Next(rt, Register(c, s, 0, 0));
            var r2 := Next(r1, Settle(c, 0, won, true));
            var r3 := Next(r2, Register(d, s, 0, 0));
            && Possible(r2, Register(d, s, 0, 0))
            && Updates(r1, Settle(c, 0, won, true), s) == 1
            && Updates(r3, Settle(d, 1, lost, true), s) == 1
  {
    LoneContractUpdates(rt, c, s, 0, won);
    var r2 := Next(Next(rt, Register(c, s, 0, 0)), Settle(c, 0, won, true));
    hide Terminal, Registered, Consistent, Gone;
    LoneContractUpdates(r2, d, s, 1, lost);
  }
}
