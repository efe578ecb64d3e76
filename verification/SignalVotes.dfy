/** The shared strategy update of enhanced_bot.py counts accounts: each account of the
    signal has the outcome its latest first-time settlement noted, and the update is the
    majority among them when the signal's cycle closes. */
module SignalVotes {

  import opened ContractCycle

  /** The step is the first settlement of a watched contract of the signal. */
  predicate Notes(rt: Runtime, e: Step, s: nat) {
    && e.Settle? && e.firstTime && e.c !in rt.unregistered && Watched(rt, e.c)
    && e.c in rt.signalOf && rt.signalOf[e.c] == s
  }

  predicate ClosesCycle(rt: Runtime, e: Step, s: nat) { Closes(rt, e, s) == 1 }

  /** The outcome the account's latest settlement noted in a run, its last step included. */
  function Ballot(rt: Runtime, es: seq<Step>, s: nat, account: nat): Option<bool>
    requires |es| > 0
    decreases |es|, 0
  {
    var before, e := Run(rt, es[..|es| - 1]), es[|es| - 1];
    if Notes(before, e, s) && e.account == account then Some(e.won)
    else LastNoted(rt, es[..|es| - 1], s, account)
  }

  /** ... that still stands after the run: a close of the cycle discards all of them. */
  function LastNoted(rt: Runtime, es: seq<Step>, s: nat, account: nat): Option<bool>
    decreases |es|, 1
  {
    if |es| == 0 || ClosesCycle(Run(rt, es[..|es| - 1]), es[|es| - 1], s) then None
    else Ballot(rt, es, s, account)
  }

  /** What the table of the signal holds for the account. */
  function Stands(rt: Runtime, s: nat, account: nat): Option<bool> {
    if s in rt.outcomes && account in rt.outcomes[s] then Some(rt.outcomes[s][account]) else None
  }

  function WithVote(rt: Runtime, s: nat, account: nat, won: bool): map<nat, bool> {
    (if s in rt.outcomes then rt.outcomes[s] else map[])[account := won]
  }

  lemma {:induction false} SettledTables(rt: Runtime, e: Step)
    requires Consistent(rt) && e.Settle? && e.firstTime && e.c !in rt.unregistered && Watched(rt, e.c) && e.c in rt.signalOf
    ensures var t, (next, u) := rt.signalOf[e.c], Terminal(rt, e.c, e.account, e.won, e.firstTime);
            var noted := rt.outcomes[t := WithVote(rt, t, e.account, e.won)];
            if Released(rt, e.c).1.closed
            then next.outcomes == noted - {t} && Released(rt, e.c).1 == Release(Some(t), true)
                 && var group := GroupOutcome(noted[t]);
                    u == if group.Some? then SharedUpdate(t, group.value) else NoUpdate
            else next.outcomes == noted && u == NoUpdate
  {
    ReleaseExactly(rt, e.c);
    var t := rt.signalOf[e.c];
    var noted := rt.outcomes[t := WithVote(rt, t, e.account, e.won)];
    NotingIsHarmless(rt, e.c, noted);
    ReleaseKeepsOutcomes(rt.(outcomes := noted), e.c);
    hide Released, Watched, GroupOutcome, Consistent, Gone;
  }

  lemma {:induction false} NotingStands(rt: Runtime, e: Step, s: nat, account: nat)
    requires Consistent(rt) && e.Settle? && e.firstTime && e.c !in rt.unregistered && Watched(rt, e.c) && e.c in rt.signalOf
    ensures Stands(Next(rt, e), s, account)
         == if ClosesCycle(rt, e, s) then None
            else if Notes(rt, e, s) && e.account == account then Some(e.won)
            else Stands(rt, s, account)
  {
    SettledTables(rt, e);
    hide Terminal, Released, Watched, GroupOutcome, Consistent;
  }

  /** A release of a contract that notes nothing clears the table of the cycle it closes. */
  lemma {:induction false} ReleasingStands(rt: Runtime, c: nat, s: nat, account: nat)
    requires Consistent(rt)
    ensures Stands(ReleaseAndClear(rt, c), s, account)
         == if Released(rt, c).1 == Release(Some(s), true) then None else Stands(rt, s, account)
  {
    ReleaseExactly(rt, c);
    ReleaseKeepsOutcomes(rt, c);
    hide Released, Consistent, Gone;
  }

  lemma {:induction false} QuietStands(rt: Runtime, e: Step, s: nat, account: nat)
    requires Consistent(rt) && e.Settle? && (e.c in rt.unregistered || e.c !in rt.signalOf)
    ensures Stands(Next(rt, e), s, account) == Stands(rt, s, account) && !ClosesCycle(rt, e, s)
  {
    ReleaseExactly(rt, e.c);
    ReleaseKeepsOutcomes(rt, e.c);
    hide Released, Watched, Consistent, Gone;
  }

  /** A close clears the table of its signal, a first settlement writes its account's entry,
      and nothing else changes an entry. */
  lemma {:induction false} StandsAfter(rt: Runtime, e: Step, s: nat, account: nat)
    requires Consistent(rt) && Possible(rt, e)
    ensures Stands(Next(rt, e), s, account)
         == if ClosesCycle(rt, e, s) then None
            else if Notes(rt, e, s) && e.account == account then Some(e.won)
            else Stands(rt, s, account)
  {
    if e.Settle? && (e.c in rt.unregistered || e.c !in rt.signalOf) {
      QuietStands(rt, e, s, account);
      hide Next, Stands, Consistent, Watched;
    } else if e.Settle? && e.firstTime && Watched(rt, e.c) {
      NotingStands(rt, e, s, account);
      hide Next, Stands, Consistent, Watched;
    } else {
      if e.Prune? || e.Settle? {
        ReleasingStands(rt, e.c, s, account);
      }
      hide ReleaseAndClear, Released, Watched, Consistent, Gone;
    }
  }

  lemma {:induction false} RunLast(rt: Runtime, es: seq<Step>)
    requires |es| > 0 && PossibleRun(rt, es)
    ensures var pre := es[..|es| - 1];
            && PossibleRun(rt, pre) && Possible(Run(rt, pre), es[|es| - 1])
            && Run(rt, es) == Next(Run(rt, pre), es[|es| - 1])
    decreases |es|
  {
    hide Next, Possible;
    if |es| == 1 {
      assert es[1..] == [] && es[..0] == [];
    } else {
      var pre := es[..|es| - 1];
      assert es[1..][..|es| - 2] == pre[1..];
      RunLast(Next(rt, es[0]), es[1..]);
    }
  }

  /** The table of a signal is what the run's settlements noted last. */
  lemma {:induction false} TableIsLastNoted(rt: Runtime, es: seq<Step>, s: nat, account: nat)
    requires Consistent(rt) && PossibleRun(rt, es) && Stands(rt, s, account).None?
    ensures Stands(Run(rt, es), s, account) == LastNoted(rt, es, s, account)
    decreases |es|
  {
    if |es| > 0 {
      var pre := es[..|es| - 1];
      RunLast(rt, es);
      RunBalances(rt, pre, s);
      TableIsLastNoted(rt, pre, s, account);
      StandsAfter(Run(rt, pre), es[|es| - 1], s, account);
      hide Consistent, PossibleRun, Run, Stands, Notes, ClosesCycle, Next, Possible;
    }
  }

  /** The accounts of the run that hold this outcome of the signal at its last step. */
  function Voters(rt: Runtime, es: seq<Step>, s: nat, won: bool): set<nat>
    requires |es| > 0
  {
    set e | e in es && e.Settle? && Ballot(rt, es, s, e.account) == Some(won) :: e.account
  }

  lemma {:induction false} BallotHasVoter(rt: Runtime, es: seq<Step>, s: nat, account: nat)
    requires |es| > 0 && Ballot(rt, es, s, account).Some?
    ensures exists e :: e in es && e.Settle? && e.account == account
    decreases |es|
  {
    var pre, e := es[..|es| - 1], es[|es| - 1];
    if Notes(Run(rt, pre), e, s) && e.account == account {
      assert e in es;
    } else {
      BallotHasVoter(rt, pre, s, account);
      var v :| v in pre && v.Settle? && v.account == account;
      assert v in es;
    }
  }

  /** At a settlement of the signal the table with its own entry holds exactly the ballots. */
  lemma {:induction false} VotersAreTable(rt: Runtime, es: seq<Step>, s: nat)
    requires |es| > 0 && Consistent(rt) && PossibleRun(rt, es)
    requires forall account :: Stands(rt, s, account).None?
    requires Notes(Run(rt, es[..|es| - 1]), es[|es| - 1], s)
    ensures var before, e := Run(rt, es[..|es| - 1]), es[|es| - 1];
            var table := WithVote(before, s, e.account, e.won);
            Wins(table) == Voters(rt, es, s, true) && Losses(table) == Voters(rt, es, s, false)
  {
    var pre, e := es[..|es| - 1], es[|es| - 1];
    var before := Run(rt, pre);
    var table := WithVote(before, s, e.account, e.won);
    RunLast(rt, es);
    forall account: nat
      ensures Ballot(rt, es, s, account) == if account in table then Some(table[account]) else None
    {
      TableIsLastNoted(rt, pre, s, account);
      hide Consistent, PossibleRun, Run, Notes, LastNoted;
    }
    hide WithVote;
    VotersOfBallots(rt, es, s, table);
  }

  lemma {:induction false} VotersOfBallots(rt: Runtime, es: seq<Step>, s: nat, table: map<nat, bool>)
    requires |es| > 0
    requires forall account: nat :: Ballot(rt, es, s, account) == if account in table then Some(table[account]) else None
    ensures Wins(table) == Voters(rt, es, s, true) && Losses(table) == Voters(rt, es, s, false)
  {
    forall account | account in table ensures exists e :: e in es && e.Settle? && e.account == account {
      BallotHasVoter(rt, es, s, account);
    }
    hide Ballot;
  }

  /** Over any run from a state without outcomes of the signal, its last step applies a shared
      update exactly when it is a first settlement that closes the signal's cycle and the
      accounts last noted won and last noted lost differ in number; the larger side is the
      group's result. */
  lemma {:induction false} UpdateIsMajority(rt: Runtime, es: seq<Step>, s: nat, won: bool)
    requires |es| > 0 && Consistent(rt) && PossibleRun(rt, es) && es[|es| - 1].Settle?
    requires forall account :: Stands(rt, s, account).None?
    ensures var before, e := Run(rt, es[..|es| - 1]), es[|es| - 1];
            Terminal(before, e.c, e.account, e.won, e.firstTime).1 == SharedUpdate(s, won) <==>
              && Notes(before, e, s) && ClosesCycle(before, e, s)
              && (if won then |Voters(rt, es, s, true)| > |Voters(rt, es, s, false)|
                  else |Voters(rt, es, s, true)| < |Voters(rt, es, s, false)|)
  {
    var pre, e := es[..|es| - 1], es[|es| - 1];
    var before := Run(rt, pre);
    RunLast(rt, es);
    RunBalances(rt, pre, s);
    UpdatedExactly(before, e, s);
    if Notes(before, e, s) {
      VotersAreTable(rt, es, s);
      SettledTables(before, e);
      hide Voters, Terminal, Released, Consistent, PossibleRun, Run, Possible, Wins, Losses, WithVote;
    } else {
      hide Voters, Terminal, Released, Consistent, PossibleRun, Run, Possible, Wins, Losses, WithVote;
    }
  }
}
