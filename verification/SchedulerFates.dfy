/** Why a schedule of app/automation_scheduler_action5.py gets the status it has: for each
    status the exact steps that give it, then what that says about whole runs. */
module SchedulerFates {

  import opened Scheduler

  /** A step that is one transaction. */
  predicate Single(e: Step) { !e.Cycle? }

  predicate Becomes(st: Store, e: Step, id: nat, status: Status)
    requires Possible(st, e)
  {
    && id in st.schedules && id in Next(st, e).schedules
    && st.schedules[id].status != status && Next(st, e).schedules[id].status == status
  }

  predicate Owned(st: Store, id: nat)
    requires id in st.schedules
  {
    st.schedules[id].account in st.accounts
  }

  predicate Active(st: Store, id: nat)
    requires id in st.schedules
  {
    Owned(st, id) && st.accounts[st.schedules[id].account].enabled
  }

  predicate Busy(st: Store, id: nat)
    requires id in st.schedules
  {
    Owned(st, id) && st.accounts[st.schedules[id].account].openCount > 0
  }

  predicate Late(s: Schedule, now: int, grace: nat) { now > s.due + grace }

  predicate Expired(l: Listed, now: int) { l.expires.Some? && now >= l.expires.value }

  /** The claimed row is still there and its account can be asked. */
  predicate Applies(st: Store, e: Step, id: nat)
    requires id in st.schedules
  {
    e.Apply? && e.id == id && st.schedules[id].status.Starting? && Owned(st, id) && e.tokenReady
  }

  predicate Reconciles(e: Step, id: nat) { e.ReconcileStep? && e.listed.id == id }

  predicate Finishes(st: Store, e: Step, id: nat, status: Status)
    requires id in st.schedules
  {
    e.FinishStep? && e.id == id && e.status == status && !Terminal(st.schedules[id].status)
  }

  /** The step applies another row whose policy takes this row's account over. */
  predicate TakesOver(st: Store, e: Step, id: nat)
    requires id in st.schedules
  {
    && e.Apply? && e.id in st.schedules && e.id != id && Applies(st, e, e.id)
    && st.schedules[e.id].account == st.schedules[id].account
    && st.schedules[e.id].policy.Replace? && Active(st, id)
  }

  // --------------------------------------------------------- one status at a time

  /** A row is skipped only by its own Skip policy on an active account, or for being late. */
  lemma SkippedExactly(st: Store, e: Step, id: nat)
    requires Possible(st, e) && Single(e) && id in st.schedules
    ensures Becomes(st, e, id, Skipped) <==>
      || Finishes(st, e, id, Skipped)
      || (Applies(st, e, id) && Active(st, id) && st.schedules[id].policy.Skip?)
      || (e.Claim? && e.id == id && st.schedules[id].status.Scheduled? && Late(st.schedules[id], e.now, e.grace))
      || (Reconciles(e, id) && st.schedules[id].status.Starting? && Owned(st, id) && !Active(st, id)
          && Expired(e.listed, e.now) && Late(st.schedules[id], e.now, e.grace))
  {
  }

  /** A row waits by its own Wait policy on an active account, for open contracts, or when its
      claim is found on an active account that it did not start. */
  lemma WaitingExactly(st: Store, e: Step, id: nat)
    requires Possible(st, e) && Single(e) && id in st.schedules
    ensures Becomes(st, e, id, Waiting) <==>
      || (Applies(st, e, id) && Active(st, id) && st.schedules[id].policy.Wait?)
      || (Applies(st, e, id) && Busy(st, id) && (Active(st, id) ==> st.schedules[id].policy.Replace?))
      || (Reconciles(e, id) && st.schedules[id].status.Starting? && Active(st, id)
          && st.accounts[st.schedules[id].account].marker != Some(id))
  {
  }

  /** A row starts on an idle account, or takes a quiet one over by its Replace policy. */
  lemma RunningExactly(st: Store, e: Step, id: nat)
    requires Possible(st, e) && Single(e) && id in st.schedules && MarkersStarted(st)
    ensures Becomes(st, e, id, Running) <==>
      Applies(st, e, id) && e.snapshotValid && !Busy(st, id) && (Active(st, id) ==> st.schedules[id].policy.Replace?)
  {
  }

  /** A row completes when it is finished so, when a Replace start takes its account over, or
      when the pass finds its account stopped without a failure. */
  lemma CompletedExactly(st: Store, e: Step, id: nat)
    requires Possible(st, e) && Single(e) && id in st.schedules
    ensures Becomes(st, e, id, Completed) <==>
      || Finishes(st, e, id, Completed)
      || (st.schedules[id].status.Running? && TakesOver(st, e, id))
      || (st.schedules[id].status.Running? && Reconciles(e, id) && Owned(st, id) && !Active(st, id)
          && !st.accounts[st.schedules[id].account].failure)
  {
  }

  lemma FailedExactly(st: Store, e: Step, id: nat)
    requires Possible(st, e) && Single(e) && id in st.schedules
    ensures Becomes(st, e, id, Failed) <==>
      || Finishes(st, e, id, Failed)
      || (Reconciles(e, id) && (st.schedules[id].status.Running? || st.schedules[id].status.Starting?) && !Owned(st, id))
      || (Reconciles(e, id) && st.schedules[id].status.Running? && Owned(st, id) && !Active(st, id)
          && st.accounts[st.schedules[id].account].failure)
  {
  }

  lemma StartingExactly(st: Store, e: Step, id: nat)
    requires Possible(st, e) && Single(e) && id in st.schedules
    ensures Becomes(st, e, id, Starting) <==>
      e.Claim? && e.id == id && (st.schedules[id].status.Waiting? || !Late(st.schedules[id], e.now, e.grace))
  {
  }

  /** An interrupted claim is returned to the queue within the grace only. */
  lemma ScheduledExactly(st: Store, e: Step, id: nat)
    requires Possible(st, e) && Single(e) && id in st.schedules
    ensures Becomes(st, e, id, Scheduled) <==>
      && Reconciles(e, id) && st.schedules[id].status.Starting? && Owned(st, id) && !Active(st, id)
      && Expired(e.listed, e.now) && !Late(st.schedules[id], e.now, e.grace)
  {
  }

  lemma CancelledExactly(st: Store, e: Step, id: nat)
    requires Possible(st, e) && Single(e) && id in st.schedules
    ensures Becomes(st, e, id, Cancelled) <==>
      || Finishes(st, e, id, Cancelled)
      || (e.CancelStep? && e.id == id && Rank(st.schedules[id].status) == 0)
  {
  }

  /** No step changes anything of a row but status, claim and starts; a row whose status stays
      is left alone, and the claim of 45 seconds is written by the claiming step only. */
  lemma RowFrame(st: Store, e: Step, id: nat)
    requires Possible(st, e) && Single(e) && id in st.schedules
    ensures var s := st.schedules[id];
            && id in Next(st, e).schedules
            && var t := Next(st, e).schedules[id];
            && (s.status == t.status ==> t == s)
            && t == s.(status := t.status, claimExpires := t.claimExpires, starts := t.starts)
            && (s.status != t.status && t.status.Starting? ==> t.claimExpires == Some(e.now + 45))
            && (s.status != t.status && Rank(t.status) == 0 && !t.status.Starting? ==> t.claimExpires.None?)
            && (s.status != t.status && t.status.Running? ==> t.claimExpires.None?)
  {
  }

  /** Only an apply and the outside touch the accounts: a start leaves its account enabled
      under the row's name, and a takeover that finds open contracts, or an unusable
      strategy, leaves it stopped. */
  lemma AccountsExactly(st: Store, e: Step, account: nat)
    requires Possible(st, e) && Single(e) && !e.OutsideStop? && !e.OutsideStart? && !e.Contracts? && account in st.accounts
    requires MarkersStarted(st)
    ensures Next(st, e).accounts.Keys == st.accounts.Keys
    ensures var a, b := st.accounts[account], Next(st, e).accounts[account];
            if e.Apply? && e.id in st.schedules && st.schedules[e.id].account == account && Becomes(st, e, e.id, Running)
            then b == Account(true, false, Some(e.id), 0)
            else if e.Apply? && e.id in st.schedules && st.schedules[e.id].account == account
                    && Applies(st, e, e.id) && st.schedules[e.id].policy.Replace? && a.enabled
            then b == Account(false, false, None, a.openCount)
            else b == a
  {
  }

  /** A claimed row is due and not yet started, and no free row that is due was to start
      before it, or was created before it to start at the same time. */
  lemma ClaimsComeInOrder(st: Store, e: Step, other: nat)
    requires e.Claim? && Possible(st, e)
    ensures var s := st.schedules[e.id];
            && s.due <= e.now && (s.status.Scheduled? || s.status.Waiting?) && e.id !in e.locked
    ensures other in st.schedules && other !in e.locked && Due(st.schedules[other], e.now) ==>
              var s, o := st.schedules[e.id], st.schedules[other];
              o.due >= s.due && (o.due == s.due ==> o.created >= s.created)
  {
  }

  /** One turn of the start loop fails the row exactly when it cannot be applied: the account
      or its credential is missing, or nothing held the start back but its saved strategy. */
  lemma StartFailsExactly(st: Store, id: nat, tokenReady: bool, snapshotValid: bool)
    requires id in st.schedules && st.schedules[id].status.Starting?
    ensures StartOne(st, id, tokenReady, snapshotValid).schedules[id].status.Failed? <==>
      || !Owned(st, id) || !tokenReady
      || (!snapshotValid && !Busy(st, id) && (Active(st, id) ==> st.schedules[id].policy.Replace?))
  {
  }

  /** The answer of an apply names what became of the row. */
  lemma OutcomeNamesStatus(st: Store, id: nat, tokenReady: bool, snapshotValid: bool)
    requires id in st.schedules && st.schedules[id].status.Starting?
    ensures var (next, outcome) := ApplyStart(st, id, tokenReady, snapshotValid);
            && (outcome.Started? <==> next.schedules[id].status.Running?)
            && (outcome.WaitingOutcome? <==> next.schedules[id].status.Waiting?)
            && (outcome.SkippedOutcome? <==> next.schedules[id].status.Skipped?)
            && (outcome.Rejected? <==> next.schedules[id] == st.schedules[id])
  {
  }

  // ------------------------------------------------------------------- whole runs

  predicate SingleSteps(es: seq<Step>) { forall e :: e in es ==> Single(e) }

  predicate RunsTo(st: Store, es: seq<Step>, end: Store) {
    SingleSteps(es) && PossibleRun(st, es) && Run(st, es) == end
  }

  lemma {:induction false} RunsThrough(st: Store, es: seq<Step>, mid: Store, fs: seq<Step>, end: Store)
    requires RunsTo(st, es, mid) && RunsTo(mid, fs, end)
    ensures RunsTo(st, es + fs, end)
    decreases |es|
  {
    if |es| == 0 {
      assert es + fs == fs;
    } else {
      assert forall e :: e in es[1..] ==> e in es;
      RunsThrough(Next(st, es[0]), es[1..], mid, fs, end);
      assert (es + fs)[1..] == es[1..] + fs;
    }
  }

  lemma {:induction false} OneStep(st: Store, e: Step)
    requires Possible(st, e) && Single(e)
    ensures RunsTo(st, [e], Next(st, e))
  {
    assert PossibleRun(Next(st, e), [e][1..]);
  }

  lemma {:induction false} ReconcileIsSteps(st: Store, order: seq<Listed>, now: int, grace: nat) returns (es: seq<Step>)
    ensures RunsTo(st, es, ReconcileAll(st, order, now, grace))
    decreases |order|
  {
    if |order| == 0 {
      es := [];
    } else {
      var e := ReconcileStep(order[0], now, grace);
      OneStep(st, e);
      var rest := ReconcileIsSteps(Next(st, e), order[1..], now, grace);
      RunsThrough(st, [e], Next(st, e), rest, ReconcileAll(st, order, now, grace));
      es := [e] + rest;
    }
  }

  lemma {:induction false} StartIsSteps(st: Store, t: StartTry, grace: nat) returns (es: seq<Step>)
    requires FirstDue(st, t.id, t.now, t.locked) && !ClaimStore(st, t.id, t.now, grace).schedules[t.id].status.Skipped?
    ensures RunsTo(st, es, StartOne(ClaimStore(st, t.id, t.now, grace), t.id, t.tokenReady, t.snapshotValid))
  {
    var claim, apply := Claim(t.id, t.now, grace, t.locked), Apply(t.id, t.tokenReady, t.snapshotValid);
    var claimed := Next(st, claim);
    var applied := Next(claimed, apply);
    hide ApplyStart, MarkTerminal, PossibleRun, Run;
    OneStep(st, claim);
    OneStep(claimed, apply);
    RunsThrough(st, [claim], claimed, [apply], applied);
    es := [claim] + [apply];
    if StartOne(claimed, t.id, t.tokenReady, t.snapshotValid) != applied {
      var finish := FinishStep(t.id, Failed);
      OneStep(applied, finish);
      RunsThrough(st, es, applied, [finish], Next(applied, finish));
      es := es + [finish];
    }
  }

  lemma {:induction false} StartsAreSteps(st: Store, tries: seq<StartTry>, grace: nat) returns (es: seq<Step>)
    ensures RunsTo(st, es, StartAll(st, tries, grace))
    decreases |tries|
  {
    es := [];
    if |tries| > 0 && FirstDue(st, tries[0].id, tries[0].now, tries[0].locked) {
      var t := tries[0];
      var claimed := ClaimStore(st, t.id, t.now, grace);
      if claimed.schedules[t.id].status.Skipped? {
        OneStep(st, Claim(t.id, t.now, grace, t.locked));
        es := [Claim(t.id, t.now, grace, t.locked)];
      } else {
        var first := StartIsSteps(st, t, grace);
        var mid := StartOne(claimed, t.id, t.tokenReady, t.snapshotValid);
        var rest := StartsAreSteps(mid, tries[1..], grace);
        hide StartOne, ClaimStore;
        RunsThrough(st, first, mid, rest, StartAll(st, tries, grace));
        es := first + rest;
      }
    }
  }

  /** A worker's whole pass is a run of single transactions, so every run is one. */
  lemma {:induction false} CycleIsSteps(st: Store, order: seq<Listed>, now: int, grace: nat, tries: seq<StartTry>)
      returns (es: seq<Step>)
    requires Possible(st, Cycle(order, now, grace, tries))
    ensures RunsTo(st, es, Next(st, Cycle(order, now, grace, tries)))
  {
    var first := ReconcileIsSteps(st, order, now, grace);
    var mid := ReconcileAll(st, order, now, grace);
    var rest := StartsAreSteps(mid, tries, grace);
    RunsThrough(st, first, mid, rest, StartAll(mid, tries, grace));
    es := first + rest;
  }

  lemma {:induction false} RunsAreSteps(st: Store, es: seq<Step>) returns (fs: seq<Step>)
    requires PossibleRun(st, es)
    ensures RunsTo(st, fs, Run(st, es))
    decreases |es|
  {
    if |es| == 0 {
      fs := [];
    } else {
      var first: seq<Step>;
      if es[0].Cycle? {
        first := CycleIsSteps(st, es[0].order, es[0].now, es[0].grace, es[0].tries);
      } else {
        OneStep(st, es[0]);
        first := [es[0]];
      }
      var rest := RunsAreSteps(Next(st, es[0]), es[1..]);
      RunsThrough(st, first, Next(st, es[0]), rest, Run(st, es));
      fs := first + rest;
    }
  }

  /** Nobody finishes the row as skipped, and no claim or reconcile of it comes late. */
  predicate NeverLate(es: seq<Step>, id: nat, due: int) {
    forall e :: e in es ==>
      && !(e.FinishStep? && e.id == id && e.status.Skipped?)
      && (e.Claim? && e.id == id ==> e.now <= due + e.grace)
      && (Reconciles(e, id) ==> e.now <= due + e.grace)
  }

  /** A row that does not ask to be skipped is not skipped in any run that is never late
      for it, whatever sessions it meets. */
  lemma {:induction false} SkippedOnlyWhenLate(st: Store, es: seq<Step>, id: nat)
    requires PossibleRun(st, es) && SingleSteps(es) && id in st.schedules
    requires !st.schedules[id].policy.Skip? && !st.schedules[id].status.Skipped? && NeverLate(es, id, st.schedules[id].due)
    ensures id in Run(st, es).schedules && !Run(st, es).schedules[id].status.Skipped?
    decreases |es|
  {
    if |es| > 0 {
      assert es[0] in es;
      SkippedExactly(st, es[0], id);
      RowFrame(st, es[0], id);
      assert forall e :: e in es[1..] ==> e in es;
      hide Next;
      SkippedOnlyWhenLate(Next(st, es[0]), es[1..], id);
    }
  }

  /** Nothing makes the row wait except an active session: its account never has open contracts
      when it is applied, and its claim is never taken for lost. */
  predicate NeverHeld(st: Store, es: seq<Step>, id: nat)
    requires PossibleRun(st, es)
    decreases |es|
  {
    |es| == 0
    || (&& !Reconciles(es[0], id) && (id in st.schedules && Applies(st, es[0], id) ==> !Busy(st, id))
        && NeverHeld(Next(st, es[0]), es[1..], id))
  }

  /** A row that asks to be skipped, or to replace, never waits for a session. */
  lemma {:induction false} OnlyWaitWaits(st: Store, es: seq<Step>, id: nat)
    requires PossibleRun(st, es) && SingleSteps(es) && id in st.schedules && NeverHeld(st, es, id)
    requires !st.schedules[id].policy.Wait? && !st.schedules[id].status.Waiting?
    ensures id in Run(st, es).schedules && !Run(st, es).schedules[id].status.Waiting?
    decreases |es|
  {
    if |es| > 0 {
      assert es[0] in es;
      WaitingExactly(st, es[0], id);
      RowFrame(st, es[0], id);
      assert forall e :: e in es[1..] ==> e in es;
      hide Next;
      OnlyWaitWaits(Next(st, es[0]), es[1..], id);
    }
  }

  /** A Wait row that was admitted to waiting is skipped all the same: its later claim is
      interrupted and found expired after the grace. */
  lemma WaitingRowIsSkipped(st: Store, id: nat)
    requires id in st.schedules && st.schedules[id].status.Waiting? && st.schedules[id].due == 0
    requires Owned(st, id) && !Active(st, id)
    requires forall other :: other in st.schedules && Due(st.schedules[other], 100) ==> other == id
    ensures var lost := Claim(id, 100, 60, {});
            && Possible(st, lost)
            && Becomes(Next(st, lost), ReconcileStep(Listed(id, Some(145)), 145, 60), id, Skipped)
  {
  }
}
