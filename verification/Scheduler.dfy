/** The persistent scheduler of app/automation_scheduler_action5.py.

    Each database transaction of the source is one step over the schedule table
    and the shared account rows; class `SchedulerStore` performs the transactions
    in place and is proved against them. */
module Scheduler {

  datatype Option<T> = None | Some(value: T)

  datatype Status = Scheduled | Waiting | Starting | Running | Completed | Skipped | Cancelled | Failed

  datatype Policy = Wait | Skip | Replace

  /** `starts` counts how often the row has entered RUNNING. */
  datatype Schedule = Schedule(
    account: nat, policy: Policy, due: int, created: int, status: Status, claimExpires: Option<int>, starts: nat)

  /** `marker` is the schedule named by "Scheduled session <id>" in the status
      reason, if any; `failure` says the status is one of ACCOUNT_FAILURE_STATUSES;
      `openCount` counts open actual and virtual contracts. */
  datatype Account = Account(enabled: bool, failure: bool, marker: Option<nat>, openCount: nat)

  datatype Store = Store(schedules: map<nat, Schedule>, accounts: map<nat, Account>)

  const CLAIM_SECONDS := 45

  predicate Terminal(s: Status) { s.Completed? || s.Skipped? || s.Cancelled? || s.Failed? }

  /** Before RUNNING, RUNNING, terminal. */
  function Rank(s: Status): nat {
    if Terminal(s) then 2 else if s.Running? then 1 else 0
  }

  predicate Due(s: Schedule, now: int) { (s.status.Scheduled? || s.status.Waiting?) && s.due <= now }

  function WithStatus(s: Schedule, status: Status): Schedule {
    s.(status := status, claimExpires := None)
  }

  // ----------------------------------------------------------------- transactions

  /** `_mark_terminal` */
  function MarkTerminal(st: Store, id: nat, status: Status): Store {
    if id !in st.schedules || Terminal(st.schedules[id].status) then st
    else st.(schedules := st.schedules[id := WithStatus(st.schedules[id], status)])
  }

  /** The cancel route, past its ownership check; a running row answers 409. */
  function Cancel(st: Store, id: nat): Store {
    if id !in st.schedules || st.schedules[id].status.Running? || Terminal(st.schedules[id].status) then st
    else st.(schedules := st.schedules[id := WithStatus(st.schedules[id], Cancelled)])
  }

  /** A row as the reconcile pass lists it first: its id and its claim's expiry then. */
  datatype Listed = Listed(id: nat, expires: Option<int>)

  /** What the reconcile pass makes of one RUNNING or STARTING row. */
  function ReconciledRow(l: Listed, s: Schedule, accounts: map<nat, Account>, now: int, grace: nat): Schedule {
    if s.account !in accounts then WithStatus(s, Failed)
    else
      var a := accounts[s.account];
      if s.status.Starting? then
        if a.enabled && a.marker == Some(l.id) then WithStatus(s, Running).(starts := s.starts + 1)
        else if a.enabled then WithStatus(s, Waiting)
        else if l.expires.Some? && l.expires.value <= now then
          WithStatus(s, if now - s.due <= grace then Scheduled else Skipped)
        else s
      else if !a.enabled then WithStatus(s, if a.failure then Failed else Completed)
      else s
  }

  function ReconcileRow(st: Store, l: Listed, now: int, grace: nat): Store {
    if l.id !in st.schedules || !(st.schedules[l.id].status.Running? || st.schedules[l.id].status.Starting?) then st
    else st.(schedules := st.schedules[l.id := ReconciledRow(l, st.schedules[l.id], st.accounts, now, grace)])
  }

  /** `_claim_next_due` on the row it selects. */
  function ClaimRow(s: Schedule, now: int, grace: nat): Schedule {
    if s.status.Scheduled? && now - s.due > grace then s.(status := Skipped)
    else s.(status := Starting, claimExpires := Some(now + CLAIM_SECONDS))
  }

  /** The selected row: due, and first by (scheduled_for_utc, created_at) among the rows
      that no other worker holds locked. */
  predicate FirstDue(st: Store, id: nat, now: int, locked: set<nat>) {
    && id in st.schedules && id !in locked && Due(st.schedules[id], now)
    && forall other :: other in st.schedules && other !in locked && Due(st.schedules[other], now) ==>
         Earlier(st.schedules[id], st.schedules[other])
  }

  predicate Earlier(a: Schedule, b: Schedule) {
    a.due < b.due || (a.due == b.due && a.created <= b.created)
  }

  /** `_finish_replaced_running_schedules` */
  function FinishReplaced(schedules: map<nat, Schedule>, account: nat, replacing: nat): map<nat, Schedule> {
    map id | id in schedules ::
      if schedules[id].account == account && schedules[id].status.Running? && id != replacing
      then schedules[id].(status := Completed) else schedules[id]
  }

  datatype Outcome = NotStartable | Rejected | WaitingOutcome | SkippedOutcome | Started

  /** `_apply_schedule_strategy`; `tokenReady` and `snapshotValid` stand for the
      credential and the saved strategy. */
  function ApplyStart(st: Store, id: nat, tokenReady: bool, snapshotValid: bool): (Store, Outcome) {
    if id !in st.schedules || !st.schedules[id].status.Starting? then (st, NotStartable)
    else
      var s := st.schedules[id];
      if s.account !in st.accounts || !tokenReady then (st, Rejected)
      else
        var a := st.accounts[s.account];
        if a.enabled && s.policy.Wait? then
          (st.(schedules := st.schedules[id := WithStatus(s, Waiting)]), WaitingOutcome)
        else if a.enabled && s.policy.Skip? then
          (st.(schedules := st.schedules[id := WithStatus(s, Skipped)]), SkippedOutcome)
        else
          var cleared :=
            if !a.enabled then st
            else Store(FinishReplaced(st.schedules, s.account, id),
                       st.accounts[s.account := a.(enabled := false, failure := false, marker := None)]);
          if a.openCount > 0 then
            (cleared.(schedules := cleared.schedules[id := WithStatus(s, Waiting)]), WaitingOutcome)
          else if !snapshotValid then (cleared, Rejected)
          else
            (Store(cleared.schedules[id := WithStatus(s, Running).(starts := s.starts + 1)],
                   cleared.accounts[s.account := Account(true, false, Some(id), 0)]), Started)
  }

  /** One claimed row of `run_scheduler_cycle`: apply, and mark what failed. */
  function StartOne(st: Store, id: nat, tokenReady: bool, snapshotValid: bool): Store {
    var (next, outcome) := ApplyStart(st, id, tokenReady, snapshotValid);
    if outcome.Rejected? || outcome.NotStartable? then MarkTerminal(next, id, Failed) else next
  }

  // ------------------------------------------------------------------ single owner

  /** At most one running schedule per account. */
  predicate SingleOwner(st: Store) {
    forall i, j :: i in st.schedules && j in st.schedules && i != j
      && st.schedules[i].status.Running? && st.schedules[j].status.Running?
      ==> st.schedules[i].account != st.schedules[j].account
  }

  /** Every running schedule's account is enabled. */
  predicate RunningIsEnabled(st: Store) {
    forall i :: i in st.schedules && st.schedules[i].status.Running? ==>
      st.schedules[i].account in st.accounts && st.accounts[st.schedules[i].account].enabled
  }

  /** A marker names a schedule that has already started. */
  predicate MarkersStarted(st: Store) {
    forall a :: a in st.accounts && st.accounts[a].marker.Some? ==>
      var id := st.accounts[a].marker.value;
      id in st.schedules && Rank(st.schedules[id].status) >= 1
  }

  /** A row that has not run has never started, and none starts twice. */
  predicate StartsOnce(st: Store) {
    forall i :: i in st.schedules ==>
      st.schedules[i].starts <= 1 && (Rank(st.schedules[i].status) == 0 ==> st.schedules[i].starts == 0)
  }

  predicate Sound(st: Store) { SingleOwner(st) && MarkersStarted(st) && StartsOnce(st) }

  /** A claimed row about to start on an account that was stopped while another schedule
      still runs there. */
  predicate SecondOwner(st: Store, id: nat, tokenReady: bool, snapshotValid: bool) {
    && id in st.schedules && st.schedules[id].status.Starting? && tokenReady && snapshotValid
    && st.schedules[id].account in st.accounts
    && !st.accounts[st.schedules[id].account].enabled && st.accounts[st.schedules[id].account].openCount == 0
    && exists other :: other in st.schedules && other != id && st.schedules[other].status.Running?
         && st.schedules[other].account == st.schedules[id].account
  }

  lemma StartKeepsSingleOwnerExactly(st: Store, id: nat, tokenReady: bool, snapshotValid: bool)
    requires SingleOwner(st)
    ensures SingleOwner(StartOne(st, id, tokenReady, snapshotValid))
       <==> !SecondOwner(st, id, tokenReady, snapshotValid)
  {
    var next := StartOne(st, id, tokenReady, snapshotValid);
    if SecondOwner(st, id, tokenReady, snapshotValid) {
      var other :| other in st.schedules && other != id && st.schedules[other].status.Running?
                && st.schedules[other].account == st.schedules[id].account;
      assert next.schedules[other].status.Running? && next.schedules[id].status.Running?;
    }
  }

  lemma StartKeepsEnabled(st: Store, id: nat, tokenReady: bool, snapshotValid: bool)
    requires RunningIsEnabled(st)
    ensures RunningIsEnabled(StartOne(st, id, tokenReady, snapshotValid))
  {
  }

  lemma TerminalKeepsMarkers(st: Store, id: nat, status: Status)
    requires MarkersStarted(st) && Terminal(status)
    ensures MarkersStarted(MarkTerminal(st, id, status))
  {
  }

  lemma ReplacedKeepsMarkers(st: Store, account: nat, replacing: nat)
    requires MarkersStarted(st)
    ensures MarkersStarted(st.(schedules := FinishReplaced(st.schedules, account, replacing)))
  {
  }

  lemma ApplyKeepsMarkers(st: Store, id: nat, tokenReady: bool, snapshotValid: bool)
    requires MarkersStarted(st)
    ensures MarkersStarted(ApplyStart(st, id, tokenReady, snapshotValid).0)
  {
    if id in st.schedules {
      ReplacedKeepsMarkers(st, st.schedules[id].account, id);
    }
  }

  lemma StartKeepsMarkers(st: Store, id: nat, tokenReady: bool, snapshotValid: bool)
    requires MarkersStarted(st)
    ensures MarkersStarted(StartOne(st, id, tokenReady, snapshotValid))
  {
    hide ApplyStart, MarkTerminal, MarkersStarted;
    ApplyKeepsMarkers(st, id, tokenReady, snapshotValid);
    TerminalKeepsMarkers(ApplyStart(st, id, tokenReady, snapshotValid).0, id, Failed);
  }

  lemma ApplyKeepsStartsOnce(st: Store, id: nat, tokenReady: bool, snapshotValid: bool)
    requires StartsOnce(st)
    ensures StartsOnce(ApplyStart(st, id, tokenReady, snapshotValid).0)
  {
  }

  lemma StartKeepsStartsOnce(st: Store, id: nat, tokenReady: bool, snapshotValid: bool)
    requires StartsOnce(st)
    ensures StartsOnce(StartOne(st, id, tokenReady, snapshotValid))
  {
  }

  lemma {:induction false} StartSound(st: Store, id: nat, tokenReady: bool, snapshotValid: bool)
    requires Sound(st) && RunningIsEnabled(st)
    ensures var next := StartOne(st, id, tokenReady, snapshotValid);
            Sound(next) && RunningIsEnabled(next)
  {
    StartKeepsSingleOwnerExactly(st, id, tokenReady, snapshotValid);
    assert !SecondOwner(st, id, tokenReady, snapshotValid);
    hide StartOne, SingleOwner, RunningIsEnabled, MarkersStarted, StartsOnce, SecondOwner;
    StartKeepsEnabled(st, id, tokenReady, snapshotValid);
    StartKeepsMarkers(st, id, tokenReady, snapshotValid);
    StartKeepsStartsOnce(st, id, tokenReady, snapshotValid);
  }

  /** On sound states the reconcile pass never starts a session: the marker branch
      is dead, so only `ApplyStart` enters RUNNING. */
  lemma ReconcileNeverStarts(st: Store, l: Listed, now: int, grace: nat)
    requires MarkersStarted(st)
    ensures l.id in st.schedules && st.schedules[l.id].status.Starting? ==>
              !ReconcileRow(st, l, now, grace).schedules[l.id].status.Running?
  {
  }

  lemma ReconcileKeepsOwner(st: Store, l: Listed, now: int, grace: nat)
    requires SingleOwner(st) && MarkersStarted(st)
    ensures SingleOwner(ReconcileRow(st, l, now, grace))
  {
    ReconcileNeverStarts(st, l, now, grace);
  }

  lemma ReconcileKeepsMarkers(st: Store, l: Listed, now: int, grace: nat)
    requires MarkersStarted(st)
    ensures MarkersStarted(ReconcileRow(st, l, now, grace))
  {
  }

  lemma ReconcileKeepsStartsOnce(st: Store, l: Listed, now: int, grace: nat)
    requires StartsOnce(st) && MarkersStarted(st)
    ensures StartsOnce(ReconcileRow(st, l, now, grace))
  {
  }

  lemma {:induction false} ReconcileSound(st: Store, l: Listed, now: int, grace: nat)
    requires Sound(st)
    ensures Sound(ReconcileRow(st, l, now, grace))
  {
    hide ReconcileRow, SingleOwner, MarkersStarted, StartsOnce;
    ReconcileKeepsOwner(st, l, now, grace);
    ReconcileKeepsMarkers(st, l, now, grace);
    ReconcileKeepsStartsOnce(st, l, now, grace);
  }

  // -------------------------------------------------------------------- whole runs

  /** One turn of the start loop: the row claimed at `now`, then applied. */
  datatype StartTry = StartTry(id: nat, now: int, locked: set<nat>, tokenReady: bool, snapshotValid: bool)

  /** Every transaction is a step of its own, for any number of workers: a claim and
      its apply may be far apart, and a reconcile row may use an old listing.  `Cycle`
      is one worker's whole pass with nothing in between. */
  datatype Step =
    | Create(id: nat, schedule: Schedule)
    | CancelStep(id: nat)
    | FinishStep(id: nat, status: Status)
    | Claim(id: nat, now: int, grace: nat, locked: set<nat>)
    | Apply(id: nat, tokenReady: bool, snapshotValid: bool)
    | ReconcileStep(listed: Listed, now: int, grace: nat)
    | Cycle(order: seq<Listed>, now: int, grace: nat, tries: seq<StartTry>)
    | OutsideStop(account: nat, failure: bool, newReason: bool)
    | OutsideStart(account: nat)
    | Contracts(account: nat, openCount: nat)

  /** The reconcile pass over the rows it listed. */
  function ReconcileAll(st: Store, order: seq<Listed>, now: int, grace: nat): Store
    decreases |order|
  {
    if |order| == 0 then st else ReconcileAll(ReconcileRow(st, order[0], now, grace), order[1..], now, grace)
  }

  function ClaimStore(st: Store, id: nat, now: int, grace: nat): Store
    requires id in st.schedules
  {
    st.(schedules := st.schedules[id := ClaimRow(st.schedules[id], now, grace)])
  }

  /** The start loop ends when nothing is due or the claim skipped a late row. */
  function StartAll(st: Store, tries: seq<StartTry>, grace: nat): Store
    decreases |tries|
  {
    if |tries| == 0 || !FirstDue(st, tries[0].id, tries[0].now, tries[0].locked) then st
    else
      var t := tries[0];
      var claimed := ClaimStore(st, t.id, t.now, grace);
      if claimed.schedules[t.id].status.Skipped? then claimed
      else StartAll(StartOne(claimed, t.id, t.tokenReady, t.snapshotValid), tries[1..], grace)
  }

  /** Every running or starting row is listed, with its claim's expiry of the moment. */
  predicate ListsActive(st: Store, order: seq<Listed>) {
    && (forall id :: id in st.schedules && (st.schedules[id].status.Running? || st.schedules[id].status.Starting?)
         ==> Listed(id, st.schedules[id].claimExpires) in order)
    && UpToDate(st, order)
  }

  predicate UpToDate(st: Store, order: seq<Listed>) {
    forall l :: l in order && l.id in st.schedules && st.schedules[l.id].status.Starting?
      ==> l.expires == st.schedules[l.id].claimExpires
  }

  predicate Possible(st: Store, e: Step) {
    match e
    case Create(id, schedule) =>
      id !in st.schedules && schedule.status.Scheduled? && schedule.claimExpires.None? && schedule.starts == 0
    case FinishStep(_, status) => Terminal(status)
    case Claim(id, now, _, locked) => FirstDue(st, id, now, locked)
    case Cycle(order, _, _, _) => ListsActive(st, order)
    case OutsideStop(a, _, _) => a in st.accounts
    case OutsideStart(a) => a in st.accounts
    case Contracts(a, _) => a in st.accounts
    case _ => true
  }

  function Next(st: Store, e: Step): Store
    requires Possible(st, e)
  {
    match e
    case Create(id, schedule) => st.(schedules := st.schedules[id := schedule])
    case CancelStep(id) => Cancel(st, id)
    case FinishStep(id, status) => MarkTerminal(st, id, status)
    case Claim(id, now, grace, _) => ClaimStore(st, id, now, grace)
    case Apply(id, tokenReady, snapshotValid) => ApplyStart(st, id, tokenReady, snapshotValid).0
    case ReconcileStep(listed, now, grace) => ReconcileRow(st, listed, now, grace)
    case Cycle(order, now, grace, tries) => StartAll(ReconcileAll(st, order, now, grace), tries, grace)
    case OutsideStop(a, failure, newReason) =>
      var was := st.accounts[a];
      st.(accounts := st.accounts[a := was.(enabled := false, failure := failure,
                                            marker := if newReason then None else was.marker)])
    case OutsideStart(a) =>
      st.(accounts := st.accounts[a := st.accounts[a].(enabled := true, failure := false, marker := None)])
    case Contracts(a, n) => st.(accounts := st.accounts[a := st.accounts[a].(openCount := n)])
  }

  lemma ClaimSound(st: Store, id: nat, now: int, grace: nat)
    requires Sound(st) && id in st.schedules && Due(st.schedules[id], now)
    ensures Sound(ClaimStore(st, id, now, grace))
    ensures RunningIsEnabled(st) ==> RunningIsEnabled(ClaimStore(st, id, now, grace))
  {
  }

  lemma {:induction false} StartAllSound(st: Store, tries: seq<StartTry>, grace: nat)
    requires Sound(st) && RunningIsEnabled(st)
    ensures Sound(StartAll(st, tries, grace)) && RunningIsEnabled(StartAll(st, tries, grace))
    decreases |tries|
  {
    if |tries| > 0 && FirstDue(st, tries[0].id, tries[0].now, tries[0].locked) {
      var t := tries[0];
      var claimed := ClaimStore(st, t.id, t.now, grace);
      ClaimSound(st, t.id, t.now, grace);
      if !claimed.schedules[t.id].status.Skipped? {
        StartSound(claimed, t.id, t.tokenReady, t.snapshotValid);
        StartAllSound(StartOne(claimed, t.id, t.tokenReady, t.snapshotValid), tries[1..], grace);
      }
    }
  }

  /** What the pass leaves behind for a row it has visited. */
  predicate Settled(st: Store, id: nat, now: int) {
    id in st.schedules ==>
      && (st.schedules[id].status.Running? ==>
            st.schedules[id].account in st.accounts && st.accounts[st.schedules[id].account].enabled)
      && (st.schedules[id].status.Starting? && st.schedules[id].claimExpires.Some? ==>
            st.schedules[id].claimExpires.value > now)
  }

  lemma ReconcileRowSettles(st: Store, l: Listed, other: nat, now: int, grace: nat)
    ensures UpToDate(st, [l]) ==> Settled(ReconcileRow(st, l, now, grace), l.id, now)
    ensures Settled(st, other, now) ==> Settled(ReconcileRow(st, l, now, grace), other, now)
    ensures other != l.id && other in st.schedules ==>
              ReconcileRow(st, l, now, grace).schedules[other] == st.schedules[other]
    ensures ReconcileRow(st, l, now, grace).schedules.Keys == st.schedules.Keys
  {
    assert l in [l];
  }

  /** The pass does not make the rest of its own listing stale. */
  lemma ReconcileRowUpToDate(st: Store, l: Listed, rest: seq<Listed>, now: int, grace: nat)
    requires UpToDate(st, rest)
    ensures UpToDate(ReconcileRow(st, l, now, grace), rest)
  {
  }

  lemma {:induction false} ReconcileAllSound(st: Store, order: seq<Listed>, now: int, grace: nat)
    requires Sound(st)
    ensures Sound(ReconcileAll(st, order, now, grace))
    decreases |order|
  {
    if |order| > 0 {
      ReconcileSound(st, order[0], now, grace);
      ReconcileAllSound(ReconcileRow(st, order[0], now, grace), order[1..], now, grace);
    }
  }

  predicate ListedIn(order: seq<Listed>, id: nat) { exists l :: l in order && l.id == id }

  lemma {:induction false} ReconcileAllSettles(st: Store, order: seq<Listed>, id: nat, now: int, grace: nat)
    requires UpToDate(st, order)
    ensures ListedIn(order, id) || Settled(st, id, now) ==> Settled(ReconcileAll(st, order, now, grace), id, now)
    ensures ReconcileAll(st, order, now, grace).schedules.Keys == st.schedules.Keys
    decreases |order|
  {
    if |order| > 0 {
      assert order == [order[0]] + order[1..];
      assert order[0] in order && UpToDate(st, [order[0]]) && UpToDate(st, order[1..]);
      ReconcileRowSettles(st, order[0], id, now, grace);
      ReconcileRowUpToDate(st, order[0], order[1..], now, grace);
      hide ReconcileRow, UpToDate, Settled;
      ReconcileAllSettles(ReconcileRow(st, order[0], now, grace), order[1..], id, now, grace);
      if ListedIn(order, id) && order[0].id != id {
        var l :| l in order && l.id == id;
        assert l in order[1..];
        assert ListedIn(order[1..], id);
      }
    }
  }

  /** After a reconcile pass over all running and starting rows every running
      schedule's account is enabled and no starting row has an expired claim. */
  lemma {:induction false} ReconcilePassGuarantee(st: Store, order: seq<Listed>, now: int, grace: nat)
    requires Sound(st) && Possible(st, Cycle(order, now, grace, []))
    ensures var next := ReconcileAll(st, order, now, grace);
            Sound(next) && RunningIsEnabled(next) && forall id :: id in next.schedules ==> Settled(next, id, now)
  {
    ReconcileAllSound(st, order, now, grace);
    var next := ReconcileAll(st, order, now, grace);
    forall id | id in next.schedules ensures Settled(next, id, now) {
      ReconcileAllSettles(st, order, id, now, grace);
      if id in st.schedules && (st.schedules[id].status.Running? || st.schedules[id].status.Starting?) {
        assert Listed(id, st.schedules[id].claimExpires) in order;
        assert ListedIn(order, id);
      } else {
        assert Settled(st, id, now);
      }
    }
  }

  lemma OtherStepsSound(st: Store, e: Step)
    requires Sound(st) && Possible(st, e) && !e.Cycle? && !e.ReconcileStep? && !e.Claim? && !e.Apply?
    ensures Sound(Next(st, e))
  {
  }

  /** A step on its own would put a second owner on an account. */
  predicate AddsSecondOwner(st: Store, e: Step) {
    e.Apply? && SecondOwner(st, e.id, e.tokenReady, e.snapshotValid)
  }

  lemma ApplyKeepsSingleOwnerExactly(st: Store, id: nat, tokenReady: bool, snapshotValid: bool)
    requires SingleOwner(st)
    ensures SingleOwner(ApplyStart(st, id, tokenReady, snapshotValid).0)
       <==> !SecondOwner(st, id, tokenReady, snapshotValid)
  {
    var next := ApplyStart(st, id, tokenReady, snapshotValid).0;
    if SecondOwner(st, id, tokenReady, snapshotValid) {
      var other :| other in st.schedules && other != id && st.schedules[other].status.Running?
                && st.schedules[other].account == st.schedules[id].account;
      assert next.schedules[other].status.Running? && next.schedules[id].status.Running?;
    }
  }

  /** One step keeps a single owner exactly when it is not an apply on an account
      stopped under a running schedule. */
  lemma {:induction false} StepSoundExactly(st: Store, e: Step)
    requires Sound(st) && Possible(st, e)
    ensures SingleOwner(Next(st, e)) <==> !AddsSecondOwner(st, e)
    ensures MarkersStarted(Next(st, e)) && StartsOnce(Next(st, e))
  {
    hide SingleOwner, MarkersStarted, StartsOnce, SecondOwner, ApplyStart, ReconcileRow, ReconcileAll, StartAll;
    match e
    case Cycle(order, now, grace, tries) =>
      ReconcilePassGuarantee(st, order, now, grace);
      StartAllSound(ReconcileAll(st, order, now, grace), tries, grace);
    case ReconcileStep(listed, now, grace) => ReconcileSound(st, listed, now, grace);
    case Claim(id, now, grace, _) => ClaimSound(st, id, now, grace);
    case Apply(id, tokenReady, snapshotValid) =>
      ApplyKeepsSingleOwnerExactly(st, id, tokenReady, snapshotValid);
      ApplyKeepsMarkers(st, id, tokenReady, snapshotValid);
      ApplyKeepsStartsOnce(st, id, tokenReady, snapshotValid);
    case _ => OtherStepsSound(st, e);
  }

  predicate PossibleRun(st: Store, es: seq<Step>)
    decreases |es|
  {
    |es| == 0 || (Possible(st, es[0]) && PossibleRun(Next(st, es[0]), es[1..]))
  }

  function Run(st: Store, es: seq<Step>): Store
    requires PossibleRun(st, es)
    decreases |es|
  {
    if |es| == 0 then st else Run(Next(st, es[0]), es[1..])
  }

  /** Every claim is applied inside its own cycle. */
  predicate AtomicCycles(es: seq<Step>) { forall e :: e in es ==> !e.Apply? }

  predicate AlwaysSingleOwner(st: Store, es: seq<Step>)
    requires PossibleRun(st, es)
    decreases |es|
  {
    SingleOwner(st) && (|es| == 0 || AlwaysSingleOwner(Next(st, es[0]), es[1..]))
  }

  predicate NoSecondOwner(st: Store, es: seq<Step>)
    requires PossibleRun(st, es)
    decreases |es|
  {
    |es| == 0 || (!AddsSecondOwner(st, es[0]) && NoSecondOwner(Next(st, es[0]), es[1..]))
  }

  /** Along every interleaving an account has a single owner throughout exactly when no
      apply meets an account stopped under a running schedule. */
  lemma {:induction false} SingleOwnerExactly(st: Store, es: seq<Step>)
    requires Sound(st) && PossibleRun(st, es)
    ensures AlwaysSingleOwner(st, es) <==> NoSecondOwner(st, es)
    decreases |es|
  {
    if |es| > 0 {
      StepSoundExactly(st, es[0]);
      hide SingleOwner, MarkersStarted, StartsOnce, AddsSecondOwner, Next;
      if !AddsSecondOwner(st, es[0]) {
        SingleOwnerExactly(Next(st, es[0]), es[1..]);
      } else {
        NoOwnerNoRun(Next(st, es[0]), es[1..]);
      }
    }
  }

  lemma NoOwnerNoRun(st: Store, es: seq<Step>)
    requires PossibleRun(st, es) && !SingleOwner(st)
    ensures !AlwaysSingleOwner(st, es)
  {
  }

  /** With whole cycles every reachable state has at most one running schedule per
      account, and no schedule has entered RUNNING twice. */
  lemma {:induction false} SingleOwnerAlways(st: Store, es: seq<Step>)
    requires Sound(st) && PossibleRun(st, es) && AtomicCycles(es)
    ensures Sound(Run(st, es))
    decreases |es|
  {
    if |es| > 0 {
      assert es[0] in es;
      StepSoundExactly(st, es[0]);
      hide SingleOwner, MarkersStarted, StartsOnce, Next;
      SingleOwnerAlways(Next(st, es[0]), es[1..]);
    }
  }

  // --------------------------------------------------- statuses only move up the ranks

  /** The row keeps its identity, never falls in rank, is frozen once terminal, and
      counts a start exactly when it leaves rank 0 by way of RUNNING. */
  predicate RowAdvances(a: Schedule, b: Schedule) {
    && a.account == b.account && a.due == b.due && a.created == b.created && a.policy == b.policy
    && Rank(a.status) <= Rank(b.status)
    && (Terminal(a.status) ==> a.status == b.status)
    && a.starts <= b.starts
    && (Rank(a.status) >= 1 ==> b.starts == a.starts)
    && (Rank(b.status) == 0 ==> b.starts == a.starts)
    && (Rank(a.status) == 0 && b.status.Running? ==> b.starts == a.starts + 1)
  }

  predicate RowKept(a: Store, b: Store, id: nat) {
    id in a.schedules ==> id in b.schedules && RowAdvances(a.schedules[id], b.schedules[id])
  }

  lemma ApplyAdvances(st: Store, id: nat, tokenReady: bool, snapshotValid: bool, row: nat)
    ensures RowKept(st, ApplyStart(st, id, tokenReady, snapshotValid).0, row)
  {
  }

  lemma TerminalAdvances(st: Store, id: nat, status: Status, row: nat)
    requires Terminal(status)
    ensures RowKept(st, MarkTerminal(st, id, status), row)
  {
  }

  lemma StartOneAdvances(st: Store, id: nat, tokenReady: bool, snapshotValid: bool, row: nat)
    ensures RowKept(st, StartOne(st, id, tokenReady, snapshotValid), row)
  {
    var next := ApplyStart(st, id, tokenReady, snapshotValid).0;
    ApplyAdvances(st, id, tokenReady, snapshotValid, row);
    TerminalAdvances(next, id, Failed, row);
    hide ApplyStart, MarkTerminal, RowKept;
    KeptTransitive(st, next, MarkTerminal(next, id, Failed), row);
  }

  lemma {:induction false} StartAllAdvances(st: Store, tries: seq<StartTry>, grace: nat, row: nat)
    ensures RowKept(st, StartAll(st, tries, grace), row)
    decreases |tries|
  {
    if |tries| > 0 && FirstDue(st, tries[0].id, tries[0].now, tries[0].locked) {
      var t := tries[0];
      var claimed := ClaimStore(st, t.id, t.now, grace);
      assert RowKept(st, claimed, row);
      if !claimed.schedules[t.id].status.Skipped? {
        var next := StartOne(claimed, t.id, t.tokenReady, t.snapshotValid);
        StartOneAdvances(claimed, t.id, t.tokenReady, t.snapshotValid, row);
        StartAllAdvances(next, tries[1..], grace, row);
        hide StartOne, ClaimStore;
      }
    }
  }

  lemma ReconcileRowAdvances(st: Store, l: Listed, now: int, grace: nat, row: nat)
    requires MarkersStarted(st)
    ensures RowKept(st, ReconcileRow(st, l, now, grace), row)
  {
  }

  lemma KeptTransitive(a: Store, b: Store, c: Store, row: nat)
    requires RowKept(a, b, row) && RowKept(b, c, row)
    ensures RowKept(a, c, row)
  {
  }

  lemma {:induction false} ReconcileAllAdvances(st: Store, order: seq<Listed>, now: int, grace: nat, row: nat)
    requires MarkersStarted(st)
    ensures RowKept(st, ReconcileAll(st, order, now, grace), row)
    ensures MarkersStarted(ReconcileAll(st, order, now, grace))
    decreases |order|
  {
    if |order| > 0 {
      var next := ReconcileRow(st, order[0], now, grace);
      ReconcileRowAdvances(st, order[0], now, grace, row);
      ReconcileKeepsMarkers(st, order[0], now, grace);
      ReconcileAllAdvances(next, order[1..], now, grace, row);
      hide ReconcileRow, MarkersStarted, RowKept;
      KeptTransitive(st, next, ReconcileAll(next, order[1..], now, grace), row);
    }
  }

  /** What every step keeps whoever else is at work. */
  predicate Counted(st: Store) { MarkersStarted(st) && StartsOnce(st) }

  lemma ClaimCounted(st: Store, id: nat, now: int, grace: nat)
    requires Counted(st) && id in st.schedules && Due(st.schedules[id], now)
    ensures Counted(ClaimStore(st, id, now, grace))
  {
  }

  lemma {:induction false} StartAllCounted(st: Store, tries: seq<StartTry>, grace: nat)
    requires Counted(st)
    ensures Counted(StartAll(st, tries, grace))
    decreases |tries|
  {
    if |tries| > 0 && FirstDue(st, tries[0].id, tries[0].now, tries[0].locked) {
      var t := tries[0];
      var claimed := ClaimStore(st, t.id, t.now, grace);
      ClaimCounted(st, t.id, t.now, grace);
      if !claimed.schedules[t.id].status.Skipped? {
        StartKeepsMarkers(claimed, t.id, t.tokenReady, t.snapshotValid);
        StartKeepsStartsOnce(claimed, t.id, t.tokenReady, t.snapshotValid);
        StartAllCounted(StartOne(claimed, t.id, t.tokenReady, t.snapshotValid), tries[1..], grace);
        hide StartOne, MarkersStarted, StartsOnce;
      }
    }
  }

  lemma {:induction false} ReconcileAllCounted(st: Store, order: seq<Listed>, now: int, grace: nat)
    requires Counted(st)
    ensures Counted(ReconcileAll(st, order, now, grace))
    decreases |order|
  {
    if |order| > 0 {
      ReconcileKeepsMarkers(st, order[0], now, grace);
      ReconcileKeepsStartsOnce(st, order[0], now, grace);
      hide ReconcileRow, MarkersStarted, StartsOnce;
      ReconcileAllCounted(ReconcileRow(st, order[0], now, grace), order[1..], now, grace);
    }
  }

  lemma OtherStepsCounted(st: Store, e: Step)
    requires Counted(st) && Possible(st, e) && !e.Cycle? && !e.ReconcileStep? && !e.Claim? && !e.Apply?
    ensures Counted(Next(st, e))
  {
  }

  lemma {:induction false} StepCounted(st: Store, e: Step)
    requires Counted(st) && Possible(st, e)
    ensures Counted(Next(st, e))
  {
    hide MarkersStarted, StartsOnce, ApplyStart, ReconcileRow, ReconcileAll, StartAll;
    match e
    case Cycle(order, now, grace, tries) =>
      ReconcileAllCounted(st, order, now, grace);
      StartAllCounted(ReconcileAll(st, order, now, grace), tries, grace);
    case ReconcileStep(listed, now, grace) =>
      ReconcileKeepsMarkers(st, listed, now, grace);
      ReconcileKeepsStartsOnce(st, listed, now, grace);
    case Claim(id, now, grace, _) => ClaimCounted(st, id, now, grace);
    case Apply(id, tokenReady, snapshotValid) =>
      ApplyKeepsMarkers(st, id, tokenReady, snapshotValid);
      ApplyKeepsStartsOnce(st, id, tokenReady, snapshotValid);
    case _ => OtherStepsCounted(st, e);
  }

  lemma {:induction false} StepAdvances(st: Store, e: Step, row: nat)
    requires Counted(st) && Possible(st, e)
    ensures RowKept(st, Next(st, e), row)
  {
    match e
    case Cycle(order, now, grace, tries) =>
      hide ReconcileAll, StartAll, RowKept, MarkersStarted;
      ReconcileAllAdvances(st, order, now, grace, row);
      StartAllAdvances(ReconcileAll(st, order, now, grace), tries, grace, row);
      KeptTransitive(st, ReconcileAll(st, order, now, grace), Next(st, e), row);
    case ReconcileStep(listed, now, grace) => ReconcileRowAdvances(st, listed, now, grace, row);
    case Apply(id, tokenReady, snapshotValid) => ApplyAdvances(st, id, tokenReady, snapshotValid, row);
    case _ =>
  }

  /** Along every interleaving of every worker's transactions statuses only move up the
      ranks, terminal rows keep their status for good, and no schedule ever enters
      RUNNING, or enables its account, a second time. */
  lemma {:induction false} StatusesOnlyAdvance(st: Store, es: seq<Step>, row: nat)
    requires Counted(st) && PossibleRun(st, es)
    ensures RowKept(st, Run(st, es), row)
    ensures row in Run(st, es).schedules ==> Run(st, es).schedules[row].starts <= 1
    decreases |es|
  {
    if |es| > 0 {
      StepCounted(st, es[0]);
      StepAdvances(st, es[0], row);
      StatusesOnlyAdvance(Next(st, es[0]), es[1..], row);
      hide Counted, RowKept, Next;
      KeptTransitive(st, Next(st, es[0]), Run(st, es), row);
    }
  }

  // ------------------------------------------------------- what interleaving breaks

  function Fresh(due: int, created: int): Schedule { Schedule(7, Wait, due, created, Scheduled, None, 0) }

  /** An account and no schedules. */
  const START := Store(map[], map[7 := Account(false, false, None, 0)])

  lemma StartIsSound()
    ensures Sound(START) && Counted(START)
  {
  }

  /** Two rows created, claimed and, with a Stop of the account in between, applied. */
  const STOP_BETWEEN := [
    Create(0, Fresh(0, 0)), Create(1, Fresh(1, 1)), Claim(0, 0, 60, {}), Apply(0, true, true),
    Claim(1, 1, 60, {}), OutsideStop(7, false, true), Apply(1, true, true)]

  lemma {:induction false} StepsCompose(st: Store, e: Step, es: seq<Step>)
    requires Possible(st, e) && PossibleRun(Next(st, e), es)
    ensures PossibleRun(st, [e] + es) && Run(st, [e] + es) == Run(Next(st, e), es)
  {
    assert ([e] + es)[1..] == es;
  }

  /** Without the atomic cycle single ownership fails on a reachable state: a Stop
      between a claim and its apply leaves two running schedules on one account. */
  lemma {:induction false} StopInsideCycleBreaksOwnership()
    ensures PossibleRun(START, STOP_BETWEEN) && !SingleOwner(Run(START, STOP_BETWEEN))
  {
    var es := STOP_BETWEEN;
    var s1 := Next(START, es[0]);
    var s2 := Next(s1, es[1]);
    var s3 := Next(s2, es[2]);
    var s4 := Next(s3, es[3]);
    var s5 := Next(s4, es[4]);
    var s6 := Next(s5, es[5]);
    var s7 := Next(s6, es[6]);
    assert s7.schedules[0].status.Running? && s7.schedules[1].status.Running?;
    assert PossibleRun(s7, []) && Run(s7, []) == s7;
    StepsCompose(s6, es[6], []);
    StepsCompose(s5, es[5], [es[6]]);
    StepsCompose(s4, es[4], [es[5]] + [es[6]]);
    StepsCompose(s3, es[3], [es[4]] + ([es[5]] + [es[6]]));
    StepsCompose(s2, es[2], [es[3]] + ([es[4]] + ([es[5]] + [es[6]])));
    StepsCompose(s1, es[1], [es[2]] + ([es[3]] + ([es[4]] + ([es[5]] + [es[6]]))));
    StepsCompose(START, es[0], [es[1]] + ([es[2]] + ([es[3]] + ([es[4]] + ([es[5]] + [es[6]])))));
    assert es == [es[0]] + ([es[1]] + ([es[2]] + ([es[3]] + ([es[4]] + ([es[5]] + [es[6]])))));
  }

  /** A worker that applies a row which another worker has taken over and started marks
      the running schedule failed, while its account stays enabled. */
  lemma SecondApplyFailsRunning(st: Store, id: nat, tokenReady: bool, snapshotValid: bool)
    requires id in st.schedules && st.schedules[id].status.Running?
    ensures var next := StartOne(st, id, tokenReady, snapshotValid);
            next.schedules[id].status.Failed? && next.accounts == st.accounts
  {
  }
}
