/** The scheduler's transactions performed in place on the schedule and account
    tables, and the cycle loop that composes them. */
module SchedulerTables {
  import opened Scheduler

  /** One full turn of the start loop, or none when nothing is due. */
  function Turn(st: Store, t: StartTry, grace: nat): Store {
    StartAll(st, [t], grace)
  }

  /** The turn claimed a row and went on to apply it. */
  predicate Applied(st: Store, t: StartTry, grace: nat) {
    FirstDue(st, t.id, t.now, t.locked) && !ClaimRow(st.schedules[t.id], t.now, grace).status.Skipped?
  }

  /** Every listed turn was reached and applied. */
  predicate AllApplied(st: Store, tries: seq<StartTry>, grace: nat)
    decreases |tries|
  {
    |tries| == 0 || (Applied(st, tries[0], grace) && AllApplied(Turn(st, tries[0], grace), tries[1..], grace))
  }

  lemma TurnIs(st: Store, t: StartTry, grace: nat)
    ensures Turn(st, t, grace) ==
            if !FirstDue(st, t.id, t.now, t.locked) then st
            else if !Applied(st, t, grace) then ClaimStore(st, t.id, t.now, grace)
            else StartOne(ClaimStore(st, t.id, t.now, grace), t.id, t.tokenReady, t.snapshotValid)
  {
    var ts := [t];
    assert ts[0] == t && ts[1..] == [];
    if FirstDue(st, t.id, t.now, t.locked) {
      var claimed := ClaimStore(st, t.id, t.now, grace);
      var next := StartOne(claimed, t.id, t.tokenReady, t.snapshotValid);
      assert claimed.schedules[t.id].status == ClaimRow(st.schedules[t.id], t.now, grace).status;
      assert StartAll(next, ts[1..], grace) == next;
    }
  }

  lemma {:induction false} StartAllSplits(st: Store, tries: seq<StartTry>, t: StartTry, grace: nat)
    requires AllApplied(st, tries, grace)
    ensures StartAll(st, tries + [t], grace) == Turn(StartAll(st, tries, grace), t, grace)
    ensures AllApplied(st, tries + [t], grace) <==> Applied(StartAll(st, tries, grace), t, grace)
    decreases |tries|
  {
    if |tries| == 0 {
      assert tries + [t] == [t] && [t][1..] == [];
    } else {
      var next := Turn(st, tries[0], grace);
      TurnIs(st, tries[0], grace);
      StartAllSplits(next, tries[1..], t, grace);
      var all := tries + [t];
      assert all[0] == tries[0] && all[1..] == tries[1..] + [t];
      assert StartAll(st, all, grace) == StartAll(next, all[1..], grace);
      assert StartAll(st, tries, grace) == StartAll(next, tries[1..], grace);
    }
  }

  class SchedulerStore {
    var schedules: map<nat, Schedule>
    var accounts: map<nat, Account>

    function Snapshot(): Store
      reads this
    {
      Store(schedules, accounts)
    }

    /** `_mark_terminal` */
    method MarkScheduleTerminal(id: nat, status: Status) returns (changed: bool)
      modifies this
      ensures Snapshot() == MarkTerminal(old(Snapshot()), id, status)
      ensures changed <==> id in old(schedules) && !Terminal(old(schedules)[id].status)
    {
      if id !in schedules || Terminal(schedules[id].status) {
        return false;
      }
      schedules := schedules[id := WithStatus(schedules[id], status)];
      return true;
    }

    /** The cancel route: false answers 409. */
    method CancelSchedule(id: nat) returns (accepted: bool)
      requires id in schedules
      modifies this
      ensures Snapshot() == Cancel(old(Snapshot()), id)
      ensures accepted <==> !old(schedules)[id].status.Running?
      ensures accepted ==> Terminal(schedules[id].status)
    {
      if schedules[id].status.Running? {
        return false;
      }
      if !Terminal(schedules[id].status) {
        schedules := schedules[id := WithStatus(schedules[id], Cancelled)];
      }
      return true;
    }

    /** The rows the reconcile pass starts from, with their claims' expiry. */
    method ListActive() returns (items: seq<Listed>)
      ensures ListsActive(Snapshot(), items)
      ensures forall l :: l in items ==>
                l.id in schedules && (schedules[l.id].status.Running? || schedules[l.id].status.Starting?)
    {
      items := [];
      var remaining := schedules.Keys;
      while remaining != {}
        invariant remaining <= schedules.Keys
        invariant forall id :: id in schedules && id !in remaining
                    && (schedules[id].status.Running? || schedules[id].status.Starting?)
                    ==> Listed(id, schedules[id].claimExpires) in items
        invariant forall l :: l in items ==>
                    l.id in schedules && l.expires == schedules[l.id].claimExpires
                    && (schedules[l.id].status.Running? || schedules[l.id].status.Starting?)
        decreases |remaining|
      {
        var id :| id in remaining;
        remaining := remaining - {id};
        if schedules[id].status.Running? || schedules[id].status.Starting? {
          items := items + [Listed(id, schedules[id].claimExpires)];
        }
      }
    }

    /** One row's transaction of the pass. */
    method ReconcileOne(item: Listed, now: int, grace: nat)
      modifies this`schedules
      ensures Snapshot() == ReconcileRow(old(Snapshot()), item, now, grace)
    {
      var id := item.id;
      if id !in schedules || !(schedules[id].status.Running? || schedules[id].status.Starting?) {
        return;
      }
      var row := schedules[id];
      if row.account !in accounts {
        row := WithStatus(row, Failed);
      } else {
        var account := accounts[row.account];
        if row.status.Starting? {
          if account.enabled && account.marker == Some(id) {
            row := WithStatus(row, Running).(starts := row.starts + 1);
          } else if account.enabled {
            row := WithStatus(row, Waiting);
          } else if item.expires.Some? && item.expires.value <= now {
            row := WithStatus(row, if now - row.due <= grace then Scheduled else Skipped);
          }
        } else if !account.enabled {
          row := WithStatus(row, if account.failure then Failed else Completed);
        }
      }
      schedules := schedules[id := row];
    }

    /** `_reconcile_running_schedules`: the listing, then one transaction a row. */
    method ReconcileRunning(now: int, grace: nat) returns (items: seq<Listed>)
      modifies this`schedules
      ensures Snapshot() == ReconcileAll(old(Snapshot()), items, now, grace)
      ensures Possible(old(Snapshot()), Cycle(items, now, grace, []))
    {
      items := ListActive();
      ghost var start := Snapshot();
      var i := 0;
      while i < |items|
        invariant 0 <= i <= |items|
        invariant ReconcileAll(start, items, now, grace) == ReconcileAll(Snapshot(), items[i..], now, grace)
      {
        hide ReconcileRow;
        assert items[i..][0] == items[i] && items[i..][1..] == items[i + 1..];
        ReconcileOne(items[i], now, grace);
        i := i + 1;
      }
    }

    /** `_claim_next_due`: the earliest due row that no other worker holds locked,
        claimed or skipped as too late. */
    method ClaimNextDue(now: int, grace: nat, locked: set<nat>) returns (found: Option<nat>)
      modifies this`schedules
      ensures found.None? ==> (forall id :: id in old(schedules) && id !in locked ==> !Due(old(schedules)[id], now))
                              && schedules == old(schedules)
      ensures found.Some? ==> FirstDue(old(Snapshot()), found.value, now, locked)
                              && Snapshot() == ClaimStore(old(Snapshot()), found.value, now, grace)
    {
      found := None;
      var remaining := schedules.Keys - locked;
      while remaining != {}
        invariant remaining <= schedules.Keys - locked
        invariant found.Some? ==> found.value in schedules && found.value !in locked && Due(schedules[found.value], now)
        invariant forall id :: id in schedules && id !in locked && id !in remaining && Due(schedules[id], now) ==>
                    found.Some? && Earlier(schedules[found.value], schedules[id])
        decreases |remaining|
      {
        var id :| id in remaining;
        remaining := remaining - {id};
        if Due(schedules[id], now) && (found.None? || Earlier(schedules[id], schedules[found.value])) {
          found := Some(id);
        }
      }
      if found.Some? {
        var id := found.value;
        if schedules[id].status.Scheduled? && now - schedules[id].due > grace {
          schedules := schedules[id := schedules[id].(status := Skipped)];
        } else {
          schedules := schedules[id := schedules[id].(status := Starting, claimExpires := Some(now + CLAIM_SECONDS))];
        }
      }
    }

    /** `_finish_replaced_running_schedules` */
    method FinishReplacedRunning(account: nat, replacing: nat)
      modifies this`schedules
      ensures schedules == FinishReplaced(old(schedules), account, replacing)
    {
      ghost var start := schedules;
      var remaining := schedules.Keys;
      while remaining != {}
        invariant remaining <= schedules.Keys == start.Keys
        invariant forall id :: id in start ==>
                    schedules[id] == if id in remaining then start[id]
                                     else FinishReplaced(start, account, replacing)[id]
        decreases |remaining|
      {
        var id :| id in remaining;
        remaining := remaining - {id};
        if schedules[id].account == account && schedules[id].status.Running? && id != replacing {
          schedules := schedules[id := schedules[id].(status := Completed)];
        }
      }
    }

    /** `_apply_schedule_strategy` */
    method ApplySchedule(id: nat, tokenReady: bool, snapshotValid: bool) returns (outcome: Outcome)
      modifies this
      ensures (Snapshot(), outcome) == ApplyStart(old(Snapshot()), id, tokenReady, snapshotValid)
    {
      if id !in schedules || !schedules[id].status.Starting? {
        return NotStartable;
      }
      var row := schedules[id];
      if row.account !in accounts || !tokenReady {
        return Rejected;
      }
      var account := accounts[row.account];
      if account.enabled && row.policy.Wait? {
        schedules := schedules[id := WithStatus(row, Waiting)];
        return WaitingOutcome;
      }
      if account.enabled && row.policy.Skip? {
        schedules := schedules[id := WithStatus(row, Skipped)];
        return SkippedOutcome;
      }
      if account.enabled {
        accounts := accounts[row.account := account.(enabled := false, failure := false, marker := None)];
        FinishReplacedRunning(row.account, id);
      }
      if account.openCount > 0 {
        schedules := schedules[id := WithStatus(row, Waiting)];
        return WaitingOutcome;
      }
      if !snapshotValid {
        return Rejected;
      }
      accounts := accounts[row.account := Account(true, false, Some(id), 0)];
      schedules := schedules[id := WithStatus(row, Running).(starts := row.starts + 1)];
      return Started;
    }

    /** One turn of the start loop: claim, apply, and mark what failed. */
    method TakeTurn(now: int, grace: nat, locked: set<nat>, ready: nat -> bool, valid: nat -> bool)
      returns (found: Option<nat>, applied: bool, started: bool)
      modifies this
      ensures found.None? ==> Snapshot() == old(Snapshot()) && !applied
      ensures found.Some? ==>
                var t := StartTry(found.value, now, locked, ready(found.value), valid(found.value));
                FirstDue(old(Snapshot()), t.id, now, locked)
                && Snapshot() == Turn(old(Snapshot()), t, grace) && (applied <==> Applied(old(Snapshot()), t, grace))
      ensures started ==> applied
    {
      applied, started := false, false;
      found := ClaimNextDue(now, grace, locked);
      if found.None? {
        return;
      }
      var id := found.value;
      TurnIs(old(Snapshot()), StartTry(id, now, locked, ready(id), valid(id)), grace);
      if schedules[id].status.Skipped? {
        return;
      }
      applied := true;
      var outcome := ApplySchedule(id, ready(id), valid(id));
      started := outcome.Started?;
      if outcome.Rejected? || outcome.NotStartable? {
        var _ := MarkScheduleTerminal(id, Failed);
      }
    }

    /** `run_scheduler_cycle`: reconcile, then at most `maxStarts` claims; `locked` are
        the rows other workers hold, `ready` and `valid` answer for credentials and
        saved strategies. */
    method RunCycle(now: int, grace: nat, maxStarts: nat, locked: set<nat>, ready: nat -> bool, valid: nat -> bool)
      returns (claimed: nat, started: nat, ghost items: seq<Listed>, ghost tries: seq<StartTry>)
      modifies this
      ensures Possible(old(Snapshot()), Cycle(items, now, grace, tries))
      ensures Snapshot() == Next(old(Snapshot()), Cycle(items, now, grace, tries))
      ensures started <= claimed <= maxStarts
    {
      items := ReconcileRunning(now, grace);
      ghost var start := Snapshot();
      claimed, started, tries := 0, 0, [];
      for turn := 0 to maxStarts
        invariant Snapshot() == StartAll(start, tries, grace) && AllApplied(start, tries, grace)
        invariant started <= claimed <= turn
      {
        hide StartAll, Turn, Applied, FirstDue;
        var found, applied, ok := TakeTurn(now, grace, locked, ready, valid);
        if found.Some? {
          ghost var t := StartTry(found.value, now, locked, ready(found.value), valid(found.value));
          StartAllSplits(start, tries, t, grace);
          tries := tries + [t];
        }
        if !applied {
          break;
        }
        claimed := claimed + 1;
        if ok {
          started := started + 1;
        }
      }
    }
  }
}
