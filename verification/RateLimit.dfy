/** The sliding-window limiter `_enforce_rate_limit` of app/api.py.  Times are seconds. */
module RateLimit {

  const WINDOW := 60.0

  type Store = map<string, seq<real>>

  /** The expired entries at the front go; the scan stops at the first live one. */
  function Prune(history: seq<real>, now: real): seq<real> {
    if |history| > 0 && now - history[0] > WINDOW then Prune(history[1..], now) else history
  }

  function History(store: Store, key: string): seq<real> {
    if key in store then store[key] else []
  }

  predicate Accepts(history: seq<real>, limit: nat, now: real) {
    |Prune(history, now)| < limit
  }

  function Enforce(store: Store, key: string, limit: nat, now: real): Store {
    var live := Prune(History(store, key), now);
    store[key := if |live| >= limit then live else live + [now]]
  }

  datatype Request = Request(key: string, now: real)

  function Run(limit: nat, rs: seq<Request>): Store {
    if |rs| == 0 then map[]
    else Enforce(Run(limit, rs[..|rs| - 1]), rs[|rs| - 1].key, limit, rs[|rs| - 1].now)
  }

  /** The request with this index got through. */
  predicate Accepted(limit: nat, rs: seq<Request>, i: nat)
    requires i < |rs|
  {
    Accepts(History(Run(limit, rs[..i]), rs[i].key), limit, rs[i].now)
  }

  /** The times at which requests of one key got through. */
  function Log(limit: nat, rs: seq<Request>, key: string): seq<real> {
    if |rs| == 0 then []
    else
      Log(limit, rs[..|rs| - 1], key)
      + if rs[|rs| - 1].key == key && Accepted(limit, rs, |rs| - 1) then [rs[|rs| - 1].now] else []
  }

  /** The clock never runs backwards between two requests of one key. */
  predicate ClockHolds(rs: seq<Request>) {
    forall i, j :: 0 <= i < j < |rs| && rs[i].key == rs[j].key ==> rs[i].now <= rs[j].now
  }

  /** How many of the times lie in the minute before now. */
  function Recent(times: seq<real>, now: real): nat {
    if |times| == 0 then 0
    else Recent(times[..|times| - 1], now) + if now - times[|times| - 1] <= WINDOW then 1 else 0
  }

  // ----------------------------------------------------------------------- invariant

  predicate Ascending(times: seq<real>) {
    forall i, j :: 0 <= i <= j < |times| ==> times[i] <= times[j]
  }

  predicate AllBy(times: seq<real>, now: real) {
    forall i :: 0 <= i < |times| ==> times[i] <= now
  }

  /** Any limit + 1 consecutive times span more than the window. */
  predicate Spaced(times: seq<real>, limit: nat) {
    forall i :: 0 <= i < |times| - limit ==> times[i + limit] - times[i] > WINDOW
  }

  /** The history is the tail of the log from `from` on; what is before it had expired
      by the time `latest`. */
  predicate TailOf(history: seq<real>, log: seq<real>, from: nat, latest: real) {
    && from <= |log| && history == log[from..]
    && forall i :: 0 <= i < from ==> latest - log[i] > WINDOW
  }

  lemma {:induction false} PruneDropsExpired(log: seq<real>, from: nat, latest: real, now: real) returns (to: nat)
    requires from <= |log| && TailOf(log[from..], log, from, latest) && latest <= now && Ascending(log)
    ensures TailOf(Prune(log[from..], now), log, to, now)
    ensures forall i :: to <= i < |log| ==> now - log[i] <= WINDOW
    decreases |log| - from
  {
    if from < |log| && now - log[from] > WINDOW {
      assert log[from..][1..] == log[from + 1..];
      to := PruneDropsExpired(log, from + 1, now, now);
    } else {
      to := from;
    }
  }

  /** With the times ascending, the recent ones are the tail that has not expired. */
  lemma {:induction false} RecentIsTail(times: seq<real>, to: nat, now: real)
    requires to <= |times|
    requires forall i :: 0 <= i < to ==> now - times[i] > WINDOW
    requires forall i :: to <= i < |times| ==> now - times[i] <= WINDOW
    ensures Recent(times, now) == |times| - to
  {
    if |times| > 0 {
      RecentIsTail(times[..|times| - 1], if to == |times| then to - 1 else to, now);
    }
  }

  lemma {:induction false} AppendEntry(log: seq<real>, to: nat, limit: nat, now: real)
    requires limit >= 1 && to <= |log| < to + limit && TailOf(log[to..], log, to, now)
    requires Ascending(log) && Spaced(log, limit) && AllBy(log, now)
    ensures Ascending(log + [now]) && Spaced(log + [now], limit) && AllBy(log + [now], now)
    ensures TailOf(log[to..] + [now], log + [now], to, now)
  {
    assert (log + [now])[to..] == log[to..] + [now];
  }

  lemma {:induction false} FirstHasExpired(log: seq<real>, to: nat, limit: nat, now: real)
    requires to + limit < |log| && Spaced(log, limit) && AllBy(log, now)
    ensures now - log[to] > WINDOW
  {
    assert log[to + limit] - log[to] > WINDOW;
  }

  lemma {:induction false} AtMostLimit(log: seq<real>, to: nat, limit: nat, now: real)
    requires to <= |log| && Spaced(log, limit) && AllBy(log, now)
    requires to < |log| ==> now - log[to] <= WINDOW
    ensures |log| - to <= limit
  {
    if to + limit < |log| {
      FirstHasExpired(log, to, limit, now);
    }
  }

  /** One request: the decision, the new tail and the spacing. */
  lemma {:induction false} OneRequest(log: seq<real>, from: nat, limit: nat, latest: real, now: real)
    returns (to: nat)
    requires limit >= 1 && from <= |log| && TailOf(log[from..], log, from, latest) && latest <= now
    requires Ascending(log) && Spaced(log, limit) && AllBy(log, now)
    ensures Accepts(log[from..], limit, now) <==> Recent(log, now) < limit
    ensures Recent(log, now) <= limit
    ensures var entry := if Accepts(log[from..], limit, now) then [now] else [];
            Ascending(log + entry) && Spaced(log + entry, limit) && AllBy(log + entry, now)
            && TailOf(Prune(log[from..], now) + entry, log + entry, to, now)
  {
    to := PruneDropsExpired(log, from, latest, now);
    RecentIsTail(log, to, now);
    AtMostLimit(log, to, limit, now);
    assert Prune(log[from..], now) == log[to..];
    hide Recent, Prune, Ascending, Spaced, AllBy;
    if |log| - to < limit {
      AppendEntry(log, to, limit, now);
    } else {
      assert log + [] == log && log[to..] + [] == log[to..];
    }
  }

  /** The state of one key after a run. */
  lemma {:induction false} RunInvariant(limit: nat, rs: seq<Request>, key: string, latest: real) returns (from: nat)
    requires limit >= 1 && ClockHolds(rs)
    requires forall i :: 0 <= i < |rs| && rs[i].key == key ==> rs[i].now <= latest
    ensures TailOf(History(Run(limit, rs), key), Log(limit, rs, key), from, latest)
    ensures Ascending(Log(limit, rs, key)) && Spaced(Log(limit, rs, key), limit)
    ensures AllBy(Log(limit, rs, key), latest)
  {
    if |rs| == 0 {
      from := 0;
    } else {
      var pre, r := rs[..|rs| - 1], rs[|rs| - 1];
      UnfoldRun(limit, rs, key);
      hide Prune, Run, Log, Spaced, Ascending, Accepts, AllBy, TailOf;
      if r.key == key {
        from := RunInvariant(limit, pre, key, r.now);
        from := OneRequest(Log(limit, pre, key), from, limit, r.now, r.now);
        Later(History(Run(limit, rs), key), Log(limit, rs, key), from, r.now, latest);
      } else {
        from := RunInvariant(limit, pre, key, latest);
      }
    }
  }

  lemma {:induction false} Later(history: seq<real>, log: seq<real>, from: nat, now: real, latest: real)
    requires TailOf(history, log, from, now) && AllBy(log, now) && now <= latest
    ensures TailOf(history, log, from, latest) && AllBy(log, latest)
  {
  }

  lemma {:induction false} UnfoldRun(limit: nat, rs: seq<Request>, key: string)
    requires |rs| > 0
    ensures var pre, r := rs[..|rs| - 1], rs[|rs| - 1];
            var h := History(Run(limit, pre), key);
            var entry := if Accepts(h, limit, r.now) then [r.now] else [];
            if r.key == key then
              History(Run(limit, rs), key) == Prune(h, r.now) + entry
              && Log(limit, rs, key) == Log(limit, pre, key) + entry
            else
              History(Run(limit, rs), key) == h && Log(limit, rs, key) == Log(limit, pre, key)
  {
  }

  /** Over every run with a forward clock: any limit + 1 consecutive accepted requests
      of a key span more than a minute. */
  lemma {:induction false} AcceptedAreSpaced(limit: nat, rs: seq<Request>, key: string, latest: real)
    requires limit >= 1 && ClockHolds(rs)
    requires forall i :: 0 <= i < |rs| && rs[i].key == key ==> rs[i].now <= latest
    ensures Spaced(Log(limit, rs, key), limit)
  {
    var _ := RunInvariant(limit, rs, key, latest);
  }

  /** A request is refused exactly when `limit` requests of its key were accepted in
      the minute before it. */
  lemma {:induction false} RefusedExactly(limit: nat, rs: seq<Request>, i: nat)
    requires limit >= 1 && ClockHolds(rs) && i < |rs|
    ensures !Accepted(limit, rs, i) <==> Recent(Log(limit, rs[..i], rs[i].key), rs[i].now) >= limit
    ensures Recent(Log(limit, rs[..i], rs[i].key), rs[i].now) <= limit
  {
    var pre, key, now := rs[..i], rs[i].key, rs[i].now;
    var from := RunInvariant(limit, pre, key, now);
    var log := Log(limit, pre, key);
    hide Log, Run, Recent, Prune;
    var _ := OneRequest(log, from, limit, now, now);
  }

  function Expired(times: seq<real>, now: real): nat {
    if |times| == 0 then 0
    else Expired(times[..|times| - 1], now) + if now - times[|times| - 1] > WINDOW then 1 else 0
  }

  lemma {:induction false} RecentAndExpired(times: seq<real>, now: real)
    ensures Recent(times, now) + Expired(times, now) == |times|
  {
    if |times| > 0 {
      RecentAndExpired(times[..|times| - 1], now);
    }
  }

  /** The expired entries before the first live one. */
  function LeadingExpired(times: seq<real>, now: real): nat {
    if |times| > 0 && now - times[0] > WINDOW then 1 + LeadingExpired(times[1..], now) else 0
  }

  lemma {:induction false} PruneLength(history: seq<real>, now: real)
    ensures |Prune(history, now)| == |history| - LeadingExpired(history, now)
  {
    if |history| > 0 && now - history[0] > WINDOW {
      PruneLength(history[1..], now);
    }
  }

  /** With any clock a request is refused with room left exactly when enough entries of
      the history have expired, but too few of them lead it. */
  lemma {:induction false} RefusedWithRoomExactly(history: seq<real>, limit: nat, now: real)
    ensures !Accepts(history, limit, now) && Recent(history, now) < limit
       <==> LeadingExpired(history, now) <= |history| - limit < Expired(history, now)
  {
    RecentAndExpired(history, now);
    PruneLength(history, now);
  }

  const LATE := [Request("k", 61.0), Request("k", 0.0), Request("k", 62.0)]

  lemma {:induction false} LateFirst()
    ensures History(Run(2, LATE[..1]), "k") == [61.0] && Log(2, LATE[..1], "k") == [61.0]
  {
    assert LATE[..1] == [Request("k", 61.0)] && LATE[..1][..0] == [];
    assert History(Run(2, []), "k") == [];
  }

  lemma {:induction false} LateSecond()
    ensures History(Run(2, LATE[..2]), "k") == [61.0, 0.0] && Log(2, LATE[..2], "k") == [61.0, 0.0]
  {
    LateFirst();
    assert LATE[..2][..1] == LATE[..1] && LATE[..2][1] == LATE[1];
    UnfoldRun(2, LATE[..2], "k");
    hide Run, Log;
    assert Prune([61.0], 0.0) == [61.0];
  }

  /** The clock is read before the lock is taken.  When a request that read it early
      gets the lock late, its old entry stands behind a newer one and outlives its
      minute: a request is refused although the minute before it saw one of the two
      allowed. */
  lemma {:induction false} LateClockReadRefuses()
    ensures var rs := [Request("k", 61.0), Request("k", 0.0), Request("k", 62.0)];
            !ClockHolds(rs) && !Accepted(2, rs, 2) && Recent(Log(2, rs[..2], "k"), 62.0) == 1
  {
    LateSecond();
    hide Run, Log;
    assert LATE[1].now < LATE[0].now;
    assert Prune([61.0, 0.0], 62.0) == [61.0, 0.0];
    assert [61.0, 0.0][..1] == [61.0] && [61.0][..0] == [];
    assert Recent([61.0], 62.0) == 1;
  }

  // ------------------------------------------------------------------------ in place

  class Limiter {
    var store: Store

    /** The deque of one key is popped and appended to under the lock; no other key is
        touched. */
    method EnforceRateLimit(key: string, limit: nat, now: real) returns (accepted: bool)
      modifies this
      ensures accepted <==> Accepts(History(old(store), key), limit, now)
      ensures store == Enforce(old(store), key, limit, now)
    {
      var history := if key in store then store[key] else [];
      while |history| > 0 && now - history[0] > WINDOW
        invariant Prune(history, now) == Prune(History(old(store), key), now)
        decreases |history|
      {
        history := history[1..];
      }
      store := store[key := history];
      accepted := |history| < limit;
      if accepted {
        store := store[key := history + [now]];
      }
    }
  }
}
