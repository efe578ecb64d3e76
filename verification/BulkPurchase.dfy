/** Bulk purchase sharding: `_eligible_purchase_accounts`,
    `_purchase_accounts_by_stake` and `_purchase_stake_group_for_environment` of
    enhanced_bot.py.  Stakes are cents; the provider's answer to each shard is an
    input. */
module BulkPurchase {

  datatype Option<T> = None | Some(value: T)

  datatype Environment = Demo | Live

  datatype Account = Account(
    token: nat, id: nat, managed: Option<nat>, patCapable: bool,
    environment: Environment, martingale: bool, stake: int)

  /** One group of the purchase: environment, team and stake. */
  datatype Key = Key(environment: Environment, martingale: bool, stake: int)

  const SHARD_LIMIT := 100

  function KeyOf(a: Account): Key { Key(a.environment, a.martingale, a.stake) }

  datatype Shard = Shard(key: Key, index: nat, members: seq<Account>)

  // ----------------------------------------------------------- eligible accounts

  predicate DistinctIds(es: seq<Account>) {
    forall i, j :: 0 <= i < j < |es| ==> es[i].id != es[j].id
  }

  /** The entry, and no earlier one has its account id. */
  predicate FirstOfItsId(clients: seq<Account>, a: Account) {
    exists k :: 0 <= k < |clients| && clients[k] == a && forall j :: 0 <= j < k ==> clients[j].id != a.id
  }

  /** `_eligible_purchase_accounts`: later entries for a seen account id are dropped. */
  method EligibleAccounts(clients: seq<Account>) returns (unique: seq<Account>)
    ensures DistinctIds(unique)
    ensures forall a :: a in unique ==> a in clients
    ensures forall a :: a in clients ==> exists b :: b in unique && b.id == a.id
    ensures forall a :: a in unique ==> FirstOfItsId(clients, a)
  {
    unique := [];
    var seen: set<nat> := {};
    for i := 0 to |clients|
      invariant seen == set a | a in unique :: a.id
      invariant DistinctIds(unique)
      invariant forall a :: a in unique ==> a in clients
      invariant forall k :: 0 <= k < i ==> clients[k].id in seen
      invariant forall a :: a in unique ==> FirstOfItsId(clients, a)
      invariant forall id :: id in seen ==> exists k :: 0 <= k < i && clients[k].id == id
    {
      if clients[i].id in seen {
        continue;
      }
      seen := seen + {clients[i].id};
      unique := unique + [clients[i]];
    }
    forall a | a in clients ensures exists b :: b in unique && b.id == a.id {
      var k :| 0 <= k < |clients| && clients[k] == a;
      assert clients[k].id in seen;
    }
  }

  // ------------------------------------------------------------------- orders used

  predicate KeyBefore(a: Key, b: Key) {
    if a.environment != b.environment then a.environment.Demo?
    else if a.martingale != b.martingale then b.martingale
    else a.stake <= b.stake
  }

  /** Accounts without a managed id sort last; ties go by account id. */
  predicate AccountBefore(a: Account, b: Account) {
    if a.managed.None? || b.managed.None? then
      b.managed.None? && (a.managed.Some? || a.id <= b.id)
    else a.managed.value < b.managed.value || (a.managed.value == b.managed.value && a.id <= b.id)
  }

  predicate SortedAccounts(es: seq<Account>) {
    forall i, j :: 0 <= i < j < |es| ==> AccountBefore(es[i], es[j])
  }

  function InsertAccount(a: Account, es: seq<Account>): (r: seq<Account>)
    ensures multiset(r) == multiset(es) + multiset{a}
  {
    if |es| == 0 || AccountBefore(a, es[0]) then [a] + es
    else
      assert es == [es[0]] + es[1..];
      [es[0]] + InsertAccount(a, es[1..])
  }

  lemma {:induction false} PrependSorted(a: Account, es: seq<Account>)
    requires SortedAccounts(es) && forall b :: b in es ==> AccountBefore(a, b)
    ensures SortedAccounts([a] + es)
  {
    hide AccountBefore;
  }

  lemma {:induction false} InsertSorted(a: Account, es: seq<Account>)
    requires SortedAccounts(es)
    ensures SortedAccounts(InsertAccount(a, es))
  {
    if |es| == 0 || AccountBefore(a, es[0]) {
      PrependSorted(a, es);
    } else {
      InsertSorted(a, es[1..]);
      var rest := InsertAccount(a, es[1..]);
      hide SortedAccounts;
      forall b | b in rest ensures AccountBefore(es[0], b) {
        assert b in multiset(rest);
        assert b == a || b in es[1..];
        HeadFirst(es, b);
      }
      PrependSorted(es[0], rest);
    }
  }

  lemma {:induction false} HeadFirst(es: seq<Account>, b: Account)
    requires SortedAccounts(es) && |es| > 0
    ensures b in es[1..] ==> AccountBefore(es[0], b)
  {
    hide AccountBefore;
    if b in es[1..] {
      var i :| 0 <= i < |es| - 1 && es[1..][i] == b;
      assert es[1 + i] == b;
    }
  }

  function SortAccounts(es: seq<Account>): (r: seq<Account>)
    ensures multiset(r) == multiset(es) && |r| == |es|
  {
    if |es| == 0 then []
    else
      assert es == [es[0]] + es[1..];
      var r := InsertAccount(es[0], SortAccounts(es[1..]));
      assert |r| == |multiset(r)| && |es| == |multiset(es)|;
      r
  }

  lemma {:induction false} SortAccountsSorts(es: seq<Account>)
    ensures SortedAccounts(SortAccounts(es))
  {
    if |es| > 0 {
      SortAccountsSorts(es[1..]);
      InsertSorted(es[0], SortAccounts(es[1..]));
    }
  }

  /** The keys in order, each once. */
  method SortKeys(keys: set<Key>) returns (sorted: seq<Key>)
    ensures forall k :: k in sorted <==> k in keys
    ensures forall i, j :: 0 <= i < j < |sorted| ==> sorted[i] != sorted[j] && KeyBefore(sorted[i], sorted[j])
  {
    sorted := [];
    var rest := keys;
    while rest != {}
      invariant rest <= keys
      invariant forall k :: k in sorted <==> k in keys && k !in rest
      invariant forall i, j :: 0 <= i < j < |sorted| ==> sorted[i] != sorted[j] && KeyBefore(sorted[i], sorted[j])
      invariant forall i, k :: 0 <= i < |sorted| && k in rest ==> KeyBefore(sorted[i], k)
      decreases |rest|
    {
      var least :| least in rest;
      var left := rest - {least};
      while left != {}
        invariant left <= rest && least in rest && least !in left
        invariant forall k :: k in rest && k !in left ==> KeyBefore(least, k)
        decreases |left|
      {
        var k :| k in left;
        left := left - {k};
        if !KeyBefore(least, k) {
          least := k;
        }
      }
      sorted := sorted + [least];
      rest := rest - {least};
    }
  }

  // ---------------------------------------------------------------- specification

  function Capable(es: seq<Account>): seq<Account> {
    if |es| == 0 then []
    else Capable(es[..|es| - 1]) + if es[|es| - 1].patCapable then [es[|es| - 1]] else []
  }

  function Incapable(es: seq<Account>): seq<Account> {
    if |es| == 0 then []
    else Incapable(es[..|es| - 1]) + if es[|es| - 1].patCapable then [] else [es[|es| - 1]]
  }

  /** The accounts of one group, in arrival order. */
  function Group(es: seq<Account>, k: Key): seq<Account> {
    if |es| == 0 then []
    else Group(es[..|es| - 1], k) + if KeyOf(es[|es| - 1]) == k then [es[|es| - 1]] else []
  }

  function InKeys(es: seq<Account>, ks: set<Key>): seq<Account> {
    if |es| == 0 then []
    else InKeys(es[..|es| - 1], ks) + if KeyOf(es[|es| - 1]) in ks then [es[|es| - 1]] else []
  }

  function Members(shards: seq<Shard>): seq<Account> {
    if |shards| == 0 then [] else Members(shards[..|shards| - 1]) + shards[|shards| - 1].members
  }

  lemma {:induction false} SplitByCapability(es: seq<Account>)
    ensures multiset(es) == multiset(Capable(es)) + multiset(Incapable(es))
  {
    if |es| > 0 {
      SplitByCapability(es[..|es| - 1]);
      assert es == es[..|es| - 1] + [es[|es| - 1]];
    }
  }

  lemma InKeysSnoc(es: seq<Account>, ks: set<Key>, a: Account)
    ensures InKeys(es + [a], ks) == InKeys(es, ks) + if KeyOf(a) in ks then [a] else []
  {
    assert (es + [a])[..|es|] == es;
  }

  lemma {:induction false} OneMoreKey(es: seq<Account>, ks: set<Key>, k: Key)
    requires k !in ks
    ensures multiset(InKeys(es, ks + {k})) == multiset(InKeys(es, ks)) + multiset(Group(es, k))
  {
    if |es| > 0 {
      var pre, last := es[..|es| - 1], es[|es| - 1];
      assert es == pre + [last];
      OneMoreKey(pre, ks, k);
      InKeysSnoc(pre, ks, last);
      InKeysSnoc(pre, ks + {k}, last);
      GroupSnoc(pre, k, last);
      hide InKeys, Group;
      if KeyOf(last) == k {
      } else if KeyOf(last) in ks {
      } else {
      }
    }
  }

  lemma GroupSnoc(es: seq<Account>, k: Key, a: Account)
    ensures Group(es + [a], k) == Group(es, k) + if KeyOf(a) == k then [a] else []
  {
    assert (es + [a])[..|es|] == es;
  }

  lemma {:induction false} AllKeys(es: seq<Account>, ks: set<Key>)
    requires forall a :: a in es ==> KeyOf(a) in ks
    ensures InKeys(es, ks) == es
  {
    if |es| > 0 {
      AllKeys(es[..|es| - 1], ks);
      assert es == es[..|es| - 1] + [es[|es| - 1]];
    }
  }

  lemma {:induction false} NoKeys(es: seq<Account>)
    ensures InKeys(es, {}) == []
  {
    if |es| > 0 {
      NoKeys(es[..|es| - 1]);
    }
  }

  lemma {:induction false} GroupMembers(es: seq<Account>, k: Key, a: Account)
    ensures a in Group(es, k) <==> a in es && KeyOf(a) == k
  {
    if |es| > 0 {
      GroupMembers(es[..|es| - 1], k, a);
      assert es == es[..|es| - 1] + [es[|es| - 1]];
    }
  }

  lemma {:induction false} MembersAppend(shards: seq<Shard>, s: Shard)
    ensures Members(shards + [s]) == Members(shards) + s.members
  {
    assert (shards + [s])[..|shards|] == shards;
  }

  lemma {:induction false} MembersEmpty()
    ensures Members([]) == []
  {
  }

  /** Shards go by key, and by index within a key. */
  predicate InOrder(a: Shard, b: Shard) {
    if a.key == b.key then a.index < b.index else KeyBefore(a.key, b.key)
  }

  predicate Ordered(shards: seq<Shard>) {
    forall i, j :: 0 <= i < j < |shards| ==> InOrder(shards[i], shards[j])
  }

  /** Between one and a hundred accounts in order, all of the shard's environment,
      team and stake. */
  predicate Uniform(s: Shard) {
    1 <= |s.members| <= SHARD_LIMIT && SortedAccounts(s.members) && forall a :: a in s.members ==> KeyOf(a) == s.key
  }

  /** Demo shards go before live ones, plain before martingale, and lower stakes first. */
  lemma ShardOrderExactly(shards: seq<Shard>, i: nat, j: nat)
    requires Ordered(shards) && i < j < |shards|
    ensures var a, b := shards[i].key, shards[j].key;
            && (a.environment.Live? ==> b.environment.Live?)
            && (a.environment == b.environment && a.martingale ==> b.martingale)
            && (a.environment == b.environment && a.martingale == b.martingale ==> a.stake <= b.stake)
            && (a == b ==> shards[i].index < shards[j].index)
  {
    assert InOrder(shards[i], shards[j]);
  }

  /** Accounts of a shard go by managed id, those without one last, then by account id. */
  lemma MemberOrderExactly(s: Shard, i: nat, j: nat)
    requires Uniform(s) && i < j < |s.members|
    ensures var a, b := s.members[i], s.members[j];
            && (a.managed.None? ==> b.managed.None?)
            && (a.managed.Some? && b.managed.Some? ==> a.managed.value <= b.managed.value)
            && (a.managed == b.managed ==> a.id <= b.id)
  {
    assert AccountBefore(s.members[i], s.members[j]);
  }

  // ----------------------------------------------------------------- the shard cut

  /** The dictionary holds exactly the groups of the accounts seen. */
  predicate Grouped(groups: map<Key, seq<Account>>, es: seq<Account>) {
    && (forall a :: a in es ==> KeyOf(a) in groups)
    && (forall k :: k in groups ==> groups[k] == Group(es, k) && groups[k] != [])
  }

  lemma {:induction false} AbsentGroup(es: seq<Account>, k: Key)
    requires forall a :: a in es ==> KeyOf(a) != k
    ensures Group(es, k) == []
  {
    if Group(es, k) != [] {
      GroupMembers(es, k, Group(es, k)[0]);
      assert false;
    }
  }

  lemma {:induction false} GroupOneMore(groups: map<Key, seq<Account>>, es: seq<Account>, a: Account)
    requires Grouped(groups, es)
    ensures var k := KeyOf(a);
            Grouped(groups[k := (if k in groups then groups[k] else []) + [a]], es + [a])
  {
    forall k ensures Group(es + [a], k) == Group(es, k) + if KeyOf(a) == k then [a] else [] {
      GroupSnoc(es, k, a);
    }
    if KeyOf(a) !in groups {
      AbsentGroup(es, KeyOf(a));
    }
  }

  /** The grouping loop. */
  method GroupByStake(eligible: seq<Account>)
    returns (groups: map<Key, seq<Account>>, rejected: seq<Account>)
    ensures rejected == Incapable(eligible)
    ensures Grouped(groups, Capable(eligible))
  {
    groups, rejected := map[], [];
    for i := 0 to |eligible|
      invariant rejected == Incapable(eligible[..i])
      invariant Grouped(groups, Capable(eligible[..i]))
    {
      hide Grouped;
      var a := eligible[i];
      assert eligible[..i + 1][..i] == eligible[..i] && eligible[..i + 1][i] == a;
      if !a.patCapable {
        assert Capable(eligible[..i + 1]) == Capable(eligible[..i]);
        rejected := rejected + [a];
        continue;
      }
      assert Capable(eligible[..i + 1]) == Capable(eligible[..i]) + [a];
      GroupOneMore(groups, Capable(eligible[..i]), a);
      var k := KeyOf(a);
      groups := groups[k := (if k in groups then groups[k] else []) + [a]];
    }
    assert eligible[..|eligible|] == eligible;
  }

  lemma {:induction false} SliceIsUniform(key: Key, index: nat, accounts: seq<Account>, from: nat, to: nat)
    requires SortedAccounts(accounts) && forall a :: a in accounts ==> KeyOf(a) == key
    requires from < to <= |accounts| && to - from <= SHARD_LIMIT
    ensures Uniform(Shard(key, index, accounts[from..to]))
  {
    hide AccountBefore, KeyOf;
    var slice := accounts[from..to];
    forall i, j | 0 <= i < j < |slice| ensures AccountBefore(slice[i], slice[j]) {
      assert slice[i] == accounts[from + i] && slice[j] == accounts[from + j];
    }
  }

  /** Cutting one sorted group into consecutive shards of at most a hundred. */
  method CutGroup(key: Key, accounts: seq<Account>) returns (shards: seq<Shard>)
    requires SortedAccounts(accounts) && forall a :: a in accounts ==> KeyOf(a) == key
    ensures Members(shards) == accounts
    ensures forall i :: 0 <= i < |shards| ==>
              Uniform(shards[i]) && shards[i].key == key && shards[i].index == i + 1
  {
    shards := [];
    var offset := 0;
    while offset < |accounts|
      invariant 0 <= offset <= |accounts|
      invariant offset == |accounts| || offset == SHARD_LIMIT * |shards|
      invariant Members(shards) == accounts[..offset]
      invariant forall i :: 0 <= i < |shards| ==>
                  Uniform(shards[i]) && shards[i].key == key && shards[i].index == i + 1
    {
      hide Uniform, SortedAccounts, Members, KeyOf;
      var end := if offset + SHARD_LIMIT <= |accounts| then offset + SHARD_LIMIT else |accounts|;
      var shard := Shard(key, offset / SHARD_LIMIT + 1, accounts[offset..end]);
      SliceIsUniform(key, offset / SHARD_LIMIT + 1, accounts, offset, end);
      MembersAppend(shards, shard);
      assert accounts[..offset] + accounts[offset..end] == accounts[..end];
      shards := shards + [shard];
      offset := end;
    }
    assert accounts[..|accounts|] == accounts;
  }

  lemma {:induction false} MembersConcat(a: seq<Shard>, b: seq<Shard>)
    ensures Members(a + b) == Members(a) + Members(b)
  {
    hide Members;
    MembersEmpty();
    if |b| == 0 {
      assert a + b == a && b == [];
    } else {
      var n := |b| - 1;
      MembersConcat(a, b[..n]);
      MembersAppend(a + b[..n], b[n]);
      MembersAppend(b[..n], b[n]);
      assert b == b[..n] + [b[n]];
      assert a + b == a + b[..n] + [b[n]];
    }
  }

  lemma {:induction false} NextKeyInOrder(earlier: seq<Shard>, cut: seq<Shard>, key: Key)
    requires Ordered(earlier)
    requires forall s :: s in earlier ==> s.key != key && KeyBefore(s.key, key)
    requires forall i :: 0 <= i < |cut| ==> cut[i].key == key && cut[i].index == i + 1
    ensures Ordered(earlier + cut)
  {
    hide KeyBefore;
  }

  /** One group, sorted and cut. */
  method ShardsOfGroup(key: Key, group: seq<Account>) returns (cut: seq<Shard>)
    requires forall a :: a in group ==> KeyOf(a) == key
    ensures multiset(Members(cut)) == multiset(group)
    ensures forall i :: 0 <= i < |cut| ==> Uniform(cut[i]) && cut[i].key == key && cut[i].index == i + 1
  {
    hide Uniform, Members, SortedAccounts, KeyOf;
    var accounts := SortAccounts(group);
    SortAccountsSorts(group);
    forall a | a in accounts ensures KeyOf(a) == key {
      assert a in multiset(accounts);
      assert a in group;
    }
    cut := CutGroup(key, accounts);
  }

  /** Grouping, sorting and cutting: every capable account is in exactly one shard,
      once, and every shard is uniform. */
  method PlanShards(eligible: seq<Account>) returns (shards: seq<Shard>, rejected: seq<Account>)
    ensures rejected == Incapable(eligible)
    ensures multiset(Members(shards)) == multiset(Capable(eligible))
    ensures forall s :: s in shards ==> Uniform(s)
    ensures Ordered(shards)
  {
    var groups;
    groups, rejected := GroupByStake(eligible);
    ghost var capable := Capable(eligible);
    var keys := SortKeys(groups.Keys);
    shards := [];
    ghost var done: set<Key> := {};
    NoKeys(capable);
    for i := 0 to |keys|
      invariant done == set j | 0 <= j < i :: keys[j]
      invariant multiset(Members(shards)) == multiset(InKeys(capable, done))
      invariant forall s :: s in shards ==> Uniform(s) && s.key in done
      invariant Ordered(shards)
    {
      hide Uniform, Ordered, InKeys, Capable, Members, KeyBefore, SortedAccounts;
      var key := keys[i];
      forall a | a in groups[key] ensures KeyOf(a) == key {
        GroupMembers(capable, key, a);
      }
      var cut := ShardsOfGroup(key, groups[key]);
      MembersConcat(shards, cut);
      OneMoreKey(capable, done, key);
      NextKeyInOrder(shards, cut, key);
      shards := shards + cut;
      done := done + {key};
    }
    forall a | a in capable ensures KeyOf(a) in done {
      assert KeyOf(a) in keys;
    }
    AllKeys(capable, done);
  }

  // --------------------------------------------------------------------- one shard

  datatype Code = PatRequired | RealDisabled | ShardFailed | RequestFailed | MemberFailed | MemberMissing

  datatype Outcome = Bought(contract: nat) | Refused(code: Code)

  datatype Result = Result(account: Account, outcome: Outcome)

  /** One entry of the reply's transactions or errors. */
  datatype Member = Member(account: nat, contract: Option<nat>, error: bool)

  datatype Reply = Throws | RequestError | Body(transactions: seq<Member>, errors: seq<Member>)

  /** The dictionary built from the entries: the last one of an account wins. */
  function Lookup(entries: seq<Member>, account: nat): Option<Member> {
    if |entries| == 0 then None
    else if entries[|entries| - 1].account == account then Some(entries[|entries| - 1])
    else Lookup(entries[..|entries| - 1], account)
  }

  function MemberOutcome(body: Reply, account: nat): Outcome
    requires body.Body?
  {
    var found := Lookup(body.transactions, account);
    if found.Some? && found.value.contract.Some? then Bought(found.value.contract.value)
    else if (found.Some? && found.value.error) || Lookup(body.errors, account).Some? then Refused(MemberFailed)
    else Refused(MemberMissing)
  }

  /** What each account of a shard must get. */
  function ShardOutcome(s: Shard, realAllowed: bool, reply: Reply, a: Account): Outcome {
    if s.key.environment.Live? && !realAllowed then Refused(RealDisabled)
    else if (exists m :: m in s.members && m.managed.None?) || reply.Throws? then Refused(ShardFailed)
    else if reply.RequestError? then Refused(RequestFailed)
    else MemberOutcome(reply, a.id)
  }

  function AllRefused(accounts: seq<Account>, code: Code): seq<Result> {
    seq(|accounts|, i requires 0 <= i < |accounts| => Result(accounts[i], Refused(code)))
  }

  /** `_purchase_stake_group_for_environment`; `raised` is the exception the caller
      gathers. */
  method PurchaseShard(s: Shard, realAllowed: bool, reply: Reply)
    returns (raised: bool, sizeGuard: bool, results: seq<Result>)
    ensures sizeGuard <==> |s.members| > SHARD_LIMIT
    ensures sizeGuard ==> raised
    ensures !raised ==> |results| == |s.members|
    ensures !raised ==>
      forall i :: 0 <= i < |results| ==>
        results[i] == Result(s.members[i], ShardOutcome(s, realAllowed, reply, s.members[i]))
    ensures raised && !sizeGuard ==>
      forall a :: a in s.members ==> ShardOutcome(s, realAllowed, reply, a) == Refused(ShardFailed)
  {
    raised, sizeGuard, results := false, |s.members| > SHARD_LIMIT, [];
    if sizeGuard {
      raised := true;
      return;
    }
    if s.key.environment.Live? && !realAllowed {
      results := AllRefused(s.members, RealDisabled);
      return;
    }
    if (exists m :: m in s.members && m.managed.None?) || reply.Throws? {
      raised := true;
      return;
    }
    if reply.RequestError? {
      results := AllRefused(s.members, RequestFailed);
      return;
    }
    for i := 0 to |s.members|
      invariant |results| == i
      invariant forall k :: 0 <= k < i ==> results[k] == Result(s.members[k], MemberOutcome(reply, s.members[k].id))
    {
      var account := s.members[i];
      var found := Lookup(reply.transactions, account.id);
      if found.Some? && found.value.contract.Some? {
        results := results + [Result(account, Bought(found.value.contract.value))];
      } else if (found.Some? && found.value.error) || Lookup(reply.errors, account.id).Some? {
        results := results + [Result(account, Refused(MemberFailed))];
      } else {
        results := results + [Result(account, Refused(MemberMissing))];
      }
    }
  }

  function AccountsOf(results: seq<Result>): seq<Account> {
    seq(|results|, i requires 0 <= i < |results| => results[i].account)
  }

  lemma {:induction false} AccountsOfConcat(a: seq<Result>, b: seq<Result>)
    ensures AccountsOf(a + b) == AccountsOf(a) + AccountsOf(b)
  {
  }

  /** Every result was earned: by the PAT check, or by its shard's reply. */
  predicate Earned(r: Result, shards: seq<Shard>, realAllowed: bool, replies: seq<Reply>)
    requires |shards| == |replies|
  {
    (!r.account.patCapable && r.outcome == Refused(PatRequired))
    || exists i :: 0 <= i < |shards| && r.account in shards[i].members
                   && r.outcome == ShardOutcome(shards[i], realAllowed, replies[i], r.account)
  }

  lemma {:induction false} IncapableMembers(es: seq<Account>, a: Account)
    ensures a in Incapable(es) ==> a in es && !a.patCapable
  {
    if |es| > 0 {
      IncapableMembers(es[..|es| - 1], a);
    }
  }

  lemma {:induction false} EarnedByShard(r: Result, shards: seq<Shard>, realAllowed: bool, replies: seq<Reply>, i: nat)
    requires |shards| == |replies| && i < |shards| && r.account in shards[i].members
    requires r.outcome == ShardOutcome(shards[i], realAllowed, replies[i], r.account)
    ensures Earned(r, shards, realAllowed, replies)
  {
  }

  /** One gathered task: an exception becomes a refusal of every account of the
      shard. */
  method GatherShard(s: Shard, realAllowed: bool, reply: Reply) returns (part: seq<Result>)
    requires Uniform(s)
    ensures AccountsOf(part) == s.members
    ensures forall r :: r in part ==> r.account in s.members && r.outcome == ShardOutcome(s, realAllowed, reply, r.account)
  {
    var raised, sizeGuard;
    raised, sizeGuard, part := PurchaseShard(s, realAllowed, reply);
    if raised {
      part := AllRefused(s.members, ShardFailed);
    }
  }

  /** `_purchase_accounts_by_stake`: for any replies, exactly one result for every
      eligible account, and every shard is uniform and within the size guard. */
  method PurchaseByStake(eligible: seq<Account>, realAllowed: bool, replyFor: nat -> Reply)
    returns (results: seq<Result>, shards: seq<Shard>, ghost replies: seq<Reply>)
    ensures multiset(AccountsOf(results)) == multiset(eligible)
    ensures Ordered(shards) && forall s :: s in shards ==> Uniform(s)
    ensures |replies| == |shards| && forall i :: 0 <= i < |shards| ==> replies[i] == replyFor(i)
    ensures forall r :: r in results ==> Earned(r, shards, realAllowed, replies)
  {
    hide Uniform, Ordered, ShardOutcome, SortedAccounts, Members, Incapable, Capable, Group;
    var rejected;
    shards, rejected := PlanShards(eligible);
    replies := seq(|shards|, i requires 0 <= i < |shards| => replyFor(i));
    results := AllRefused(rejected, PatRequired);
    forall r | r in results ensures Earned(r, shards, realAllowed, replies) {
      IncapableMembers(eligible, r.account);
    }
    assert AccountsOf(results) == rejected;
    MembersEmpty();
    assert shards[..0] == [];
    for i := 0 to |shards|
      invariant AccountsOf(results) == rejected + Members(shards[..i])
      invariant forall r :: r in results ==> Earned(r, shards, realAllowed, replies)
    {
      hide AccountsOf, Earned;
      var part := GatherShard(shards[i], realAllowed, replyFor(i));
      forall r | r in part ensures Earned(r, shards, realAllowed, replies) {
        EarnedByShard(r, shards, realAllowed, replies, i);
      }
      AccountsOfConcat(results, part);
      assert shards[..i + 1] == shards[..i] + [shards[i]];
      MembersAppend(shards[..i], shards[i]);
      results := results + part;
    }
    assert shards[..|shards|] == shards;
    SplitByCapability(eligible);
  }

  /** With distinct accounts that is one result each. */
  lemma {:induction false} OneResultEach(eligible: seq<Account>, results: seq<Result>, i: nat)
    requires DistinctIds(eligible) && multiset(AccountsOf(results)) == multiset(eligible)
    requires i < |eligible|
    ensures multiset(AccountsOf(results))[eligible[i]] == 1
  {
    CountedOnce(eligible, i);
  }

  lemma {:induction false} CountedOnce(es: seq<Account>, i: nat)
    requires DistinctIds(es) && i < |es|
    ensures multiset(es)[es[i]] == 1
  {
    assert es == es[..i] + [es[i]] + es[i + 1..];
    assert es[i] !in es[..i] && es[i] !in es[i + 1..];
  }

  lemma {:induction false} LookupFindsEntry(entries: seq<Member>, account: nat)
    ensures var m := Lookup(entries, account);
            if m.Some? then m.value in entries && m.value.account == account
            else forall e :: e in entries ==> e.account != account
  {
    if |entries| > 0 {
      LookupFindsEntry(entries[..|entries| - 1], account);
    }
  }

  /** The account's last entry in a part of the reply. */
  predicate LastOf(entries: seq<Member>, account: nat, i: nat) {
    && i < |entries| && entries[i].account == account
    && forall j :: i < j < |entries| ==> entries[j].account != account
  }

  lemma {:induction false} LookupIsLast(entries: seq<Member>, account: nat, i: nat)
    ensures LastOf(entries, account, i) ==> Lookup(entries, account) == Some(entries[i])
    ensures Lookup(entries, account).None? <==> forall e :: e in entries ==> e.account != account
  {
    if |entries| > 0 {
      var pre := entries[..|entries| - 1];
      LookupIsLast(pre, account, i);
      if LastOf(entries, account, i) && i < |pre| {
        assert LastOf(pre, account, i);
        assert entries[|entries| - 1].account != account;
      }
      assert entries == pre + [entries[|entries| - 1]];
    }
  }

  /** The shard's reply is evaluated account by account. */
  predicate Evaluated(s: Shard, realAllowed: bool, reply: Reply) {
    && (s.key.environment.Live? ==> realAllowed)
    && (forall m :: m in s.members ==> m.managed.Some?) && reply.Body?
  }

  /** An account whose last transaction has a contract bought it, whatever the errors say;
      without a contract it failed exactly when that transaction or any error entry says so,
      and is missing otherwise. */
  lemma {:induction false} ReportedExactly(s: Shard, realAllowed: bool, reply: Reply, a: Account, i: nat)
    requires Evaluated(s, realAllowed, reply) && LastOf(reply.transactions, a.id, i)
    ensures var last := reply.transactions[i];
            ShardOutcome(s, realAllowed, reply, a)
            == if last.contract.Some? then Bought(last.contract.value)
               else if last.error || exists e :: e in reply.errors && e.account == a.id then Refused(MemberFailed)
               else Refused(MemberMissing)
  {
    LookupIsLast(reply.transactions, a.id, i);
    LookupIsLast(reply.errors, a.id, 0);
  }

  /** An account that no transaction names failed or is missing by the errors alone. */
  lemma {:induction false} UnreportedExactly(s: Shard, realAllowed: bool, reply: Reply, a: Account)
    requires Evaluated(s, realAllowed, reply) && forall t :: t in reply.transactions ==> t.account != a.id
    ensures ShardOutcome(s, realAllowed, reply, a)
         == Refused(if exists e :: e in reply.errors && e.account == a.id then MemberFailed else MemberMissing)
  {
    LookupIsLast(reply.transactions, a.id, 0);
    LookupIsLast(reply.errors, a.id, 0);
  }

  /** A shard whose reply is not evaluated refuses all its accounts for one reason: live
      trading first, then an account without a managed id or an exception, then the
      request's error. */
  lemma {:induction false} ShardRefusedExactly(s: Shard, realAllowed: bool, reply: Reply, a: Account)
    requires !Evaluated(s, realAllowed, reply)
    ensures var o := ShardOutcome(s, realAllowed, reply, a);
            && o.Refused?
            && (o.code == RealDisabled <==> s.key.environment.Live? && !realAllowed)
            && (o.code == ShardFailed <==>
                  o.code != RealDisabled && (reply.Throws? || exists m :: m in s.members && m.managed.None?))
            && (o.code == RequestFailed <==> o.code != RealDisabled && o.code != ShardFailed)
  {
  }

  /** No contract is invented: a bought contract stands in the shard's reply under
      that very account. */
  lemma {:induction false} BoughtIsReported(s: Shard, realAllowed: bool, reply: Reply, a: Account)
    requires ShardOutcome(s, realAllowed, reply, a).Bought?
    ensures reply.Body?
    ensures exists m ::
      m in reply.transactions && m.account == a.id && m.contract == Some(ShardOutcome(s, realAllowed, reply, a).contract)
  {
    LookupFindsEntry(reply.transactions, a.id);
  }
}
