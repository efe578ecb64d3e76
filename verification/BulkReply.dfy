/** Reconciling a bulk-purchase reply: app/bulk_response_member_reconciliation.py over
    JSON trees.  Log markers are dropped: they never change a value. */
module BulkReply {

  import opened Strings

  datatype Option<T> = None | Some(value: T)

  /** The field names the code knows; `Other` never spells one of them. */
  datatype Key =
    | AccountIdKey | Loginid | LoginId | Account
    | ContractIdKey | ContractIdCamel | ContractIdFlat
    | TransactionIdKey | TransactionIdCamel | TransactionIdFlat | BuyTransactionId
    | Transaction | Buy | Contract | Result | Data | Response | Purchase
    | Error | Code | Message | Status
    | Transactions | Results | Contracts | Purchases | Successes | Members | Items
    | Errors | Failures
    | Other(name: string)

  datatype Json =
    | Null
    | Bool(b: bool)
    | Num(n: int)
    | Str(s: string)
    | Arr(items: seq<Json>)
    | Obj(fields: seq<Field>)

  datatype Field = Field(key: Key, value: Json)

  const SUCCESS := [Transactions, Results, Contracts, Purchases, Successes, Members, Items]
  const FAILURE := [Errors, Failures]
  const CANONICAL := [Transactions, Results, Contracts, Purchases, Items]
  const WRAPPERS := [Transaction, Buy, Contract, Result, Data, Response, Purchase]
  const ACCOUNT_WRAPPERS := [Transaction, Buy, Contract, Data, Result]
  const CONTRACT_IDS := [ContractIdKey, ContractIdCamel, ContractIdFlat]
  const TRANSACTION_IDS := [TransactionIdKey, TransactionIdCamel, TransactionIdFlat, BuyTransactionId]
  const ACCOUNT_IDS := [AccountIdKey, Loginid, LoginId, Account]
  const MAX_DEPTH := 5

  // --------------------------------------------------------------- Python dictionaries

  function Size(j: Json): nat {
    match j
    case Obj(fields) => 1 + FieldsSize(fields)
    case _ => 0
  }

  function FieldsSize(fields: seq<Field>): nat {
    if |fields| == 0 then 0
    else
      assert fields[0].value < fields[0];
      Size(fields[0].value) + FieldsSize(fields[1..])
  }

  function Find(fields: seq<Field>, k: Key): (r: Json)
    ensures Size(r) <= FieldsSize(fields)
  {
    if |fields| == 0 then Null else if fields[0].key == k then fields[0].value else Find(fields[1..], k)
  }

  function Get(o: Json, k: Key): (r: Json)
    ensures o.Obj? ==> Size(r) < Size(o)
    ensures !o.Obj? ==> r == Null
  {
    if o.Obj? then Find(o.fields, k) else Null
  }

  predicate Has(o: Json, k: Key) { o.Obj? && exists f :: f in o.fields && f.key == k }

  function Put(fields: seq<Field>, k: Key, v: Json): seq<Field> {
    if |fields| == 0 then [Field(k, v)]
    else if fields[0].key == k then [Field(k, v)] + fields[1..]
    else [fields[0]] + Put(fields[1..], k, v)
  }

  /** Assignment keeps the place of a key that is there and appends a new one. */
  function Set(o: Json, k: Key, v: Json): (r: Json)
    requires o.Obj?
    ensures r.Obj?
  {
    Obj(Put(o.fields, k, v))
  }

  lemma {:induction false} FindCons(f: Field, rest: seq<Field>, q: Key)
    ensures Find([f] + rest, q) == if f.key == q then f.value else Find(rest, q)
  {
    assert ([f] + rest)[1..] == rest;
  }

  lemma {:induction false} FindPut(fields: seq<Field>, k: Key, v: Json, q: Key)
    ensures Find(Put(fields, k, v), q) == if q == k then v else Find(fields, q)
  {
    if |fields| == 0 {
      FindCons(Field(k, v), [], q);
    } else {
      assert fields == [fields[0]] + fields[1..];
      FindPut(fields[1..], k, v, q);
      FindCons(fields[0], fields[1..], q);
      FindCons(fields[0], Put(fields[1..], k, v), q);
      FindCons(Field(k, v), fields[1..], q);
      hide Find, Size, FieldsSize;
    }
  }

  lemma {:induction false} PutPut(fields: seq<Field>, k: Key, v: Json, w: Json)
    ensures Put(Put(fields, k, v), k, w) == Put(fields, k, w)
  {
    if |fields| > 0 {
      PutPut(fields[1..], k, v, w);
    }
  }

  lemma {:induction false} PutFound(fields: seq<Field>, k: Key)
    requires exists f :: f in fields && f.key == k
    ensures Put(fields, k, Find(fields, k)) == fields
  {
    if fields[0].key != k {
      assert fields == [fields[0]] + fields[1..];
      PutFound(fields[1..], k);
    }
  }

  lemma {:induction false} FoundIsThere(fields: seq<Field>, k: Key)
    ensures Find(fields, k) != Null ==> exists f :: f in fields && f.key == k
  {
    if |fields| > 0 {
      FoundIsThere(fields[1..], k);
      assert fields == [fields[0]] + fields[1..];
    }
  }

  lemma {:induction false} GetSet(o: Json, k: Key, v: Json, q: Key)
    requires o.Obj?
    ensures Get(Set(o, k, v), q) == if q == k then v else Get(o, q)
  {
    FindPut(o.fields, k, v, q);
  }

  lemma {:induction false} SetSet(o: Json, k: Key, v: Json, w: Json)
    requires o.Obj?
    ensures Set(Set(o, k, v), k, w) == Set(o, k, w)
  {
    PutPut(o.fields, k, v, w);
  }

  /** Writing back what is there changes nothing. */
  lemma {:induction false} SetGot(o: Json, k: Key)
    requires o.Obj? && Get(o, k) != Null
    ensures Set(o, k, Get(o, k)) == o
  {
    FoundIsThere(o.fields, k);
    PutFound(o.fields, k);
  }

  predicate Truthy(j: Json) {
    match j
    case Null => false
    case Bool(b) => b
    case Num(n) => n != 0
    case Str(s) => s != ""
    case Arr(items) => items != []
    case Obj(fields) => fields != []
  }

  function Digits(n: nat): (r: string)
    ensures r != "" && '0' <= r[0] <= '9'
  {
    if n < 10 then ["0123456789"[n]] else Digits(n / 10) + ["0123456789"[n % 10]]
  }

  /** Python's `str`; containers only need a text that is not blank. */
  function Show(j: Json): (r: string)
    ensures !j.Str? ==> r != "" && !Blank(r[0])
  {
    match j
    case Null => "None"
    case Bool(b) => if b then "True" else "False"
    case Num(n) => if n < 0 then "-" + Digits(-n) else Digits(n)
    case Str(s) => s
    case Arr(_) => "[...]"
    case Obj(_) => "{...}"
  }

  /** `str(value or "").strip()`. */
  function Text(j: Json): string { if Truthy(j) then Strip(Show(j)) else "" }

  function KeyText(k: Key): string {
    match k
    case AccountIdKey => "account_id"
    case Loginid => "loginid"
    case LoginId => "login_id"
    case Account => "account"
    case ContractIdKey => "contract_id"
    case ContractIdCamel => "contractId"
    case ContractIdFlat => "contractid"
    case TransactionIdKey => "transaction_id"
    case TransactionIdCamel => "transactionId"
    case TransactionIdFlat => "transactionid"
    case BuyTransactionId => "buy_transaction_id"
    case Transaction => "transaction"
    case Buy => "buy"
    case Contract => "contract"
    case Result => "result"
    case Data => "data"
    case Response => "response"
    case Purchase => "purchase"
    case Error => "error"
    case Code => "code"
    case Message => "message"
    case Status => "status"
    case Transactions => "transactions"
    case Results => "results"
    case Contracts => "contracts"
    case Purchases => "purchases"
    case Successes => "successes"
    case Members => "members"
    case Items => "items"
    case Errors => "errors"
    case Failures => "failures"
    case Other(name) => name
  }

  // ------------------------------------------------------------- the account of a member

  function FirstText(o: Json, keys: seq<Key>): string {
    if |keys| == 0 then ""
    else if Text(Get(o, keys[0])) != "" then Text(Get(o, keys[0]))
    else FirstText(o, keys[1..])
  }

  /** `_account_id` of app/seamless_execution_runtime.py. */
  function AccountId(o: Json): string
    decreases Size(o), |ACCOUNT_WRAPPERS| + 1
  {
    if !o.Obj? then ""
    else if FirstText(o, ACCOUNT_IDS) != "" then FirstText(o, ACCOUNT_IDS)
    else NestedAccount(o, ACCOUNT_WRAPPERS)
  }

  function NestedAccount(o: Json, keys: seq<Key>): string
    requires o.Obj?
    decreases Size(o), |keys|
  {
    if |keys| == 0 then ""
    else if Get(o, keys[0]).Obj? && AccountId(Get(o, keys[0])) != "" then AccountId(Get(o, keys[0]))
    else NestedAccount(o, keys[1..])
  }

  lemma {:induction false} NestedAccountFrame(o: Json, p: Json, keys: seq<Key>)
    requires o.Obj? && p.Obj? && forall k :: k in keys ==> Get(o, k) == Get(p, k)
    ensures NestedAccount(o, keys) == NestedAccount(p, keys)
  {
    if |keys| > 0 {
      NestedAccountFrame(o, p, keys[1..]);
    }
  }

  lemma {:induction false} FirstTextFrame(o: Json, p: Json, keys: seq<Key>)
    requires forall k :: k in keys ==> Get(o, k) == Get(p, k)
    ensures FirstText(o, keys) == FirstText(p, keys)
  {
    if |keys| > 0 {
      FirstTextFrame(o, p, keys[1..]);
    }
  }

  /** Only account and wrapper fields decide the account. */
  lemma {:induction false} AccountFrame(o: Json, k: Key, v: Json)
    requires o.Obj? && k !in ACCOUNT_IDS && k !in ACCOUNT_WRAPPERS
    ensures AccountId(Set(o, k, v)) == AccountId(o)
  {
    var p := Set(o, k, v);
    forall q | q in ACCOUNT_IDS || q in ACCOUNT_WRAPPERS ensures Get(o, q) == Get(p, q) {
      GetSet(o, k, v, q);
    }
    hide Set;
    NestedAccountFrame(o, p, ACCOUNT_WRAPPERS);
    FirstTextFrame(o, p, ACCOUNT_IDS);
  }

  /** The first account field decides. */
  lemma {:induction false} AccountSet(o: Json, account: string)
    requires o.Obj? && Strip(account) != ""
    ensures AccountId(Set(o, AccountIdKey, Str(account))) == Strip(account)
  {
    GetSet(o, AccountIdKey, Str(account), AccountIdKey);
    hide Set;
  }

  /** `str(value or "").strip()` of each kind of value. */
  lemma TextExactly(j: Json)
    ensures j.Str? ==> Text(j) == Strip(j.s)
    ensures j.Bool? && !j.b ==> Text(j) == ""
    ensures j.Num? && j.n == 0 ==> Text(j) == ""
    ensures j == Null || j == Arr([]) || j == Obj([]) ==> Text(j) == ""
    ensures (j.Bool? && j.b) || (j.Num? && j.n != 0) || (j.Arr? && j.items != []) || (j.Obj? && j.fields != []) ==>
              Text(j) == Strip(Show(j))
  {
    assert Strip("") == "";
  }

  lemma {:induction false} FirstTextExactly(o: Json, keys: seq<Key>, i: nat)
    ensures i < |keys| && Text(Get(o, keys[i])) != "" && (forall j :: 0 <= j < i ==> Text(Get(o, keys[j])) == "") ==>
              FirstText(o, keys) == Text(Get(o, keys[i]))
    ensures (forall j :: 0 <= j < |keys| ==> Text(Get(o, keys[j])) == "") ==> FirstText(o, keys) == ""
  {
    hide Text, Get;
    if |keys| > 0 {
      FirstTextExactly(o, keys[1..], if i > 0 then i - 1 else 0);
      assert forall j :: 0 <= j < |keys| - 1 ==> keys[1..][j] == keys[j + 1];
    }
  }

  lemma {:induction false} NestedAccountExactly(o: Json, keys: seq<Key>, i: nat)
    requires o.Obj?
    ensures i < |keys| && AccountId(Get(o, keys[i])) != "" && (forall j :: 0 <= j < i ==> AccountId(Get(o, keys[j])) == "") ==>
              NestedAccount(o, keys) == AccountId(Get(o, keys[i]))
    ensures (forall j :: 0 <= j < |keys| ==> AccountId(Get(o, keys[j])) == "") ==> NestedAccount(o, keys) == ""
  {
    if |keys| > 0 {
      NestedAccountExactly(o, keys[1..], if i > 0 then i - 1 else 0);
      assert forall j :: 0 <= j < |keys| - 1 ==> keys[1..][j] == keys[j + 1];
      assert AccountId(Get(o, keys[0])) != "" ==> Get(o, keys[0]).Obj?;
      hide AccountId, Get;
    }
  }

  /** The account of a dictionary: its own first account field that is not blank, otherwise that
      of its first wrapper that has one, otherwise none. */
  lemma {:induction false} AccountExactly(o: Json, i: nat)
    requires o.Obj?
    ensures i < |ACCOUNT_IDS| && Text(Get(o, ACCOUNT_IDS[i])) != ""
            && (forall j :: 0 <= j < i ==> Text(Get(o, ACCOUNT_IDS[j])) == "") ==>
              AccountId(o) == Text(Get(o, ACCOUNT_IDS[i]))
    ensures (forall j :: 0 <= j < |ACCOUNT_IDS| ==> Text(Get(o, ACCOUNT_IDS[j])) == "") ==>
              && (i < |ACCOUNT_WRAPPERS| && AccountId(Get(o, ACCOUNT_WRAPPERS[i])) != ""
                  && (forall j :: 0 <= j < i ==> AccountId(Get(o, ACCOUNT_WRAPPERS[j])) == "") ==>
                    AccountId(o) == AccountId(Get(o, ACCOUNT_WRAPPERS[i])))
              && ((forall j :: 0 <= j < |ACCOUNT_WRAPPERS| ==> AccountId(Get(o, ACCOUNT_WRAPPERS[j])) == "") ==>
                    AccountId(o) == "")
  {
    FirstTextExactly(o, ACCOUNT_IDS, i);
    NestedAccountExactly(o, ACCOUNT_WRAPPERS, i);
    assert AccountId(o) == if FirstText(o, ACCOUNT_IDS) != "" then FirstText(o, ACCOUNT_IDS) else NestedAccount(o, ACCOUNT_WRAPPERS);
    hide AccountId, FirstText, NestedAccount, Text, Get;
  }

  // -------------------------------------------------------------- the wrapper walk

  /** `_walk_member_dicts`: the dictionary itself, then the known wrappers below it. */
  function Walk(o: Json, depth: nat): seq<Json>
    requires depth <= MAX_DEPTH
    decreases MAX_DEPTH - depth, |WRAPPERS| + 1
  {
    if !o.Obj? then [] else [o] + Below(o, depth, WRAPPERS)
  }

  function Below(o: Json, depth: nat, keys: seq<Key>): seq<Json>
    requires o.Obj? && depth <= MAX_DEPTH
    decreases MAX_DEPTH - depth, |keys|
  {
    if |keys| == 0 || depth == MAX_DEPTH then []
    else Walk(Get(o, keys[0]), depth + 1) + Below(o, depth, keys[1..])
  }

  /** The dictionary at the end of a path of wrapper keys. */
  function Follow(o: Json, path: seq<Key>): Json
    decreases |path|
  {
    if |path| == 0 then o else Follow(Get(o, path[0]), path[1..])
  }

  predicate WrapperPath(path: seq<Key>) { forall k :: k in path ==> k in WRAPPERS }

  ghost predicate Reached(o: Json, limit: nat, keys: seq<Key>, d: Json) {
    exists path :: |path| <= limit && WrapperPath(path) && (path != [] ==> path[0] in keys) && Follow(o, path) == d
  }

  lemma {:induction false} WalkReaches(o: Json, depth: nat, d: Json)
    requires depth <= MAX_DEPTH && d in Walk(o, depth)
    ensures d.Obj? && Reached(o, MAX_DEPTH - depth, WRAPPERS, d)
    decreases MAX_DEPTH - depth, |WRAPPERS| + 1
  {
    if d == o {
      assert Follow(o, []) == o && WrapperPath([]);
    } else {
      var path := BelowReaches(o, depth, WRAPPERS, d);
    }
  }

  lemma {:induction false} BelowReaches(o: Json, depth: nat, keys: seq<Key>, d: Json) returns (path: seq<Key>)
    requires o.Obj? && depth <= MAX_DEPTH && d in Below(o, depth, keys) && forall k :: k in keys ==> k in WRAPPERS
    ensures d.Obj? && 0 < |path| <= MAX_DEPTH - depth && WrapperPath(path) && path[0] in keys && Follow(o, path) == d
    decreases MAX_DEPTH - depth, |keys|
  {
    var nested := Get(o, keys[0]);
    if d in Walk(nested, depth + 1) {
      WalkReaches(nested, depth + 1, d);
      var rest :| |rest| <= MAX_DEPTH - depth - 1 && WrapperPath(rest) && Follow(nested, rest) == d;
      path := [keys[0]] + rest;
      assert path[1..] == rest;
    } else {
      path := BelowReaches(o, depth, keys[1..], d);
    }
  }

  lemma {:induction false} ReachedIsWalked(o: Json, depth: nat, path: seq<Key>)
    requires depth + |path| <= MAX_DEPTH && WrapperPath(path) && Follow(o, path).Obj?
    ensures Follow(o, path) in Walk(o, depth)
    decreases |path|
  {
    if |path| > 0 {
      ObjAlongPath(o, path);
      ReachedIsWalked(Get(o, path[0]), depth + 1, path[1..]);
      BelowHolds(o, depth, WRAPPERS, path[0], Follow(o, path));
    }
  }

  lemma {:induction false} ObjAlongPath(o: Json, path: seq<Key>)
    requires Follow(o, path).Obj?
    ensures o.Obj?
    decreases |path|
  {
    if |path| > 0 {
      ObjAlongPath(Get(o, path[0]), path[1..]);
    }
  }

  lemma {:induction false} BelowHolds(o: Json, depth: nat, keys: seq<Key>, k: Key, d: Json)
    requires o.Obj? && depth < MAX_DEPTH && k in keys && d in Walk(Get(o, k), depth + 1)
    ensures d in Below(o, depth, keys)
    decreases |keys|
  {
    if keys[0] != k {
      assert k in keys[1..];
      BelowHolds(o, depth, keys[1..], k, d);
    }
  }

  /** The walk is bounded and complete: exactly the dictionaries within five wrapper
      keys of the member. */
  lemma {:induction false} WalkExactly(o: Json, d: Json)
    ensures d in Walk(o, 0) <==> d.Obj? && exists path :: |path| <= MAX_DEPTH && WrapperPath(path) && Follow(o, path) == d
  {
    if d in Walk(o, 0) {
      WalkReaches(o, 0, d);
    }
    if d.Obj? && exists path :: |path| <= MAX_DEPTH && WrapperPath(path) && Follow(o, path) == d {
      var path :| |path| <= MAX_DEPTH && WrapperPath(path) && Follow(o, path) == d;
      ReachedIsWalked(o, 0, path);
    }
  }

  lemma {:induction false} BelowInPlace(o: Json, depth: nat, keys: seq<Key>, i: nat)
    requires o.Obj? && depth < MAX_DEPTH && i < |keys|
    ensures Below(o, depth, keys)
         == Below(o, depth, keys[..i]) + Walk(Get(o, keys[i]), depth + 1) + Below(o, depth, keys[i + 1..])
    ensures Below(o, depth, []) == []
    decreases i
  {
    hide Walk, Get;
    if i > 0 {
      assert keys[1..][..i - 1] == keys[..i][1..] && keys[1..][i..] == keys[i + 1..];
      BelowInPlace(o, depth, keys[1..], i - 1);
    }
  }

  /** A dictionary comes before those below it, and those below it in the order of the wrapper
      keys. */
  lemma {:induction false} WalkInOrder(o: Json, depth: nat, i: nat)
    requires o.Obj? && depth < MAX_DEPTH && i < |WRAPPERS|
    ensures Walk(o, depth)
         == [o] + (Below(o, depth, WRAPPERS[..i]) + Walk(Get(o, WRAPPERS[i]), depth + 1) + Below(o, depth, WRAPPERS[i + 1..]))
    ensures Below(o, depth, []) == []
  {
    BelowInPlace(o, depth, WRAPPERS, i);
    hide Below, Get;
  }

  lemma {:induction false} BelowFrame(o: Json, p: Json, depth: nat, keys: seq<Key>)
    requires o.Obj? && p.Obj? && depth <= MAX_DEPTH
    requires forall k :: k in keys ==> Get(o, k) == Get(p, k)
    ensures Below(o, depth, keys) == Below(p, depth, keys)
    decreases |keys|
  {
    if |keys| > 0 {
      BelowFrame(o, p, depth, keys[1..]);
    }
  }

  lemma {:induction false} WalkSet(o: Json, k: Key, v: Json)
    requires o.Obj? && k !in WRAPPERS
    ensures Walk(Set(o, k, v), 0) == [Set(o, k, v)] + Walk(o, 0)[1..]
  {
    forall q | q in WRAPPERS ensures Get(o, q) == Get(Set(o, k, v), q) {
      GetSet(o, k, v, q);
    }
    BelowFrame(o, Set(o, k, v), 0, WRAPPERS);
  }

  // ------------------------------------------------------------- explicit values

  /** `value not in {None, ""}` raises for a list or an object. */
  datatype Search = Found(value: Json) | Absent | Raises

  function FirstIn(d: Json, keys: seq<Key>): Search {
    if |keys| == 0 then Absent
    else
      var v := Get(d, keys[0]);
      if v.Arr? || v.Obj? then Raises
      else if v == Null || v == Str("") then FirstIn(d, keys[1..])
      else Found(v)
  }

  /** `_first_explicit_value`. */
  function First(ds: seq<Json>, keys: seq<Key>): Search {
    if |ds| == 0 then Absent
    else if FirstIn(ds[0], keys).Absent? then First(ds[1..], keys)
    else FirstIn(ds[0], keys)
  }

  lemma {:induction false} FirstInExactly(d: Json, keys: seq<Key>, k: nat)
    requires k < |keys| && forall j :: 0 <= j < k ==> Get(d, keys[j]) in {Null, Str("")}
    ensures var v := Get(d, keys[k]);
            && (v.Arr? || v.Obj? ==> FirstIn(d, keys) == Raises)
            && (v.Bool? || v.Num? || (v.Str? && v.s != "") ==> FirstIn(d, keys) == Found(v))
            && (v in {Null, Str("")} && k == |keys| - 1 ==> FirstIn(d, keys) == Absent)
  {
    hide Get;
    if k > 0 {
      assert forall j :: 0 <= j < k - 1 ==> keys[1..][j] == keys[j + 1];
      assert Get(d, keys[0]) in {Null, Str("")};
      FirstInExactly(d, keys[1..], k - 1);
    }
  }

  /** The first dictionary with a value under one of the keys decides the search, and within it
      the first such key. */
  lemma {:induction false} FirstExactly(ds: seq<Json>, keys: seq<Key>, i: nat, k: nat)
    requires i < |ds| && k < |keys|
    requires forall h, j :: 0 <= h < i && 0 <= j < |keys| ==> Get(ds[h], keys[j]) in {Null, Str("")}
    requires forall j :: 0 <= j < k ==> Get(ds[i], keys[j]) in {Null, Str("")}
    ensures var v := Get(ds[i], keys[k]);
            && (v.Arr? || v.Obj? ==> First(ds, keys) == Raises)
            && (v.Bool? || v.Num? || (v.Str? && v.s != "") ==> First(ds, keys) == Found(v))
            && (v in {Null, Str("")} && i == |ds| - 1 && k == |keys| - 1 ==> First(ds, keys) == Absent)
    decreases i
  {
    if i == 0 {
      FirstInExactly(ds[0], keys, k);
    } else {
      FirstInExactly(ds[0], keys, |keys| - 1);
      assert forall h :: 0 <= h < |ds| - 1 ==> ds[1..][h] == ds[h + 1];
      FirstExactly(ds[1..], keys, i - 1, k);
      hide FirstIn, Get;
    }
  }

  lemma {:induction false} FirstInFound(d: Json, keys: seq<Key>)
    requires FirstIn(d, keys).Found?
    ensures exists k :: k in keys && Get(d, k) == FirstIn(d, keys).value
  {
    var v := Get(d, keys[0]);
    if v == Null || v == Str("") {
      FirstInFound(d, keys[1..]);
    } else {
      assert keys[0] in keys;
    }
  }

  lemma {:induction false} FoundIsExplicit(ds: seq<Json>, keys: seq<Key>)
    requires First(ds, keys).Found?
    ensures exists d, k :: d in ds && k in keys && Get(d, k) == First(ds, keys).value
    ensures var v := First(ds, keys).value;
            v != Null && v != Str("") && !v.Arr? && !v.Obj?
  {
    if FirstIn(ds[0], keys).Absent? {
      FoundIsExplicit(ds[1..], keys);
    } else {
      FirstInFound(ds[0], keys);
      assert ds[0] in ds;
      FirstInScalar(ds[0], keys);
    }
  }

  lemma {:induction false} FirstInScalar(d: Json, keys: seq<Key>)
    requires FirstIn(d, keys).Found?
    ensures var v := FirstIn(d, keys).value;
            v != Null && v != Str("") && !v.Arr? && !v.Obj?
  {
    if Get(d, keys[0]) == Null || Get(d, keys[0]) == Str("") {
      FirstInScalar(d, keys[1..]);
    }
  }

  lemma {:induction false} FirstInFrame(o: Json, p: Json, keys: seq<Key>)
    requires forall k :: k in keys ==> Get(o, k) == Get(p, k)
    ensures FirstIn(o, keys) == FirstIn(p, keys)
  {
    if |keys| > 0 {
      FirstInFrame(o, p, keys[1..]);
    }
  }

  /** Writing a field that is neither searched for nor a wrapper leaves the search. */
  lemma {:induction false} FirstFrame(o: Json, k: Key, v: Json, keys: seq<Key>)
    requires o.Obj? && k !in WRAPPERS && k !in keys
    ensures First(Walk(Set(o, k, v), 0), keys) == First(Walk(o, 0), keys)
  {
    WalkSet(o, k, v);
    forall q | q in keys ensures Get(o, q) == Get(Set(o, k, v), q) {
      GetSet(o, k, v, q);
    }
    FirstInFrame(o, Set(o, k, v), keys);
    hide Walk, Set;
    WalkHead(o);
    assert ([Set(o, k, v)] + Walk(o, 0)[1..])[1..] == Walk(o, 0)[1..];
  }

  lemma {:induction false} WalkHead(o: Json)
    requires o.Obj?
    ensures |Walk(o, 0)| > 0 && Walk(o, 0)[0] == o
  {
  }

  /** The error one dictionary states. */
  function StatedError(d: Json): Option<Json> {
    if Get(d, Error).Obj? then Some(Get(d, Error))
    else if Truthy(Get(d, Code)) && Truthy(Get(d, Message)) then
      Some(Obj([Field(Code, Get(d, Code)), Field(Message, Get(d, Message))]
               + if Get(d, Status) != Null then [Field(Status, Get(d, Status))] else []))
    else None
  }

  /** A dictionary states the object under `error`, or else the code and message it has, with
      its status, and nothing more. */
  lemma {:induction false} StatedErrorExactly(d: Json, q: Key)
    ensures Get(d, Error).Obj? ==> StatedError(d) == Some(Get(d, Error))
    ensures !Get(d, Error).Obj? ==> (StatedError(d).Some? <==> Truthy(Get(d, Code)) && Truthy(Get(d, Message)))
    ensures !Get(d, Error).Obj? && StatedError(d).Some? ==>
              && StatedError(d).value.Obj?
              && Get(StatedError(d).value, q) == (if q in {Code, Message, Status} then Get(d, q) else Null)
              && (Has(StatedError(d).value, Status) <==> Get(d, Status) != Null)
  {
    if !Get(d, Error).Obj? && StatedError(d).Some? {
      var rest := if Get(d, Status) != Null then [Field(Status, Get(d, Status))] else [];
      assert StatedError(d).value.fields == [Field(Code, Get(d, Code)), Field(Message, Get(d, Message))] + rest;
      hide Truthy, StatedError;
      CodeAndMessage(Get(d, Code), Get(d, Message), rest, q);
    }
  }

  lemma {:induction false} CodeAndMessage(code: Json, message: Json, rest: seq<Field>, q: Key)
    requires |rest| <= 1 && forall f :: f in rest ==> f.key == Status
    ensures var e := Obj([Field(Code, code), Field(Message, message)] + rest);
            && Get(e, q) == (if q == Code then code else if q == Message then message
                             else if q == Status && rest != [] then rest[0].value else Null)
            && (Has(e, Status) <==> rest != [])
  {
    var first, second := Field(Code, code), Field(Message, message);
    assert [first, second] + rest == [first] + ([second] + rest);
    FindCons(first, [second] + rest, q);
    FindCons(second, rest, q);
    if rest != [] {
      assert rest == [rest[0]] + [];
      FindCons(rest[0], [], q);
      assert ([first, second] + rest)[2].key == Status;
    }
  }

  /** `_nested_error`. */
  function NestedError(ds: seq<Json>): Option<Json> {
    if |ds| == 0 then None
    else if StatedError(ds[0]).Some? then StatedError(ds[0])
    else NestedError(ds[1..])
  }

  /** The first dictionary that states an error decides. */
  lemma {:induction false} NestedErrorExactly(ds: seq<Json>, i: nat)
    requires i < |ds| && forall h :: 0 <= h < i ==> StatedError(ds[h]).None?
    ensures StatedError(ds[i]).Some? ==> NestedError(ds) == StatedError(ds[i])
    ensures StatedError(ds[i]).None? && i == |ds| - 1 ==> NestedError(ds).None?
    decreases i
  {
    hide StatedError;
    if i > 0 {
      assert forall h :: 0 <= h < |ds| - 1 ==> ds[1..][h] == ds[h + 1];
      NestedErrorExactly(ds[1..], i - 1);
    }
  }

  lemma {:induction false} StatedErrorFrame(o: Json, p: Json)
    requires Get(o, Error) == Get(p, Error) && Get(o, Code) == Get(p, Code)
    requires Get(o, Message) == Get(p, Message) && Get(o, Status) == Get(p, Status)
    ensures StatedError(o) == StatedError(p)
  {
  }

  lemma {:induction false} NestedErrorFrame(o: Json, k: Key, v: Json)
    requires o.Obj? && k !in WRAPPERS && k != Error && k != Code && k != Message && k != Status
    ensures NestedError(Walk(Set(o, k, v), 0)) == NestedError(Walk(o, 0))
  {
    WalkSet(o, k, v);
    GetSet(o, k, v, Error);
    GetSet(o, k, v, Code);
    GetSet(o, k, v, Message);
    GetSet(o, k, v, Status);
    WalkHead(o);
    hide Walk, Set, Get;
    StatedErrorFrame(o, Set(o, k, v));
    hide StatedError;
    assert ([Set(o, k, v)] + Walk(o, 0)[1..])[1..] == Walk(o, 0)[1..];
  }

  lemma {:induction false} NestedErrorIsObject(ds: seq<Json>)
    ensures NestedError(ds).Some? ==> NestedError(ds).value.Obj?
  {
    if |ds| > 0 {
      NestedErrorIsObject(ds[1..]);
    }
  }

  // ---------------------------------------------------------------- one member

  function AccountStep(m: Json): (r: Option<Json>)
    requires m.Obj?
    ensures r.Some? ==> r.value.Obj?
  {
    if AccountId(m) != "" then Some(m)
    else
      match First(Walk(m, 0), ACCOUNT_IDS)
      case Raises => None
      case Absent => Some(m)
      case Found(v) => Some(Set(m, AccountIdKey, Str(Strip(Show(v)))))
  }

  function IdStep(m: Json, k: Key, keys: seq<Key>): (r: Option<Json>)
    requires m.Obj?
    ensures r.Some? ==> r.value.Obj?
  {
    if Truthy(Get(m, k)) then Some(m)
    else
      match First(Walk(m, 0), keys)
      case Raises => None
      case Absent => Some(m)
      case Found(v) => Some(Set(m, k, v))
  }

  function ErrorStep(m: Json): (r: Json)
    requires m.Obj?
    ensures r.Obj?
  {
    if Get(m, Error).Obj? then m
    else
      match NestedError(Walk(m, 0))
      case None => m
      case Some(e) => Set(m, Error, e)
  }

  /** `_normalize_nested_transaction_member`; None is the TypeError. */
  function NormalizeMember(m: Json): (r: Option<Json>)
    requires m.Obj?
    ensures r.Some? ==> r.value.Obj?
  {
    var a := AccountStep(m);
    if a.None? then None
    else
      var c := IdStep(a.value, ContractIdKey, CONTRACT_IDS);
      if c.None? then None
      else
        var t := IdStep(c.value, TransactionIdKey, TRANSACTION_IDS);
        if t.None? then None else Some(ErrorStep(t.value))
  }

  const UNRESOLVED := Obj([Field(Code, Str("BULK_MEMBER_UNRESOLVED")), Field(Message, Str("not retried"))])

  predicate Resolved(m: Json) {
    Truthy(Get(m, ContractIdKey)) || Get(m, Error).Obj? || (Truthy(Get(m, Code)) && Truthy(Get(m, Message)))
  }

  /** `_mark_unresolved_transaction_members`, one member. */
  function MarkMember(m: Json): Json {
    if !m.Obj? || Resolved(m) then m else Set(m, Error, UNRESOLVED)
  }

  // ------------------------------------------------------- what a member's steps keep

  lemma {:induction false} IdStepFrame(m: Json, k: Key, keys: seq<Key>, q: Key)
    requires m.Obj? && IdStep(m, k, keys).Some? && q != k
    ensures Get(IdStep(m, k, keys).value, q) == Get(m, q)
  {
    hide First, Walk, Set, Get;
    if !Truthy(Get(m, k)) && First(Walk(m, 0), keys).Found? {
      GetSet(m, k, First(Walk(m, 0), keys).value, q);
    }
  }

  lemma {:induction false} ErrorStepFrame(m: Json, q: Key)
    requires m.Obj? && q != Error
    ensures Get(ErrorStep(m), q) == Get(m, q)
  {
    hide NestedError, Walk, Set, Get;
    if NestedError(Walk(m, 0)).Some? {
      GetSet(m, Error, NestedError(Walk(m, 0)).value, q);
    }
  }

  lemma {:induction false} AccountStepFrame(m: Json, q: Key)
    requires m.Obj? && AccountStep(m).Some? && q != AccountIdKey
    ensures Get(AccountStep(m).value, q) == Get(m, q)
  {
    hide First, Walk, Set, Get, AccountId, Strip, Show;
    if First(Walk(m, 0), ACCOUNT_IDS).Found? {
      GetSet(m, AccountIdKey, Str(Strip(Show(First(Walk(m, 0), ACCOUNT_IDS).value))), q);
    }
  }

  lemma {:induction false} IdStepKeepsAccount(m: Json, k: Key, keys: seq<Key>)
    requires m.Obj? && IdStep(m, k, keys).Some? && k !in ACCOUNT_IDS && k !in ACCOUNT_WRAPPERS
    ensures AccountId(IdStep(m, k, keys).value) == AccountId(m)
  {
    hide AccountId, First, Walk, Set;
    if !Truthy(Get(m, k)) && First(Walk(m, 0), keys).Found? {
      AccountFrame(m, k, First(Walk(m, 0), keys).value);
    }
  }

  lemma {:induction false} ErrorStepKeepsAccount(m: Json)
    requires m.Obj?
    ensures AccountId(ErrorStep(m)) == AccountId(m)
  {
    hide AccountId, NestedError, Walk, Set;
    if NestedError(Walk(m, 0)).Some? {
      AccountFrame(m, Error, NestedError(Walk(m, 0)).value);
    }
  }

  lemma {:induction false} MarkKeepsAccount(m: Json)
    ensures AccountId(MarkMember(m)) == AccountId(m)
  {
    if m.Obj? {
      AccountFrame(m, Error, UNRESOLVED);
    }
  }

  /** A member's own account is never replaced. */
  lemma {:induction false} AccountNeverReplaced(m: Json)
    requires m.Obj? && AccountId(m) != "" && NormalizeMember(m).Some?
    ensures AccountId(MarkMember(NormalizeMember(m).value)) == AccountId(m)
  {
    var a := AccountStep(m).value;
    var c := IdStep(a, ContractIdKey, CONTRACT_IDS).value;
    var t := IdStep(c, TransactionIdKey, TRANSACTION_IDS).value;
    IdStepKeepsAccount(a, ContractIdKey, CONTRACT_IDS);
    IdStepKeepsAccount(c, TransactionIdKey, TRANSACTION_IDS);
    ErrorStepKeepsAccount(t);
    MarkKeepsAccount(ErrorStep(t));
    hide AccountId, IdStep, ErrorStep, MarkMember;
  }

  lemma {:induction false} IdStepKeepsSearch(m: Json, k: Key, keys: seq<Key>, others: seq<Key>)
    requires m.Obj? && IdStep(m, k, keys).Some? && k !in WRAPPERS && k !in others
    ensures First(Walk(IdStep(m, k, keys).value, 0), others) == First(Walk(m, 0), others)
  {
    hide First, Walk, Set, Get;
    if !Truthy(Get(m, k)) && First(Walk(m, 0), keys).Found? {
      FirstFrame(m, k, First(Walk(m, 0), keys).value, others);
    }
  }

  lemma {:induction false} AccountStepKeepsSearch(m: Json, others: seq<Key>)
    requires m.Obj? && AccountStep(m).Some? && AccountIdKey !in others
    ensures First(Walk(AccountStep(m).value, 0), others) == First(Walk(m, 0), others)
  {
    hide First, Walk, AccountId, Set, Strip, Show;
    if AccountId(m) == "" && First(Walk(m, 0), ACCOUNT_IDS).Found? {
      FirstFrame(m, AccountIdKey, Str(Strip(Show(First(Walk(m, 0), ACCOUNT_IDS).value))), others);
    }
  }

  /** One of the three searches that the member calls for meets a list or an object before
      an explicit scalar. */
  predicate MemberRaises(m: Json) {
    m.Obj? &&
    (|| (AccountId(m) == "" && First(Walk(m, 0), ACCOUNT_IDS).Raises?)
     || (!Truthy(Get(m, ContractIdKey)) && First(Walk(m, 0), CONTRACT_IDS).Raises?)
     || (!Truthy(Get(m, TransactionIdKey)) && First(Walk(m, 0), TRANSACTION_IDS).Raises?))
  }

  lemma {:induction false} AccountStepRaises(m: Json)
    requires m.Obj?
    ensures AccountStep(m).None? <==> AccountId(m) == "" && First(Walk(m, 0), ACCOUNT_IDS).Raises?
  {
    hide First, Walk, AccountId, Set, Strip, Show;
  }

  lemma {:induction false} IdStepRaises(m: Json, k: Key, keys: seq<Key>)
    requires m.Obj?
    ensures IdStep(m, k, keys).None? <==> !Truthy(Get(m, k)) && First(Walk(m, 0), keys).Raises?
  {
    hide First, Walk, Get, Set;
  }

  /** Normalizing raises TypeError exactly on these members. */
  lemma {:induction false} MemberRaisesExactly(m: Json)
    requires m.Obj?
    ensures NormalizeMember(m).None? <==> MemberRaises(m)
  {
    hide AccountStep, IdStep, ErrorStep, First, Walk, AccountId, Get;
    AccountStepRaises(m);
    if AccountStep(m).Some? {
      var a := AccountStep(m).value;
      AccountStepKeepsSearch(m, CONTRACT_IDS);
      AccountStepKeepsSearch(m, TRANSACTION_IDS);
      AccountStepFrame(m, ContractIdKey);
      AccountStepFrame(m, TransactionIdKey);
      IdStepRaises(a, ContractIdKey, CONTRACT_IDS);
      if IdStep(a, ContractIdKey, CONTRACT_IDS).Some? {
        var c := IdStep(a, ContractIdKey, CONTRACT_IDS).value;
        IdStepKeepsSearch(a, ContractIdKey, CONTRACT_IDS, TRANSACTION_IDS);
        IdStepFrame(a, ContractIdKey, CONTRACT_IDS, TransactionIdKey);
        IdStepRaises(c, TransactionIdKey, TRANSACTION_IDS);
      }
    }
  }

  /** The value an id field has after normalizing: its own unless it is falsy and the search finds
      one. */
  function Searched(m: Json, k: Key, keys: seq<Key>): Json {
    if Truthy(Get(m, k)) || !First(Walk(m, 0), keys).Found? then Get(m, k) else First(Walk(m, 0), keys).value
  }

  lemma {:induction false} IdStepExactly(m: Json, k: Key, keys: seq<Key>)
    requires m.Obj? && IdStep(m, k, keys).Some?
    ensures Get(IdStep(m, k, keys).value, k) == Searched(m, k, keys)
  {
    hide First, Walk, Set, Get;
    if First(Walk(m, 0), keys).Found? {
      GetSet(m, k, First(Walk(m, 0), keys).value, k);
    }
  }

  lemma {:induction false} ErrorStepExactly(m: Json)
    requires m.Obj?
    ensures Get(ErrorStep(m), Error)
         == if !Get(m, Error).Obj? && NestedError(Walk(m, 0)).Some? then NestedError(Walk(m, 0)).value else Get(m, Error)
  {
    hide NestedError, Walk, Set, Get;
    if NestedError(Walk(m, 0)).Some? {
      GetSet(m, Error, NestedError(Walk(m, 0)).value, Error);
    }
  }

  lemma {:induction false} AccountStepExactly(m: Json)
    requires m.Obj? && AccountStep(m).Some?
    ensures var found := First(Walk(m, 0), ACCOUNT_IDS);
            Get(AccountStep(m).value, AccountIdKey)
            == if AccountId(m) == "" && found.Found? then Str(Strip(Show(found.value))) else Get(m, AccountIdKey)
    ensures NestedError(Walk(AccountStep(m).value, 0)) == NestedError(Walk(m, 0))
  {
    hide First, Walk, NestedError, Set, Get, AccountId, Strip, Show;
    if First(Walk(m, 0), ACCOUNT_IDS).Found? {
      GetSet(m, AccountIdKey, Str(Strip(Show(First(Walk(m, 0), ACCOUNT_IDS).value))), AccountIdKey);
      NestedErrorFrame(m, AccountIdKey, Str(Strip(Show(First(Walk(m, 0), ACCOUNT_IDS).value))));
    }
  }

  lemma {:induction false} IdStepKeepsErrors(m: Json, k: Key, keys: seq<Key>)
    requires m.Obj? && IdStep(m, k, keys).Some? && k in {ContractIdKey, TransactionIdKey}
    ensures NestedError(Walk(IdStep(m, k, keys).value, 0)) == NestedError(Walk(m, 0))
  {
    hide First, Walk, NestedError, Set, Get;
    if First(Walk(m, 0), keys).Found? {
      NestedErrorFrame(m, k, First(Walk(m, 0), keys).value);
    }
  }

  /** Every field of a normalized member, read off the member as it came: account, contract id and
      transaction id searched for when missing, the nested error when there is no error object,
      and all else unchanged. */
  lemma {:induction false} NormalizedExactly(m: Json, q: Key)
    requires m.Obj? && NormalizeMember(m).Some?
    ensures var n, account, error := NormalizeMember(m).value, First(Walk(m, 0), ACCOUNT_IDS), NestedError(Walk(m, 0));
            Get(n, q)
            == if q == AccountIdKey && AccountId(m) == "" && account.Found? then Str(Strip(Show(account.value)))
               else if q == ContractIdKey then Searched(m, q, CONTRACT_IDS)
               else if q == TransactionIdKey then Searched(m, q, TRANSACTION_IDS)
               else if q == Error && !Get(m, Error).Obj? && error.Some? then error.value
               else Get(m, q)
  {
    hide AccountStep, IdStep, ErrorStep, First, Walk, NestedError, AccountId, Get, Strip, Show;
    var a := AccountStep(m).value;
    var c := IdStep(a, ContractIdKey, CONTRACT_IDS).value;
    var t := IdStep(c, TransactionIdKey, TRANSACTION_IDS).value;
    AccountStepExactly(m);
    IdStepExactly(a, ContractIdKey, CONTRACT_IDS);
    IdStepExactly(c, TransactionIdKey, TRANSACTION_IDS);
    ErrorStepExactly(t);
    IdStepKeepsErrors(a, ContractIdKey, CONTRACT_IDS);
    IdStepKeepsErrors(c, TransactionIdKey, TRANSACTION_IDS);
    AccountStepKeepsSearch(m, CONTRACT_IDS);
    AccountStepKeepsSearch(m, TRANSACTION_IDS);
    IdStepKeepsSearch(a, ContractIdKey, CONTRACT_IDS, TRANSACTION_IDS);
    FieldThroughSteps(m, a, c, t, q);
    FieldThroughSteps(m, a, c, t, Error);
    FieldThroughSteps(m, a, c, t, ContractIdKey);
    FieldThroughSteps(m, a, c, t, TransactionIdKey);
  }

  lemma {:induction false} FieldThroughSteps(m: Json, a: Json, c: Json, t: Json, q: Key)
    requires m.Obj? && AccountStep(m) == Some(a) && IdStep(a, ContractIdKey, CONTRACT_IDS) == Some(c)
    requires IdStep(c, TransactionIdKey, TRANSACTION_IDS) == Some(t)
    ensures q != AccountIdKey ==> Get(a, q) == Get(m, q)
    ensures q != ContractIdKey ==> Get(c, q) == Get(a, q)
    ensures q != TransactionIdKey ==> Get(t, q) == Get(c, q)
    ensures q != Error ==> Get(ErrorStep(t), q) == Get(t, q)
  {
    hide AccountStep, IdStep, ErrorStep, Get;
    if q != AccountIdKey { AccountStepFrame(m, q); }
    if q != ContractIdKey { IdStepFrame(a, ContractIdKey, CONTRACT_IDS, q); }
    if q != TransactionIdKey { IdStepFrame(c, TransactionIdKey, TRANSACTION_IDS, q); }
    if q != Error { ErrorStepFrame(t, q); }
  }

  /** A member is marked exactly when it has no contract id, no error object, and not both a code
      and a message of its own; nothing but its error changes. */
  lemma {:induction false} MarkedExactly(m: Json, q: Key)
    requires m.Obj?
    ensures var unresolved := !Truthy(Get(m, ContractIdKey)) && !Get(m, Error).Obj?
                              && !(Truthy(Get(m, Code)) && Truthy(Get(m, Message)));
            && (MarkMember(m) != m <==> unresolved)
            && (unresolved ==> Get(MarkMember(m), q) == if q == Error then UNRESOLVED else Get(m, q))
    ensures Get(UNRESOLVED, Code) == Str("BULK_MEMBER_UNRESOLVED")
  {
    GetSet(m, Error, UNRESOLVED, q);
    GetSet(m, Error, UNRESOLVED, Error);
    hide Truthy, Set;
  }

  /** An empty list under the member's own `contract_id` does. */
  lemma {:induction false} EmptyListRaises(m: Json)
    requires m.Obj? && Get(m, ContractIdKey) == Arr([])
    ensures MemberRaises(m)
  {
    hide Walk, Get, AccountId;
    WalkHead(m);
    assert FirstIn(m, CONTRACT_IDS) == Raises;
  }

  /** A contract id that a member did not have stood under an explicit contract-id key
      within five wrappers. */
  lemma {:induction false} PromotedContractStoodThere(m: Json)
    requires m.Obj? && NormalizeMember(m).Some?
    requires Get(NormalizeMember(m).value, ContractIdKey) != Get(m, ContractIdKey)
    ensures exists path, k ::
              |path| <= MAX_DEPTH && WrapperPath(path) && k in CONTRACT_IDS
              && Get(Follow(m, path), k) == Get(NormalizeMember(m).value, ContractIdKey)
  {
    hide First, Walk, Set, Get, AccountStep, ErrorStep, IdStep, Follow, WrapperPath;
    ContractFromSearch(m);
    FoundIsExplicit(Walk(m, 0), CONTRACT_IDS);
    var v := First(Walk(m, 0), CONTRACT_IDS).value;
    var d, k :| d in Walk(m, 0) && k in CONTRACT_IDS && Get(d, k) == v;
    WalkExactly(m, d);
  }

  lemma {:induction false} ContractFromSearch(m: Json)
    requires m.Obj? && NormalizeMember(m).Some?
    requires Get(NormalizeMember(m).value, ContractIdKey) != Get(m, ContractIdKey)
    ensures First(Walk(m, 0), CONTRACT_IDS) == Found(Get(NormalizeMember(m).value, ContractIdKey))
  {
    hide First, Walk, Set, Get, AccountStep, ErrorStep;
    var a := AccountStep(m).value;
    var c := IdStep(a, ContractIdKey, CONTRACT_IDS).value;
    var t := IdStep(c, TransactionIdKey, TRANSACTION_IDS).value;
    AccountStepFrame(m, ContractIdKey);
    IdStepFrame(c, TransactionIdKey, TRANSACTION_IDS, ContractIdKey);
    ErrorStepFrame(t, ContractIdKey);
    ContractSearchBefore(m);
    if First(Walk(m, 0), CONTRACT_IDS).Found? {
      GetSet(a, ContractIdKey, First(Walk(m, 0), CONTRACT_IDS).value, ContractIdKey);
    }
  }

  lemma {:induction false} ErrorIsStated(ds: seq<Json>)
    requires NestedError(ds).Some?
    ensures exists d :: d in ds && StatedError(d) == NestedError(ds)
  {
    hide StatedError;
    if StatedError(ds[0]).Some? {
      assert ds[0] in ds;
    } else {
      ErrorIsStated(ds[1..]);
    }
  }

  /** An error that a member did not have is the one stated by a dictionary within five
      wrappers. */
  lemma {:induction false} PromotedErrorStoodThere(m: Json)
    requires m.Obj? && ErrorStep(m) != m
    ensures exists path :: |path| <= MAX_DEPTH && WrapperPath(path)
                           && StatedError(Follow(m, path)) == Some(Get(ErrorStep(m), Error))
  {
    hide StatedError, NestedError, Walk, Set, Get, Follow, WrapperPath;
    var e := NestedError(Walk(m, 0)).value;
    GetSet(m, Error, e, Error);
    ErrorIsStated(Walk(m, 0));
    var d :| d in Walk(m, 0) && StatedError(d) == Some(e);
    WalkExactly(m, d);
  }

  /** Resolving the account first does not disturb the search for the contract. */
  lemma {:induction false} ContractSearchBefore(m: Json)
    requires m.Obj? && AccountStep(m).Some?
    ensures First(Walk(AccountStep(m).value, 0), CONTRACT_IDS) == First(Walk(m, 0), CONTRACT_IDS)
  {
    hide First, Walk, AccountId, Set, Strip, Show;
    if AccountId(m) == "" && First(Walk(m, 0), ACCOUNT_IDS).Found? {
      FirstFrame(m, AccountIdKey, Str(Strip(Show(First(Walk(m, 0), ACCOUNT_IDS).value))), CONTRACT_IDS);
    }
  }

  /** Every object member ends with a contract id, an error, or its own code and
      message. */
  lemma {:induction false} MarkedIsResolved(m: Json)
    requires m.Obj?
    ensures Resolved(MarkMember(m)) && MarkMember(MarkMember(m)) == MarkMember(m)
  {
    if !Resolved(m) {
      GetSet(m, Error, UNRESOLVED, Error);
      hide Set;
    }
  }

  // ---------------------------------------------------------- a member's second pass

  /** A second account search would find nothing, or only what is written already. */
  predicate AccountSettled(m: Json) {
    AccountId(m) != "" || First(Walk(m, 0), ACCOUNT_IDS).Absent?
    || (First(Walk(m, 0), ACCOUNT_IDS).Found? && Strip(Show(First(Walk(m, 0), ACCOUNT_IDS).value)) == "")
  }

  predicate IdSettled(m: Json, k: Key, keys: seq<Key>) {
    Truthy(Get(m, k)) || First(Walk(m, 0), keys).Absent? || First(Walk(m, 0), keys) == Found(Get(m, k))
  }

  predicate ErrorSettled(m: Json) { Get(m, Error).Obj? || NestedError(Walk(m, 0)).None? }

  /** Nobody searches, or the blank account found last time is written down. */
  predicate AccountWritten(m: Json) {
    AccountId(m) != "" || First(Walk(m, 0), ACCOUNT_IDS).Absent? || Get(m, AccountIdKey) == Str("")
  }

  /** What one pass leaves behind. */
  predicate Passed(m: Json) {
    && m.Obj? && AccountWritten(m) && ErrorSettled(m)
    && IdSettled(m, ContractIdKey, CONTRACT_IDS) && IdSettled(m, TransactionIdKey, TRANSACTION_IDS)
  }

  lemma {:induction false} AccountStepWrites(m: Json)
    requires m.Obj? && AccountStep(m).Some?
    ensures AccountWritten(AccountStep(m).value)
  {
    if AccountId(m) == "" && First(Walk(m, 0), ACCOUNT_IDS).Found? {
      var text := Strip(Show(First(Walk(m, 0), ACCOUNT_IDS).value));
      GetSet(m, AccountIdKey, Str(text), AccountIdKey);
      StripIsStable(Show(First(Walk(m, 0), ACCOUNT_IDS).value));
      hide First, Walk, Show, Strip, Set, AccountId;
      if text != "" {
        AccountSet(m, text);
      }
    }
  }

  /** The key written is the first one searched, so a second search stops there. */
  lemma {:induction false} IdStepSettles(m: Json, k: Key, keys: seq<Key>)
    requires m.Obj? && IdStep(m, k, keys).Some? && |keys| > 0 && keys[0] == k && k !in WRAPPERS
    ensures IdSettled(IdStep(m, k, keys).value, k, keys)
  {
    if !Truthy(Get(m, k)) && First(Walk(m, 0), keys).Found? {
      var v := First(Walk(m, 0), keys).value;
      FoundIsExplicit(Walk(m, 0), keys);
      GetSet(m, k, v, k);
      WalkHead(Set(m, k, v));
      hide Walk, Set;
      assert FirstIn(Set(m, k, v), keys) == Found(v);
    }
  }

  lemma {:induction false} ErrorStepSettles(m: Json)
    requires m.Obj?
    ensures ErrorSettled(ErrorStep(m))
  {
    hide NestedError, Walk, Set, Get;
    NestedErrorIsObject(Walk(m, 0));
    if NestedError(Walk(m, 0)).Some? {
      GetSet(m, Error, NestedError(Walk(m, 0)).value, Error);
    }
  }

  /** Writing an id or an error leaves the account part of a passed member. */
  lemma {:induction false} AccountWrittenFrame(m: Json, k: Key, v: Json)
    requires m.Obj? && k !in ACCOUNT_IDS && k !in WRAPPERS && k !in ACCOUNT_WRAPPERS
    ensures AccountWritten(Set(m, k, v)) == AccountWritten(m)
    ensures AccountSettled(Set(m, k, v)) == AccountSettled(m)
  {
    AccountFrame(m, k, v);
    FirstFrame(m, k, v, ACCOUNT_IDS);
    GetSet(m, k, v, AccountIdKey);
    hide AccountId, First, Walk, Set, Get, Show, Strip;
  }

  lemma {:induction false} IdSettledFrame(m: Json, q: Key, v: Json, k: Key, keys: seq<Key>)
    requires m.Obj? && q != k && q !in keys && q !in WRAPPERS
    ensures IdSettled(Set(m, q, v), k, keys) == IdSettled(m, k, keys)
  {
    FirstFrame(m, q, v, keys);
    GetSet(m, q, v, k);
    hide First, Walk, Set, Get;
  }

  lemma {:induction false} ErrorSettledFrame(m: Json, k: Key, v: Json)
    requires m.Obj? && k !in WRAPPERS && k != Error && k != Code && k != Message && k != Status
    ensures ErrorSettled(Set(m, k, v)) == ErrorSettled(m)
  {
    NestedErrorFrame(m, k, v);
    GetSet(m, k, v, Error);
    hide NestedError, Walk, Set, Get;
  }

  lemma {:induction false} ContractStepKeeps(m: Json)
    requires m.Obj? && AccountWritten(m) && IdStep(m, ContractIdKey, CONTRACT_IDS).Some?
    ensures AccountWritten(IdStep(m, ContractIdKey, CONTRACT_IDS).value)
  {
    hide First, Walk, Set, Get, AccountWritten, AccountSettled;
    if !Truthy(Get(m, ContractIdKey)) && First(Walk(m, 0), CONTRACT_IDS).Found? {
      AccountWrittenFrame(m, ContractIdKey, First(Walk(m, 0), CONTRACT_IDS).value);
    }
  }

  lemma {:induction false} TransactionStepKeeps(m: Json)
    requires m.Obj? && AccountWritten(m) && IdSettled(m, ContractIdKey, CONTRACT_IDS)
    requires IdStep(m, TransactionIdKey, TRANSACTION_IDS).Some?
    ensures var t := IdStep(m, TransactionIdKey, TRANSACTION_IDS).value;
            AccountWritten(t) && IdSettled(t, ContractIdKey, CONTRACT_IDS)
  {
    hide First, Walk, Set, Get, AccountWritten, AccountSettled, IdSettled;
    if !Truthy(Get(m, TransactionIdKey)) && First(Walk(m, 0), TRANSACTION_IDS).Found? {
      var v := First(Walk(m, 0), TRANSACTION_IDS).value;
      AccountWrittenFrame(m, TransactionIdKey, v);
      IdSettledFrame(m, TransactionIdKey, v, ContractIdKey, CONTRACT_IDS);
    }
  }

  lemma {:induction false} ErrorKeeps(m: Json, e: Json)
    requires m.Obj? && AccountWritten(m)
    requires IdSettled(m, ContractIdKey, CONTRACT_IDS) && IdSettled(m, TransactionIdKey, TRANSACTION_IDS)
    ensures var t := Set(m, Error, e);
            AccountWritten(t) && IdSettled(t, ContractIdKey, CONTRACT_IDS)
            && IdSettled(t, TransactionIdKey, TRANSACTION_IDS)
  {
    hide Set, AccountWritten, IdSettled, AccountSettled;
    AccountWrittenFrame(m, Error, e);
    IdSettledFrame(m, Error, e, ContractIdKey, CONTRACT_IDS);
    IdSettledFrame(m, Error, e, TransactionIdKey, TRANSACTION_IDS);
  }

  lemma {:induction false} NormalizedHasPassed(m: Json)
    requires m.Obj? && NormalizeMember(m).Some?
    ensures Passed(NormalizeMember(m).value)
  {
    var a := AccountStep(m).value;
    AccountStepWrites(m);
    var c := IdStep(a, ContractIdKey, CONTRACT_IDS).value;
    IdStepSettles(a, ContractIdKey, CONTRACT_IDS);
    ContractStepKeeps(a);
    var t := IdStep(c, TransactionIdKey, TRANSACTION_IDS).value;
    IdStepSettles(c, TransactionIdKey, TRANSACTION_IDS);
    TransactionStepKeeps(c);
    ErrorStepSettles(t);
    hide AccountWritten, IdSettled, ErrorSettled, AccountStep, IdStep, Set;
    if ErrorStep(t) != t {
      ErrorKeeps(t, NestedError(Walk(t, 0)).value);
    }
  }

  /** A second pass over a member changes nothing exactly when its account search is
      settled: an account, none to be found, or a blank one only. */
  lemma {:induction false} SecondPassExactly(m: Json)
    requires Passed(m)
    ensures NormalizeMember(m) == Some(m) <==> AccountSettled(m)
    ensures NormalizeMember(m).Some? && !AccountSettled(m) ==>
              Get(NormalizeMember(m).value, AccountIdKey) != Get(m, AccountIdKey)
              && AccountId(NormalizeMember(m).value) != ""
  {
    hide AccountWritten, IdSettled, ErrorSettled, AccountSettled, AccountId, AccountStep, NormalizeMember;
    AccountStepAgain(m);
    if AccountSettled(m) {
      SettledStays(m);
    } else if NormalizeMember(m).Some? {
      AccountCarried(m);
    }
  }

  lemma {:induction false} SettledStays(m: Json)
    requires Passed(m) && AccountStep(m) == Some(m)
    ensures NormalizeMember(m) == Some(m)
  {
    hide AccountWritten, IdSettled, AccountStep, IdStep, Walk, NestedError;
    IdStepAgain(m, ContractIdKey, CONTRACT_IDS);
    IdStepAgain(m, TransactionIdKey, TRANSACTION_IDS);
  }

  /** The later steps carry the account as the first one left it. */
  lemma {:induction false} AccountCarried(m: Json)
    requires m.Obj? && NormalizeMember(m).Some?
    ensures AccountStep(m).Some?
    ensures Get(NormalizeMember(m).value, AccountIdKey) == Get(AccountStep(m).value, AccountIdKey)
    ensures AccountId(NormalizeMember(m).value) == AccountId(AccountStep(m).value)
  {
    hide AccountStep, IdStep, ErrorStep, AccountId, Get;
    var a := AccountStep(m).value;
    var c := IdStep(a, ContractIdKey, CONTRACT_IDS).value;
    var t := IdStep(c, TransactionIdKey, TRANSACTION_IDS).value;
    IdStepFrame(a, ContractIdKey, CONTRACT_IDS, AccountIdKey);
    IdStepFrame(c, TransactionIdKey, TRANSACTION_IDS, AccountIdKey);
    ErrorStepFrame(t, AccountIdKey);
    IdStepKeepsAccount(a, ContractIdKey, CONTRACT_IDS);
    IdStepKeepsAccount(c, TransactionIdKey, TRANSACTION_IDS);
    ErrorStepKeepsAccount(t);
  }

  lemma {:induction false} AccountStepAgain(m: Json)
    requires m.Obj? && AccountWritten(m)
    ensures AccountStep(m) == Some(m) <==> AccountSettled(m)
    ensures AccountStep(m).Some? && !AccountSettled(m) ==>
              Get(AccountStep(m).value, AccountIdKey) != Get(m, AccountIdKey)
              && AccountId(AccountStep(m).value) != ""
  {
    if AccountId(m) == "" && First(Walk(m, 0), ACCOUNT_IDS).Found? {
      var text := Strip(Show(First(Walk(m, 0), ACCOUNT_IDS).value));
      GetSet(m, AccountIdKey, Str(text), AccountIdKey);
      StripIsStable(Show(First(Walk(m, 0), ACCOUNT_IDS).value));
      SetGot(m, AccountIdKey);
      hide First, Walk, Show, Strip, Set, AccountId;
      if text != "" {
        AccountSet(m, text);
      }
    }
  }

  lemma {:induction false} IdStepAgain(m: Json, k: Key, keys: seq<Key>)
    requires m.Obj? && IdSettled(m, k, keys)
    ensures IdStep(m, k, keys) == Some(m)
  {
    if !Truthy(Get(m, k)) && First(Walk(m, 0), keys).Found? {
      FoundIsExplicit(Walk(m, 0), keys);
      SetGot(m, k);
    }
  }

  // ------------------------------------------------- the second pass, before the first

  /** The account a pass gives the member: its own, or the first explicit one. */
  function StatedAccount(m: Json): string {
    if AccountId(m) != "" then AccountId(m)
    else if First(Walk(m, 0), ACCOUNT_IDS).Found? then Strip(Show(First(Walk(m, 0), ACCOUNT_IDS).value))
    else ""
  }

  /** The first explicit account field after the member's own `account_id`. */
  function NextAccount(m: Json): Search
    requires m.Obj?
  {
    var here := FirstIn(m, ACCOUNT_IDS[1..]);
    if here.Absent? then First(Walk(m, 0)[1..], ACCOUNT_IDS) else here
  }

  /** The member's own `account_id` is blank without being empty, nothing else gives it an
      account, and the next explicit account field is not blank, or no scalar. */
  predicate BlankAhead(m: Json) {
    && m.Obj? && AccountId(m) == "" && Get(m, AccountIdKey).Str? && Get(m, AccountIdKey) != Str("")
    && (NextAccount(m).Raises? || (NextAccount(m).Found? && Strip(Show(NextAccount(m).value)) != ""))
  }

  lemma {:induction false} SkipOwnAccount(m: Json)
    requires m.Obj? && (Get(m, AccountIdKey) == Null || Get(m, AccountIdKey) == Str(""))
    ensures First(Walk(m, 0), ACCOUNT_IDS) == NextAccount(m)
  {
    WalkHead(m);
    hide Walk, Get;
    assert FirstIn(m, ACCOUNT_IDS) == FirstIn(m, ACCOUNT_IDS[1..]);
  }

  lemma {:induction false} NextAfterEmptying(m: Json)
    requires m.Obj?
    ensures First(Walk(Set(m, AccountIdKey, Str("")), 0), ACCOUNT_IDS) == NextAccount(m)
  {
    hide Walk, Get, Set, First, FirstIn;
    var p := Set(m, AccountIdKey, Str(""));
    GetSet(m, AccountIdKey, Str(""), AccountIdKey);
    WalkSet(m, AccountIdKey, Str(""));
    forall q | q in ACCOUNT_IDS[1..] ensures Get(m, q) == Get(p, q) {
      GetSet(m, AccountIdKey, Str(""), q);
    }
    FirstInFrame(m, p, ACCOUNT_IDS[1..]);
    SkipOwnAccount(p);
    WalkHead(m);
    assert ([p] + Walk(m, 0)[1..])[1..] == Walk(m, 0)[1..];
  }

  /** A blank own field is what the search finds. */
  lemma {:induction false} OwnFieldFirst(m: Json)
    requires m.Obj? && Get(m, AccountIdKey) != Null && Get(m, AccountIdKey) != Str("")
    ensures First(Walk(m, 0), ACCOUNT_IDS)
            == if Get(m, AccountIdKey).Arr? || Get(m, AccountIdKey).Obj? then Raises else Found(Get(m, AccountIdKey))
  {
    WalkHead(m);
    hide Walk, Get;
    assert !FirstIn(m, ACCOUNT_IDS).Absent?;
  }

  lemma {:induction false} NoOwnText(m: Json)
    requires m.Obj? && AccountId(m) == ""
    ensures Text(Get(m, AccountIdKey)) == ""
  {
    hide NestedAccount, Get, Text;
    assert FirstText(m, ACCOUNT_IDS) == "";
  }

  lemma {:induction false} OneWrapperBelow(o: Json, depth: nat, keys: seq<Key>, k: Key)
    requires o.Obj? && depth < MAX_DEPTH && forall i, j :: 0 <= i < j < |keys| ==> keys[i] != keys[j]
    requires forall q :: q in keys && q != k ==> !Get(o, q).Obj?
    ensures Below(o, depth, keys) == if k in keys then Walk(Get(o, k), depth + 1) else []
    decreases |keys|
  {
    if |keys| > 0 {
      OneWrapperBelow(o, depth, keys[1..], k);
    }
  }

  function Inner(): Json { Obj([Field(AccountIdKey, Str("X"))]) }

  function BlankFirst(account: string): Json {
    Obj([Field(AccountIdKey, Str(account)), Field(Response, Inner())])
  }

  lemma {:induction false} BlankFirstFields(account: string, k: Key)
    ensures Get(BlankFirst(account), k)
            == if k == AccountIdKey then Str(account) else if k == Response then Inner() else Null
    ensures Get(Inner(), k) == if k == AccountIdKey then Str("X") else Null
  {
    assert Find([Field(Response, Inner())], k) == if k == Response then Inner() else Null;
  }

  lemma {:induction false} WalkUnfold(o: Json, depth: nat)
    requires o.Obj? && depth <= MAX_DEPTH
    ensures Walk(o, depth) == [o] + Below(o, depth, WRAPPERS)
  {
    hide Below;
  }

  lemma {:induction false} WalkOneDeep(o: Json, inner: Json)
    requires o.Obj? && Get(o, Response) == inner && Walk(inner, 1) == [inner]
    requires forall q :: q in WRAPPERS && q != Response ==> !Get(o, q).Obj?
    ensures Walk(o, 0) == [o, inner]
  {
    hide Get, Below, Walk;
    WalkUnfold(o, 0);
    OneWrapperBelow(o, 0, WRAPPERS, Response);
    assert [o] + [inner] == [o, inner];
  }

  lemma {:induction false} NoWrapperWalk(o: Json, depth: nat)
    requires o.Obj? && depth < MAX_DEPTH && forall q :: q in WRAPPERS ==> !Get(o, q).Obj?
    ensures Walk(o, depth) == [o]
  {
    hide Get, Below;
    OneWrapperBelow(o, depth, WRAPPERS, AccountIdKey);
    assert Below(o, depth, WRAPPERS) == [];
  }

  lemma {:induction false} InnerWalk()
    ensures Walk(Inner(), 1) == [Inner()]
  {
    hide Get, Walk, Inner;
    assert Inner().Obj? by {
      InnerIsObject();
    }
    forall q | q in WRAPPERS ensures !Get(Inner(), q).Obj? {
      BlankFirstFields("", q);
    }
    NoWrapperWalk(Inner(), 1);
  }

  lemma {:induction false} InnerIsObject()
    ensures Inner().Obj?
  {
  }

  lemma {:induction false} BlankFirstWalk(account: string)
    ensures Walk(BlankFirst(account), 0) == [BlankFirst(account), Inner()]
  {
    hide Get, Walk;
    forall q | q in WRAPPERS && q != Response ensures !Get(BlankFirst(account), q).Obj? {
      BlankFirstFields(account, q);
    }
    BlankFirstFields(account, Response);
    InnerWalk();
    WalkOneDeep(BlankFirst(account), Inner());
  }

  lemma {:induction false} BlankFirstAccount(account: string)
    requires Strip(account) == ""
    ensures AccountId(BlankFirst(account)) == ""
  {
    var o := BlankFirst(account);
    forall q | q in ACCOUNT_IDS || q in ACCOUNT_WRAPPERS
      ensures Get(o, q) == if q == AccountIdKey then Str(account) else Null
    {
      BlankFirstFields(account, q);
    }
    hide Get, BlankFirst, Strip;
    NoTextHere(o, ACCOUNT_IDS);
    NoneNested(o, ACCOUNT_WRAPPERS);
  }

  lemma {:induction false} NoTextHere(o: Json, keys: seq<Key>)
    requires forall k :: k in keys ==> Text(Get(o, k)) == ""
    ensures FirstText(o, keys) == ""
  {
    if |keys| > 0 {
      NoTextHere(o, keys[1..]);
    }
  }

  lemma {:induction false} NoneNested(o: Json, keys: seq<Key>)
    requires o.Obj? && forall k :: k in keys ==> !Get(o, k).Obj?
    ensures NestedAccount(o, keys) == ""
  {
    if |keys| > 0 {
      NoneNested(o, keys[1..]);
    }
  }

  lemma {:induction false} NothingHere(d: Json, keys: seq<Key>)
    requires forall k :: k in keys ==> Get(d, k) == Null || Get(d, k) == Str("")
    ensures FirstIn(d, keys) == Absent
  {
    if |keys| > 0 {
      NothingHere(d, keys[1..]);
    }
  }

  lemma {:induction false} FirstOfTwo(a: Json, b: Json, keys: seq<Key>)
    ensures First([a, b], keys) == if FirstIn(a, keys).Absent? then FirstIn(b, keys) else FirstIn(a, keys)
  {
    hide FirstIn;
    assert [a, b][1..] == [b] && [b][1..] == [];
    assert First([], keys) == Absent;
    assert First([b], keys) == FirstIn(b, keys);
  }

  lemma {:induction false} ErrorOfTwo(a: Json, b: Json)
    requires StatedError(a).None? && StatedError(b).None?
    ensures NestedError([a, b]).None?
  {
    hide StatedError;
    assert [a, b][1..] == [b] && [b][1..] == [];
    assert NestedError([]).None?;
    assert NestedError([b]).None?;
  }

  lemma {:induction false} HeadIsExplicit(d: Json, keys: seq<Key>)
    requires |keys| > 0 && Get(d, keys[0]).Str? && Get(d, keys[0]) != Str("")
    ensures FirstIn(d, keys) == Found(Get(d, keys[0]))
  {
  }

  lemma {:induction false} BlankFirstSearch(account: string)
    ensures var found := if account == "" then Str("X") else Str(account);
            First(Walk(BlankFirst(account), 0), ACCOUNT_IDS) == Found(found)
  {
    hide Get, Walk, BlankFirst, First, FirstIn;
    var o := BlankFirst(account);
    BlankFirstWalk(account);
    FirstOfTwo(o, Inner(), ACCOUNT_IDS);
    forall q | q in ACCOUNT_IDS
      ensures Get(o, q) == if q == AccountIdKey then Str(account) else Null
    {
      BlankFirstFields(account, q);
    }
    BlankFirstFields(account, AccountIdKey);
    HeadIsExplicit(Inner(), ACCOUNT_IDS);
    if account == "" {
      NothingHere(o, ACCOUNT_IDS);
    } else {
      HeadIsExplicit(o, ACCOUNT_IDS);
    }
  }

  lemma {:induction false} BlankFirstHasNoId(account: string, k: Key, keys: seq<Key>)
    requires k != AccountIdKey && k != Response && AccountIdKey !in keys && Response !in keys
    ensures IdStep(BlankFirst(account), k, keys) == Some(BlankFirst(account))
  {
    hide Get, Walk, First, FirstIn;
    var o := BlankFirst(account);
    BlankFirstWalk(account);
    FirstOfTwo(o, Inner(), keys);
    forall q | q in keys ensures Get(o, q) == Null && Get(Inner(), q) == Null {
      BlankFirstFields(account, q);
    }
    NothingHere(o, keys);
    NothingHere(Inner(), keys);
  }

  lemma {:induction false} BlankFirstHasNoError(account: string)
    ensures ErrorStep(BlankFirst(account)) == BlankFirst(account)
  {
    hide Get, Walk, NestedError;
    BlankFirstWalk(account);
    BlankFirstFields(account, Error);
    BlankFirstFields(account, Code);
    ErrorOfTwo(BlankFirst(account), Inner());
  }

  lemma {:induction false} BlankIsWrittenEmpty(account: string)
    requires account != "" && Strip(account) == ""
    ensures AccountStep(BlankFirst(account)) == Some(BlankFirst(""))
  {
    hide AccountId, First, Walk, Strip, BlankFirst, Set;
    BlankFirstIsObject(account);
    BlankFirstAccount(account);
    BlankFirstSearch(account);
    BlankFirstSet(account);
    ShowText(account);
  }

  lemma {:induction false} ShowText(s: string)
    ensures Show(Str(s)) == s
  {
  }

  lemma {:induction false} BlankFirstSet(account: string)
    requires BlankFirst(account).Obj?
    ensures Set(BlankFirst(account), AccountIdKey, Str("")) == BlankFirst("")
  {
  }

  lemma {:induction false} BlankNormalized(account: string)
    requires account != "" && Strip(account) == ""
    ensures BlankFirst(account).Obj? && NormalizeMember(BlankFirst(account)) == Some(BlankFirst(""))
  {
    hide Strip, IdStep, ErrorStep, AccountStep, BlankFirst;
    BlankFirstIsObject(account);
    BlankIsWrittenEmpty(account);
    BlankFirstHasNoId("", ContractIdKey, CONTRACT_IDS);
    BlankFirstHasNoId("", TransactionIdKey, TRANSACTION_IDS);
    BlankFirstHasNoError("");
  }

  lemma {:induction false} BlankUnsettled()
    ensures !AccountSettled(BlankFirst(""))
  {
    hide AccountId, First, Walk, BlankFirst;
    BlankFirstAccount("");
    BlankFirstSearch("");
    ShowText("X");
    assert Strip("X") == "X";
  }

  /** A blank account ahead of a real one: the first pass writes the blank down empty,
      the second passes over it and finds the real one.  The reconciler is not
      idempotent on such members. */
  lemma {:induction false} BlankAccountTakesTwoPasses(account: string)
    requires account != "" && Strip(account) == ""
    ensures NormalizeMember(BlankFirst(account)) == Some(BlankFirst(""))
    ensures NormalizeMember(BlankFirst("")) != Some(BlankFirst(""))
  {
    hide AccountSettled, NormalizeMember, Passed, BlankFirst, Strip;
    BlankFirstIsObject(account);
    BlankFirstIsObject("");
    BlankNormalized(account);
    NormalizedHasPassed(BlankFirst(account));
    BlankUnsettled();
    SecondPassExactly(BlankFirst(""));
  }

  lemma {:induction false} BlankFirstIsObject(account: string)
    ensures BlankFirst(account).Obj?
  {
  }
}
