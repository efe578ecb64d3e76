/** The stages of the bulk-reply reconciler over a whole response: containers, members,
    positions, unresolved members. */
module BulkReplyPipeline {

  import opened Strings
  import opened BulkReply

  // ------------------------------------------------------------------- containers

  /** `_account_member`. */
  function AccountMember(key: Key, value: Json, failure: bool): (r: Option<Json>)
    ensures r.Some? ==> r.value.Obj?
  {
    var account := Strip(KeyText(key));
    if !value.Obj? && !failure then None
    else
      var message := if Truthy(value) then Show(value) else "Deriv rejected this account";
      var member := if value.Obj? then value else Obj([Field(Message, Str(message))]);
      Some(if account != "" && !Has(member, AccountIdKey) then Set(member, AccountIdKey, Str(account)) else member)
  }

  /** `_mapping_to_members`: account-keyed entries become a list, in their order. */
  function MappingToMembers(fields: seq<Field>, failure: bool): (r: seq<Json>)
    ensures forall m :: m in r ==> m.Obj?
  {
    if |fields| == 0 then []
    else
      var last := fields[|fields| - 1];
      var member := AccountMember(last.key, last.value, failure);
      MappingToMembers(fields[..|fields| - 1], failure) + if member.Some? then [member.value] else []
  }

  function ConvertKeys(o: Json, keys: seq<Key>, failure: bool): (r: Json)
    requires o.Obj?
    ensures r.Obj?
    decreases |keys|
  {
    if |keys| == 0 then o
    else
      var value := Get(o, keys[0]);
      var next := if value.Obj? then Set(o, keys[0], Arr(MappingToMembers(value.fields, failure))) else o;
      ConvertKeys(next, keys[1..], failure)
  }

  function Dicts(j: Json): seq<Json> {
    if j.Arr? then Objects(j.items) else []
  }

  function Objects(items: seq<Json>): seq<Json> {
    if |items| == 0 then []
    else (if items[0].Obj? then [items[0]] else []) + Objects(items[1..])
  }

  predicate HasList(o: Json) {
    exists k :: k in CANONICAL && Get(o, k).Arr? && Get(o, k).items != []
  }

  /** `_promote_success_aliases`. */
  function Promote(o: Json): (r: Json)
    requires o.Obj?
    ensures r.Obj?
  {
    var promoted := Dicts(Get(o, Successes)) + Dicts(Get(o, Members));
    if HasList(o) || promoted == [] then o else Set(o, Transactions, Arr(promoted))
  }

  function Converted(o: Json): (r: Json)
    requires o.Obj?
    ensures r.Obj?
  {
    ConvertKeys(ConvertKeys(o, SUCCESS, false), FAILURE, true)
  }

  /** `_canonicalize_container`. */
  function Container(o: Json): (r: Json)
    requires o.Obj?
    ensures r.Obj?
  {
    Promote(Converted(o))
  }

  /** `_canonicalize_response`. */
  function Canonicalize(o: Json): (r: Json)
    requires o.Obj?
    ensures r.Obj?
  {
    var top := Container(o);
    if Get(top, Data).Obj? then Set(top, Data, Container(Get(top, Data))) else top
  }

  /** No account-keyed container is left, and there is nothing to promote. */
  predicate Tidy(o: Json) {
    && o.Obj?
    && (forall k :: k in SUCCESS + FAILURE ==> !Get(o, k).Obj?)
    && (HasList(o) || Dicts(Get(o, Successes)) + Dicts(Get(o, Members)) == [])
  }

  predicate Canonical(o: Json) {
    Tidy(o) && (Get(o, Data).Obj? ==> Tidy(Get(o, Data)))
  }

  lemma {:induction false} ConvertKeysGet(o: Json, keys: seq<Key>, failure: bool, q: Key)
    requires o.Obj?
    ensures q !in keys ==> Get(ConvertKeys(o, keys, failure), q) == Get(o, q)
    ensures q in keys ==> !Get(ConvertKeys(o, keys, failure), q).Obj?
    decreases |keys|
  {
    if |keys| > 0 {
      var value := Get(o, keys[0]);
      var next := if value.Obj? then Set(o, keys[0], Arr(MappingToMembers(value.fields, failure))) else o;
      if value.Obj? {
        GetSet(o, keys[0], Arr(MappingToMembers(value.fields, failure)), q);
      }
      ConvertKeysGet(next, keys[1..], failure, q);
    }
  }

  lemma {:induction false} ConvertKeysDone(o: Json, keys: seq<Key>, failure: bool)
    requires o.Obj? && forall k :: k in keys ==> !Get(o, k).Obj?
    ensures ConvertKeys(o, keys, failure) == o
    decreases |keys|
  {
    if |keys| > 0 {
      assert keys[0] in keys;
      ConvertKeysDone(o, keys[1..], failure);
    }
  }

  lemma {:induction false} PromoteTidies(o: Json)
    requires o.Obj? && forall k :: k in SUCCESS + FAILURE ==> !Get(o, k).Obj?
    ensures Tidy(Promote(o))
    ensures Get(Promote(o), Data) == Get(o, Data)
  {
    var promoted := Dicts(Get(o, Successes)) + Dicts(Get(o, Members));
    if !HasList(o) && promoted != [] {
      forall q ensures Get(Promote(o), q) == if q == Transactions then Arr(promoted) else Get(o, q) {
        GetSet(o, Transactions, Arr(promoted), q);
      }
      hide Promote, Dicts;
      assert Transactions in CANONICAL;
    }
  }

  lemma {:induction false} ConvertedGet(o: Json, q: Key)
    requires o.Obj?
    ensures q !in SUCCESS && q !in FAILURE ==> Get(Converted(o), q) == Get(o, q)
    ensures q in SUCCESS || q in FAILURE ==> !Get(Converted(o), q).Obj?
  {
    hide ConvertKeys, Get;
    ConvertKeysGet(o, SUCCESS, false, q);
    ConvertKeysGet(ConvertKeys(o, SUCCESS, false), FAILURE, true, q);
  }

  lemma {:induction false} ContainerTidies(o: Json)
    requires o.Obj?
    ensures Tidy(Container(o))
    ensures Get(Container(o), Data) == Get(o, Data)
  {
    hide Converted, Promote, Tidy, Get;
    forall q | q in SUCCESS + FAILURE ensures !Get(Converted(o), q).Obj? {
      ConvertedGet(o, q);
    }
    ConvertedGet(o, Data);
    PromoteTidies(Converted(o));
  }

  lemma {:induction false} TidyStays(o: Json)
    requires Tidy(o)
    ensures Container(o) == o
  {
    ConvertKeysDone(o, SUCCESS, false);
    ConvertKeysDone(o, FAILURE, true);
  }

  /** Reading only these fields. */
  lemma {:induction false} TidyFrame(o: Json, p: Json)
    requires Tidy(o) && p.Obj? && forall k :: k in SUCCESS + FAILURE ==> Get(p, k) == Get(o, k)
    ensures Tidy(p)
  {
    assert Get(p, Successes) == Get(o, Successes) && Get(p, Members) == Get(o, Members);
    hide Dicts;
    assert forall k :: k in CANONICAL ==> k in SUCCESS + FAILURE;
  }

  lemma {:induction false} CanonicalizeIsCanonical(o: Json)
    requires o.Obj?
    ensures Canonical(Canonicalize(o))
  {
    ContainerTidies(o);
    var top := Container(o);
    if Get(top, Data).Obj? {
      var data := Container(Get(top, Data));
      ContainerTidies(Get(top, Data));
      hide Container, Tidy;
      forall q ensures Get(Set(top, Data, data), q) == if q == Data then data else Get(top, q) {
        GetSet(top, Data, data, q);
      }
      TidyFrame(top, Set(top, Data, data));
    }
  }

  lemma {:induction false} CanonicalStays(o: Json)
    requires Canonical(o)
    ensures Canonicalize(o) == o
  {
    TidyStays(o);
    if Get(o, Data).Obj? {
      TidyStays(Get(o, Data));
      SetGot(o, Data);
    }
  }

  /** A list of members that is there already is neither converted nor replaced. */
  lemma {:induction false} ListsAreKept(o: Json, k: Key)
    requires o.Obj? && k in CANONICAL && Get(o, k).Arr? && Get(o, k).items != []
    ensures Get(Container(o), k) == Get(o, k)
  {
    ConvertedListKept(o, SUCCESS, false, k);
    ConvertedListKept(ConvertKeys(o, SUCCESS, false), FAILURE, true, k);
    hide ConvertKeys, Set, Get, Dicts;
    assert HasList(Converted(o));
  }

  lemma {:induction false} ConvertedListKept(o: Json, keys: seq<Key>, failure: bool, k: Key)
    requires o.Obj? && Get(o, k).Arr?
    ensures Get(ConvertKeys(o, keys, failure), k) == Get(o, k)
    decreases |keys|
  {
    if |keys| > 0 {
      var value := Get(o, keys[0]);
      var next := if value.Obj? then Set(o, keys[0], Arr(MappingToMembers(value.fields, failure))) else o;
      if value.Obj? {
        GetSet(o, keys[0], Arr(MappingToMembers(value.fields, failure)), k);
      }
      ConvertedListKept(next, keys[1..], failure, k);
    }
  }

  function ListAt(o: Json, k: Key): seq<Json> {
    if Get(o, k).Arr? then Get(o, k).items else []
  }

  lemma {:induction false} ObjectsConcat(a: seq<Json>, b: seq<Json>)
    ensures Objects(a + b) == Objects(a) + Objects(b)
    decreases |a|
  {
    if |a| == 0 {
      assert a + b == b;
    } else {
      assert (a + b)[1..] == a[1..] + b;
      ObjectsConcat(a[1..], b);
    }
  }

  /** The objects of a list keep their order, and nothing else is taken over. */
  lemma {:induction false} ObjectsInPlace(items: seq<Json>, i: nat)
    requires i < |items|
    ensures Objects(items) == Objects(items[..i]) + (if items[i].Obj? then [items[i]] else []) + Objects(items[i + 1..])
    ensures Objects([]) == []
  {
    assert [items[i]][1..] == [];
    assert Objects([items[i]]) == if items[i].Obj? then [items[i]] else [];
    hide Objects;
    ObjectsConcat(items[..i], [items[i]]);
    ObjectsConcat(items[..i] + [items[i]], items[i + 1..]);
    assert items == items[..i] + [items[i]] + items[i + 1..];
  }

  /** The objects of both alias lists become the transactions exactly when no canonical list
      has members and an alias list has an object; nothing else changes. */
  lemma {:induction false} PromoteExactly(o: Json, q: Key)
    requires o.Obj?
    ensures var promoted := Objects(ListAt(o, Successes)) + Objects(ListAt(o, Members));
            Get(Promote(o), q)
            == if q == Transactions && promoted != [] && (forall k :: k in CANONICAL ==> ListAt(o, k) == [])
               then Arr(promoted) else Get(o, q)
  {
    var promoted := Dicts(Get(o, Successes)) + Dicts(Get(o, Members));
    GetSet(o, Transactions, Arr(promoted), q);
    assert Objects([]) == [];
    assert HasList(o) <==> !(forall k :: k in CANONICAL ==> ListAt(o, k) == []);
    hide Objects, Set;
  }

  function ObjectEntries(fields: seq<Field>): nat {
    if |fields| == 0 then 0
    else ObjectEntries(fields[..|fields| - 1]) + if fields[|fields| - 1].value.Obj? then 1 else 0
  }

  /** Every entry of an account-keyed failure container becomes a member; of a success
      container, every entry that is an object. */
  lemma {:induction false} MappingCounts(fields: seq<Field>, failure: bool)
    ensures |MappingToMembers(fields, failure)| == if failure then |fields| else ObjectEntries(fields)
  {
    if |fields| > 0 {
      MappingCounts(fields[..|fields| - 1], failure);
    }
  }

  // ------------------------------------------------------ the list of transactions

  datatype Place = InData | AtTop | Nowhere

  /** `_transaction_members`: the list inside `data` has precedence. */
  function Where(o: Json): Place {
    if Get(o, Data).Obj? && Get(Get(o, Data), Transactions).Arr? then InData
    else if Get(o, Transactions).Arr? then AtTop
    else Nowhere
  }

  function ItemsOf(o: Json): seq<Json>
    requires Where(o) != Nowhere
  {
    if Where(o) == InData then Get(Get(o, Data), Transactions).items else Get(o, Transactions).items
  }

  /** The copy of the response with another list in the same place. */
  function Replace(o: Json, items: seq<Json>): (r: Json)
    requires o.Obj? && Where(o) != Nowhere
    ensures r.Obj?
  {
    if Where(o) == InData then Set(o, Data, Set(Get(o, Data), Transactions, Arr(items)))
    else Set(o, Transactions, Arr(items))
  }

  lemma {:induction false} ReplaceReads(o: Json, items: seq<Json>)
    requires o.Obj? && Where(o) != Nowhere
    ensures Where(Replace(o, items)) == Where(o) && ItemsOf(Replace(o, items)) == items
  {
    var data := Get(o, Data);
    if Where(o) == InData {
      GetSet(data, Transactions, Arr(items), Transactions);
      GetSet(o, Data, Set(data, Transactions, Arr(items)), Data);
    } else {
      GetSet(o, Transactions, Arr(items), Transactions);
      GetSet(o, Transactions, Arr(items), Data);
    }
    hide Set;
  }

  lemma {:induction false} ReplaceSame(o: Json)
    requires o.Obj? && Where(o) != Nowhere
    ensures Replace(o, ItemsOf(o)) == o
  {
    if Where(o) == InData {
      SetGot(Get(o, Data), Transactions);
      SetGot(o, Data);
    } else {
      SetGot(o, Transactions);
    }
  }

  lemma {:induction false} ReplaceTwice(o: Json, first: seq<Json>, second: seq<Json>)
    requires o.Obj? && Where(o) != Nowhere
    ensures Where(Replace(o, first)) != Nowhere
    ensures Replace(Replace(o, first), second) == Replace(o, second)
  {
    ReplaceReads(o, first);
    var data := Get(o, Data);
    if Where(o) == InData {
      var d := Set(data, Transactions, Arr(first));
      GetSet(o, Data, d, Data);
      SetSet(data, Transactions, Arr(first), Arr(second));
      SetSet(o, Data, d, Set(d, Transactions, Arr(second)));
    } else {
      SetSet(o, Transactions, Arr(first), Arr(second));
    }
    hide Set;
  }

  lemma {:induction false} TidyReplace(o: Json, items: seq<Json>)
    requires Tidy(o) && Get(o, Transactions).Arr?
    requires |items| == |Get(o, Transactions).items|
    ensures Tidy(Set(o, Transactions, Arr(items)))
  {
    var p := Set(o, Transactions, Arr(items));
    forall q ensures Get(p, q) == if q == Transactions then Arr(items) else Get(o, q) {
      GetSet(o, Transactions, Arr(items), q);
    }
    hide Set, Dicts, HasList, Get;
    ListKept(o, p);
    assert Get(p, Successes) == Get(o, Successes) && Get(p, Members) == Get(o, Members);
  }

  lemma {:induction false} ListKept(o: Json, p: Json)
    requires Get(o, Transactions).Arr? && Get(p, Transactions).Arr?
    requires |Get(o, Transactions).items| == |Get(p, Transactions).items|
    requires forall q :: q != Transactions ==> Get(o, q) == Get(p, q)
    ensures HasList(o) ==> HasList(p)
  {
    if HasList(o) {
      var k :| k in CANONICAL && Get(o, k).Arr? && Get(o, k).items != [];
      assert Get(p, k).Arr? && Get(p, k).items != [];
    }
  }

  lemma {:induction false} CanonicalReplace(o: Json, items: seq<Json>)
    requires Canonical(o) && Where(o) != Nowhere && |items| == |ItemsOf(o)|
    ensures Canonical(Replace(o, items))
  {
    if Where(o) == InData {
      var d := Set(Get(o, Data), Transactions, Arr(items));
      TidyReplace(Get(o, Data), items);
      forall q ensures Get(Set(o, Data, d), q) == if q == Data then d else Get(o, q) {
        GetSet(o, Data, d, q);
      }
      hide Tidy, Set;
      TidyFrame(o, Set(o, Data, d));
    } else {
      TidyReplace(o, items);
      GetSet(o, Transactions, Arr(items), Data);
      hide Tidy, Set;
    }
  }

  // --------------------------------------------------------------------- the stages

  /** One more member through `_normalize_nested_transaction_member`. */
  function NormalizeAll(items: seq<Json>): (r: Option<seq<Json>>)
    ensures r.Some? ==> |r.value| == |items|
  {
    if |items| == 0 then Some([])
    else
      var last := items[|items| - 1];
      var before := NormalizeAll(items[..|items| - 1]);
      var member := if last.Obj? then NormalizeMember(last) else Some(last);
      if before.None? || member.None? then None else Some(before.value + [member.value])
  }

  predicate Distinct(ids: seq<string>) {
    forall i, j :: 0 <= i < j < |ids| ==> ids[i] != ids[j]
  }

  /** The array matches the request member by member, as far as accounts are given. */
  predicate Correlates(items: seq<Json>, requested: seq<string>) {
    && requested != [] && Distinct(requested) && |items| == |requested|
    && (forall i :: 0 <= i < |items| ==> items[i].Obj?)
    && (forall i :: 0 <= i < |items| ==> AccountId(items[i]) == "" || AccountId(items[i]) == requested[i])
  }

  function CorrelateMember(m: Json, account: string): Json
    requires m.Obj?
  {
    if AccountId(m) == "" then Set(m, AccountIdKey, Str(account)) else m
  }

  /** `_positionally_correlate_transaction_members`. */
  function Correlate(items: seq<Json>, requested: seq<string>): (r: seq<Json>)
    ensures |r| == |items|
  {
    if !Correlates(items, requested) then items
    else seq(|items|, i requires 0 <= i < |items| => CorrelateMember(items[i], requested[i]))
  }

  /** `_mark_unresolved_transaction_members`. */
  function MarkAll(items: seq<Json>): (r: seq<Json>)
    ensures |r| == |items|
  {
    seq(|items|, i requires 0 <= i < |items| => MarkMember(items[i]))
  }

  /** `_requested_accounts`, for the entries of the request's account list. */
  function Requested(entries: seq<Json>): (r: seq<string>)
    ensures forall a :: a in r ==> a != "" && Strip(a) == a
  {
    if |entries| == 0 then []
    else
      var text := if entries[0].Obj? then Text(Get(entries[0], AccountIdKey)) else "";
      TextIsStripped(entries[0]);
      (if text != "" then [text] else []) + Requested(entries[1..])
  }

  lemma {:induction false} TextIsStripped(entry: Json)
    ensures Strip(Text(Get(entry, AccountIdKey))) == Text(Get(entry, AccountIdKey))
  {
    StripIsStable(Show(Get(entry, AccountIdKey)));
  }

  /** The three member stages. */
  function Treat(items: seq<Json>, requested: seq<string>): (r: Option<seq<Json>>)
    ensures r.Some? ==> |r.value| == |items|
  {
    var normal := NormalizeAll(items);
    if normal.None? then None else Some(MarkAll(Correlate(normal.value, requested)))
  }

  /** The reconciler up to the call of the original normalizer. */
  function Reconcile(response: Json, requested: seq<string>): Option<Json> {
    if !response.Obj? then Some(response)
    else
      var canonical := Canonicalize(response);
      if Where(canonical) == Nowhere then Some(canonical)
      else
        var items := Treat(ItemsOf(canonical), requested);
        if items.None? then None else Some(Replace(canonical, items.value))
  }

  // ------------------------------------------------------------------ each position

  /** The accounts of a request: no blanks. */
  predicate Accounts(requested: seq<string>) {
    forall i :: 0 <= i < |requested| ==> requested[i] != "" && Strip(requested[i]) == requested[i]
  }

  lemma {:induction false} RequestedAreAccounts(entries: seq<Json>)
    ensures Accounts(Requested(entries))
  {
    var r := Requested(entries);
    forall i | 0 <= i < |r| ensures r[i] != "" && Strip(r[i]) == r[i] {
      assert r[i] in r;
    }
  }

  /** Either nothing is assigned, or every member ends up with the account requested at
      its own place; a member that has an account is never touched. */
  lemma {:induction false} PositionalIsRequested(items: seq<Json>, requested: seq<string>)
    requires Accounts(requested)
    ensures Correlate(items, requested) != items ==>
              Correlates(items, requested)
              && forall i :: 0 <= i < |items| ==> AccountId(Correlate(items, requested)[i]) == requested[i]
    ensures forall i :: 0 <= i < |items| && AccountId(items[i]) != "" ==> Correlate(items, requested)[i] == items[i]
  {
    if Correlates(items, requested) {
      forall i | 0 <= i < |items| ensures AccountId(CorrelateMember(items[i], requested[i])) == requested[i] {
        if AccountId(items[i]) == "" {
          AccountSet(items[i], requested[i]);
        }
      }
      hide AccountId, Set;
    }
  }

  /** A member without an account is given one exactly when the request names as many accounts
      as there are members, none twice, every member is an object, and those that state an
      account state the one at their place. */
  lemma {:induction false} AssignedExactly(items: seq<Json>, requested: seq<string>, i: nat)
    requires Accounts(requested) && i < |items| && items[i].Obj? && AccountId(items[i]) == ""
    ensures AccountId(Correlate(items, requested)[i]) != "" <==>
      && |requested| == |items|
      && (forall j, k :: 0 <= j < |requested| && 0 <= k < |requested| && requested[j] == requested[k] ==> j == k)
      && (forall j :: 0 <= j < |items| ==> items[j].Obj? && AccountId(items[j]) in {"", requested[j]})
  {
    if Correlates(items, requested) {
      AccountSet(items[i], requested[i]);
      assert forall j, k :: 0 <= j < |requested| && 0 <= k < |requested| && requested[j] == requested[k] ==> j == k;
    } else if |requested| == |items| && !Distinct(requested) {
      var j, k :| 0 <= j < k < |requested| && requested[j] == requested[k];
      assert j != k;
    }
    hide AccountId, Set, Strip;
  }

  lemma {:induction false} RequestedConcat(a: seq<Json>, b: seq<Json>)
    ensures Requested(a + b) == Requested(a) + Requested(b)
    decreases |a|
  {
    if |a| == 0 {
      assert a + b == b;
    } else {
      assert (a + b)[1..] == a[1..] + b;
      RequestedConcat(a[1..], b);
      hide Text, Get;
    }
  }

  /** The accounts of a request are the stripped `account_id` texts of its object entries, in
      their order; an entry without one takes no place. */
  lemma {:induction false} RequestedInPlace(entries: seq<Json>, i: nat)
    requires i < |entries|
    ensures var text := Text(Get(entries[i], AccountIdKey));
            Requested(entries)
            == Requested(entries[..i]) + (if entries[i].Obj? && text != "" then [text] else []) + Requested(entries[i + 1..])
    ensures Requested([]) == []
  {
    RequestedOne(entries[i]);
    hide Text, Get, Requested;
    RequestedConcat(entries[..i], [entries[i]]);
    RequestedConcat(entries[..i] + [entries[i]], entries[i + 1..]);
    assert entries == entries[..i] + [entries[i]] + entries[i + 1..];
  }

  lemma {:induction false} RequestedOne(entry: Json)
    ensures Requested([]) == []
    ensures Requested([entry])
         == if entry.Obj? && Text(Get(entry, AccountIdKey)) != "" then [Text(Get(entry, AccountIdKey))] else []
  {
    assert [entry][1..] == [];
    hide Text, Get;
  }

  /** The list under `data` takes precedence over the one at the top. */
  lemma ItemsExactly(o: Json)
    ensures var inner := Get(Get(o, Data), Transactions);
            && (Where(o) == Nowhere <==> !inner.Arr? && !Get(o, Transactions).Arr?)
            && (Where(o) != Nowhere ==> ItemsOf(o) == if inner.Arr? then inner.items else Get(o, Transactions).items)
  {
  }

  lemma {:induction false} NormalizeAllAt(items: seq<Json>, i: nat)
    requires i < |items| && NormalizeAll(items).Some?
    ensures items[i].Obj? ==> NormalizeMember(items[i]) == Some(NormalizeAll(items).value[i])
    ensures !items[i].Obj? ==> NormalizeAll(items).value[i] == items[i]
  {
    if i < |items| - 1 {
      NormalizeAllAt(items[..|items| - 1], i);
    }
    hide NormalizeMember;
  }

  lemma {:induction false} NormalizeAllFixed(items: seq<Json>)
    requires forall i :: 0 <= i < |items| && items[i].Obj? ==> NormalizeMember(items[i]) == Some(items[i])
    ensures NormalizeAll(items) == Some(items)
  {
    hide NormalizeMember;
    if |items| > 0 {
      var n := |items| - 1;
      NormalizeAllFixed(items[..n]);
      assert items == items[..n] + [items[n]];
    }
  }

  predicate SomeRaises(items: seq<Json>) {
    exists i :: 0 <= i < |items| && MemberRaises(items[i])
  }

  lemma {:induction false} NormalizeAllRaises(items: seq<Json>)
    ensures NormalizeAll(items).None? <==> SomeRaises(items)
  {
    hide NormalizeMember, MemberRaises;
    if |items| > 0 {
      var n := |items| - 1;
      NormalizeAllRaises(items[..n]);
      assert forall i :: 0 <= i < n ==> items[..n][i] == items[i];
      if items[n].Obj? {
        MemberRaisesExactly(items[n]);
      } else {
        OnlyObjectsRaise(items[n]);
      }
      if SomeRaises(items[..n]) {
        var i :| 0 <= i < n && MemberRaises(items[..n][i]);
        assert MemberRaises(items[i]);
      }
    }
  }

  lemma {:induction false} OnlyObjectsRaise(m: Json)
    requires !m.Obj?
    ensures !MemberRaises(m)
  {
  }

  /** The reply has a list of transactions with a member whose search meets a list or an
      object first. */
  predicate ReplyRaises(response: Json) {
    response.Obj? && Where(Canonicalize(response)) != Nowhere && SomeRaises(ItemsOf(Canonicalize(response)))
  }

  /** The reconciler raises TypeError exactly on these replies, whatever was requested. */
  lemma {:induction false} RaisesExactly(response: Json, requested: seq<string>)
    ensures Reconcile(response, requested).None? <==> ReplyRaises(response)
  {
    hide Canonicalize, Where, ItemsOf, Replace, NormalizeAll, SomeRaises, MarkAll, Correlate;
    if response.Obj? && Where(Canonicalize(response)) != Nowhere {
      NormalizeAllRaises(ItemsOf(Canonicalize(response)));
    }
  }

  /** A reply with one member whose `contract_id` is an empty list. */
  function ListUnderId(): Json {
    Obj([Field(Transactions, Arr([Obj([Field(ContractIdKey, Arr([]))])]))])
  }

  lemma {:induction false} ListUnderIdFields()
    ensures var m := Obj([Field(ContractIdKey, Arr([]))]);
            && ListUnderId().Obj? && Get(ListUnderId(), Transactions) == Arr([m]) && Get(ListUnderId(), Data) == Null
            && Get(m, ContractIdKey) == Arr([])
  {
    assert Find([], Data) == Null;
  }

  lemma {:induction false} TopListRaises(o: Json, m: Json)
    requires o.Obj? && Get(o, Transactions) == Arr([m]) && Get(o, Data) == Null && MemberRaises(m)
    ensures ReplyRaises(o)
  {
    hide Get, Container, MemberRaises;
    assert Transactions in CANONICAL;
    ListsAreKept(o, Transactions);
    ContainerTidies(o);
    hide Tidy;
    var c := Container(o);
    assert Canonicalize(o) == c && Where(c) == AtTop;
    assert ItemsOf(c) == [m] && MemberRaises(ItemsOf(c)[0]);
  }

  /** Such a member is neither a purchase nor an error, and is not made one: the whole
      reconciliation raises. */
  lemma {:induction false} ListUnderIdRaises(requested: seq<string>)
    ensures ReplyRaises(ListUnderId()) && Reconcile(ListUnderId(), requested).None?
  {
    hide Get, ListUnderId, MemberRaises, ReplyRaises, Reconcile;
    var m := Obj([Field(ContractIdKey, Arr([]))]);
    ListUnderIdFields();
    EmptyListRaises(m);
    TopListRaises(ListUnderId(), m);
    RaisesExactly(ListUnderId(), requested);
  }

  /** After reconciliation every object in the list of transactions carries a contract
      id, an error, or its own code and message, and nothing is added or dropped. */
  lemma {:induction false} EveryMemberResolved(response: Json, requested: seq<string>)
    requires response.Obj? && Where(Canonicalize(response)) != Nowhere && !ReplyRaises(response)
    ensures Reconcile(response, requested).Some?
    ensures var y := Reconcile(response, requested).value;
            y.Obj? && Where(y) == Where(Canonicalize(response))
            && |ItemsOf(y)| == |ItemsOf(Canonicalize(response))|
            && forall i :: 0 <= i < |ItemsOf(y)| && ItemsOf(y)[i].Obj? ==> Resolved(ItemsOf(y)[i])
  {
    RaisesExactly(response, requested);
    hide ReplyRaises;
    var c := Canonicalize(response);
    var items := Treat(ItemsOf(c), requested).value;
    ReplaceReads(c, items);
    var before := Correlate(NormalizeAll(ItemsOf(c)).value, requested);
    forall i | 0 <= i < |before| && MarkMember(before[i]).Obj? ensures Resolved(MarkMember(before[i])) {
      MarkedIsResolved(before[i]);
    }
    hide Correlate, NormalizeAll, MarkMember, Resolved, Canonicalize, Where, ItemsOf, Replace;
  }

  /** An account field within five wrappers of the member says so. */
  predicate StatedIn(m: Json, account: string) {
    exists d, k :: d in Walk(m, 0) && k in ACCOUNT_IDS && account == Strip(Show(Get(d, k)))
  }

  /** Where a member's account comes from: its own, its place in the request, or an
      explicit account field within five wrappers. */
  lemma {:induction false} AccountProvenance(items: seq<Json>, requested: seq<string>, i: nat)
    requires Accounts(requested) && i < |items| && items[i].Obj? && Treat(items, requested).Some?
    ensures var was, now := AccountId(items[i]), AccountId(Treat(items, requested).value[i]);
            if was != "" then now == was
            else
              now == "" || (|requested| == |items| && now == requested[i])
              || StatedIn(items[i], now)
  {
    var normal := NormalizeAll(items).value;
    NormalizeAllAt(items, i);
    PositionalIsRequested(normal, requested);
    var placed := Correlate(normal, requested);
    MarkKeepsAccount(placed[i]);
    if AccountId(items[i]) != "" {
      KeptByNormalize(items[i]);
    } else {
      FoundByNormalize(items[i]);
    }
    hide AccountId, NormalizeMember, StatedIn, NormalizeAll, MarkMember;
  }

  /** A contract-id field within five wrappers of the member holds the value. */
  predicate ContractIn(m: Json, v: Json) {
    exists d, k :: d in Walk(m, 0) && k in CONTRACT_IDS && Get(d, k) == v
  }

  /** A dictionary within five wrappers of the member states the error. */
  predicate ErrorIn(m: Json, e: Json) {
    exists d :: d in Walk(m, 0) && StatedError(d) == Some(e)
  }

  lemma {:induction false} IdStepKeepsError(m: Json, k: Key, keys: seq<Key>)
    requires m.Obj? && IdStep(m, k, keys).Some?
    requires k !in WRAPPERS && k != Error && k != Code && k != Message && k != Status
    ensures NestedError(Walk(IdStep(m, k, keys).value, 0)) == NestedError(Walk(m, 0))
  {
    hide NestedError, Walk, Set, Get, First;
    if !Truthy(Get(m, k)) && First(Walk(m, 0), keys).Found? {
      NestedErrorFrame(m, k, First(Walk(m, 0), keys).value);
    }
  }

  lemma {:induction false} AccountStepKeepsError(m: Json)
    requires m.Obj? && AccountStep(m).Some?
    ensures NestedError(Walk(AccountStep(m).value, 0)) == NestedError(Walk(m, 0))
  {
    hide NestedError, Walk, Set, Get, First, AccountId, Strip, Show;
    if AccountId(m) == "" && First(Walk(m, 0), ACCOUNT_IDS).Found? {
      NestedErrorFrame(m, AccountIdKey, Str(Strip(Show(First(Walk(m, 0), ACCOUNT_IDS).value))));
    }
  }

  lemma {:induction false} NormalizedError(m: Json)
    requires m.Obj? && NormalizeMember(m).Some?
    ensures var e := Get(NormalizeMember(m).value, Error);
            e == Get(m, Error) || ErrorIn(m, e)
  {
    hide AccountStep, IdStep, NestedError, Walk, Get, Set, ErrorIn;
    var a := AccountStep(m).value;
    var c := IdStep(a, ContractIdKey, CONTRACT_IDS).value;
    var t := IdStep(c, TransactionIdKey, TRANSACTION_IDS).value;
    AccountStepFrame(m, Error);
    IdStepFrame(a, ContractIdKey, CONTRACT_IDS, Error);
    IdStepFrame(c, TransactionIdKey, TRANSACTION_IDS, Error);
    AccountStepKeepsError(m);
    IdStepKeepsError(a, ContractIdKey, CONTRACT_IDS);
    IdStepKeepsError(c, TransactionIdKey, TRANSACTION_IDS);
    if NestedError(Walk(m, 0)).Some? {
      GetSet(t, Error, NestedError(Walk(t, 0)).value, Error);
      NestedErrorStated(m);
    }
  }

  lemma {:induction false} NestedErrorStated(m: Json)
    requires NestedError(Walk(m, 0)).Some?
    ensures ErrorIn(m, NestedError(Walk(m, 0)).value)
  {
    hide StatedError, Walk;
    ErrorIsStated(Walk(m, 0));
  }

  lemma {:induction false} NormalizedContract(m: Json)
    requires m.Obj? && NormalizeMember(m).Some?
    ensures var v := Get(NormalizeMember(m).value, ContractIdKey);
            v == Get(m, ContractIdKey) || ContractIn(m, v)
  {
    hide NormalizeMember, First, Walk, Get;
    if Get(NormalizeMember(m).value, ContractIdKey) != Get(m, ContractIdKey) {
      ContractFromSearch(m);
      FoundIsExplicit(Walk(m, 0), CONTRACT_IDS);
    }
  }

  lemma {:induction false} CorrelateKeepsField(m: Json, account: string, k: Key)
    requires m.Obj? && k != AccountIdKey
    ensures Get(CorrelateMember(m, account), k) == Get(m, k)
  {
    GetSet(m, AccountIdKey, Str(account), k);
    hide Get, Set, AccountId;
  }

  /** Where a treated member's contract id and error come from: its own, stated within
      five wrappers, or, for an error only, the mark of an unresolved member. */
  lemma {:induction false} TreatedProvenance(items: seq<Json>, requested: seq<string>, i: nat)
    requires i < |items| && items[i].Obj? && Treat(items, requested).Some?
    ensures var v := Get(Treat(items, requested).value[i], ContractIdKey);
            v == Get(items[i], ContractIdKey) || ContractIn(items[i], v)
    ensures var e := Get(Treat(items, requested).value[i], Error);
            e == Get(items[i], Error) || e == UNRESOLVED || ErrorIn(items[i], e)
  {
    hide NormalizeMember, NormalizeAll, ContractIn, ErrorIn, Get, CorrelateMember, Resolved, Set, AccountId;
    var normal := NormalizeAll(items).value;
    NormalizeAllAt(items, i);
    NormalizedIsObject(items[i]);
    NormalizedContract(items[i]);
    NormalizedError(items[i]);
    var placed := Correlate(normal, requested);
    if Correlates(normal, requested) {
      CorrelateKeepsField(normal[i], requested[i], ContractIdKey);
      CorrelateKeepsField(normal[i], requested[i], Error);
    }
    MarkKeepsField(placed[i], ContractIdKey);
    if placed[i].Obj? && !Resolved(placed[i]) {
      GetSet(placed[i], Error, UNRESOLVED, Error);
    }
  }

  /** The account, contract id and error of a member stood in the reply, in the request
      at the member's place, or mark the member as unresolved. */
  predicate FromReply(was: Json, now: Json, requested: seq<string>, i: nat) {
    && (Get(now, ContractIdKey) == Get(was, ContractIdKey) || ContractIn(was, Get(now, ContractIdKey)))
    && (Get(now, Error) == Get(was, Error) || Get(now, Error) == UNRESOLVED || ErrorIn(was, Get(now, Error)))
    && (AccountId(now) == AccountId(was) || AccountId(now) == ""
        || (i < |requested| && AccountId(now) == requested[i]) || StatedIn(was, AccountId(now)))
  }

  lemma {:induction false} TreatedFromReply(items: seq<Json>, requested: seq<string>, i: nat)
    requires Accounts(requested) && i < |items| && items[i].Obj? && Treat(items, requested).Some?
    ensures FromReply(items[i], Treat(items, requested).value[i], requested, i)
  {
    hide Treat, ContractIn, ErrorIn, StatedIn, AccountId, Get;
    TreatedProvenance(items, requested, i);
    AccountProvenance(items, requested, i);
  }

  /** The whole reconciler invents nothing for any object member. */
  lemma {:induction false} ReplyProvenance(response: Json, requested: seq<string>, i: nat)
    requires Accounts(requested) && response.Obj? && Where(Canonicalize(response)) != Nowhere
    requires !ReplyRaises(response)
    requires i < |ItemsOf(Canonicalize(response))| && ItemsOf(Canonicalize(response))[i].Obj?
    ensures Reconcile(response, requested).Some?
    ensures var y := Reconcile(response, requested).value;
            Where(y) != Nowhere && |ItemsOf(y)| == |ItemsOf(Canonicalize(response))|
    ensures FromReply(ItemsOf(Canonicalize(response))[i], ItemsOf(Reconcile(response, requested).value)[i], requested, i)
  {
    hide Canonicalize, Treat, Where, ItemsOf, Replace, FromReply, ReplyRaises;
    RaisesExactly(response, requested);
    var c := Canonicalize(response);
    ReplaceReads(c, Treat(ItemsOf(c), requested).value);
    TreatedFromReply(ItemsOf(c), requested, i);
  }

  lemma {:induction false} KeptByNormalize(m: Json)
    requires m.Obj? && AccountId(m) != "" && NormalizeMember(m).Some?
    ensures AccountId(NormalizeMember(m).value) == AccountId(m)
  {
    AccountNeverReplaced(m);
    MarkKeepsAccount(NormalizeMember(m).value);
  }

  lemma {:induction false} FoundByNormalize(m: Json)
    requires m.Obj? && AccountId(m) == "" && NormalizeMember(m).Some?
    ensures var now := AccountId(NormalizeMember(m).value);
            now == "" || StatedIn(m, now)
  {
    hide AccountId, IdStep, ErrorStep, AccountStep, StatedIn, Walk;
    var a := AccountStep(m).value;
    var c := IdStep(a, ContractIdKey, CONTRACT_IDS).value;
    var t := IdStep(c, TransactionIdKey, TRANSACTION_IDS).value;
    IdStepKeepsAccount(a, ContractIdKey, CONTRACT_IDS);
    IdStepKeepsAccount(c, TransactionIdKey, TRANSACTION_IDS);
    ErrorStepKeepsAccount(t);
    FoundByAccountStep(m);
  }

  lemma {:induction false} FoundByAccountStep(m: Json)
    requires m.Obj? && AccountId(m) == "" && AccountStep(m).Some?
    ensures var now := AccountId(AccountStep(m).value);
            now == "" || StatedIn(m, now)
  {
    if First(Walk(m, 0), ACCOUNT_IDS).Found? {
      var v := First(Walk(m, 0), ACCOUNT_IDS).value;
      FoundIsExplicit(Walk(m, 0), ACCOUNT_IDS);
      StripIsStable(Show(v));
      if Strip(Show(v)) != "" {
        AccountSet(m, Strip(Show(v)));
        var d, k :| d in Walk(m, 0) && k in ACCOUNT_IDS && Get(d, k) == v;
        assert AccountId(AccountStep(m).value) == Strip(Show(Get(d, k)));
      } else {
        EmptyAccount(m);
      }
    }
  }

  /** Writing an empty account over a field that gave none gives none. */
  lemma {:induction false} EmptyAccount(m: Json)
    requires m.Obj? && AccountId(m) == ""
    ensures AccountId(Set(m, AccountIdKey, Str(""))) == ""
  {
    hide Set, Get, NestedAccount, Strip;
    var p := Set(m, AccountIdKey, Str(""));
    GetSet(m, AccountIdKey, Str(""), AccountIdKey);
    forall q | q in ACCOUNT_WRAPPERS || q in ACCOUNT_IDS[1..] ensures Get(p, q) == Get(m, q) {
      GetSet(m, AccountIdKey, Str(""), q);
    }
    NestedAccountFrame(m, p, ACCOUNT_WRAPPERS);
    FirstTextFrame(m, p, ACCOUNT_IDS[1..]);
    assert FirstText(m, ACCOUNT_IDS) == "";
    hide FirstText;
    FirstTextSkips(m, ACCOUNT_IDS);
    FirstTextOfEmpty(p, ACCOUNT_IDS);
  }

  lemma {:induction false} FirstTextSkips(o: Json, keys: seq<Key>)
    requires |keys| > 0 && FirstText(o, keys) == ""
    ensures FirstText(o, keys[1..]) == ""
  {
  }

  lemma {:induction false} FirstTextOfEmpty(o: Json, keys: seq<Key>)
    requires |keys| > 0 && Get(o, keys[0]) == Str("") && FirstText(o, keys[1..]) == ""
    ensures FirstText(o, keys) == ""
  {
  }

  /** Turning an account-keyed entry into a member keeps the account it states exactly
      when its key is blank, it has an `account_id` field, or both name the same. */
  lemma {:induction false} MappingKeepsAccountExactly(key: Key, value: Json, failure: bool)
    requires value.Obj? && AccountId(value) != ""
    ensures var account := Strip(KeyText(key));
            AccountId(AccountMember(key, value, failure).value) == AccountId(value)
            <==> account == "" || Has(value, AccountIdKey) || account == AccountId(value)
  {
    var account := Strip(KeyText(key));
    StripIsStable(KeyText(key));
    hide AccountId, Strip, KeyText, Set, Has;
    if account != "" && !Has(value, AccountIdKey) {
      AccountSet(value, account);
    }
  }

  /** An object without an `account_id` field gets its key as one, any other keeps its own, and
      every other field stays. */
  lemma {:induction false} EntryExactly(key: Key, value: Json, failure: bool, q: Key)
    requires value.Obj?
    ensures AccountMember(key, value, failure).Some?
    ensures var account := Strip(KeyText(key));
            Get(AccountMember(key, value, failure).value, q)
            == if q == AccountIdKey && account != "" && !Has(value, AccountIdKey) then Str(account) else Get(value, q)
  {
    GetSet(value, AccountIdKey, Str(Strip(KeyText(key))), q);
    hide Strip, KeyText, Set, Has, Get, Truthy, Show;
  }

  /** Anything else becomes a member of a failure container only: its text as the message,
      under its key. */
  lemma {:induction false} FailureExactly(key: Key, value: Json, failure: bool, q: Key)
    requires !value.Obj?
    ensures AccountMember(key, value, failure).Some? <==> failure
    ensures var account := Strip(KeyText(key));
            failure ==>
              Get(AccountMember(key, value, failure).value, q)
              == if q == AccountIdKey && account != "" then Str(account)
                 else if q == Message then Str(if Truthy(value) then Show(value) else "Deriv rejected this account")
                 else Null
  {
    var text := Str(if Truthy(value) then Show(value) else "Deriv rejected this account");
    hide Strip, KeyText, Set, Show, Truthy;
    OneField(text, q);
    OneField(text, AccountIdKey);
    GetSet(Obj([Field(Message, text)]), AccountIdKey, Str(Strip(KeyText(key))), q);
    hide Get, Has;
  }

  lemma {:induction false} OneField(text: Json, q: Key)
    ensures Get(Obj([Field(Message, text)]), q) == if q == Message then text else Null
    ensures Has(Obj([Field(Message, text)]), q) <==> q == Message
  {
    assert [Field(Message, text)][1..] == [];
    assert Find([], q) == Null;
  }

  /** An entry that names no account anywhere belongs to its key. */
  lemma {:induction false} UnnamedEntryTakesKey(key: Key, value: Json, failure: bool)
    requires value.Obj? && !Has(value, AccountIdKey) && AccountId(value) == "" && Strip(KeyText(key)) != ""
    ensures AccountId(AccountMember(key, value, failure).value) == Strip(KeyText(key))
  {
    StripIsStable(KeyText(key));
    AccountSet(value, Strip(KeyText(key)));
    hide AccountId, Strip, KeyText, Set, Has;
  }

  /** The member of an entry stands behind those of the entries before it. */
  lemma {:induction false} EntryInPlace(fields: seq<Field>, failure: bool, i: nat)
    requires i < |fields| && AccountMember(fields[i].key, fields[i].value, failure).Some?
    ensures var place := |MappingToMembers(fields[..i], failure)|;
            && place < |MappingToMembers(fields, failure)|
            && MappingToMembers(fields, failure)[place] == AccountMember(fields[i].key, fields[i].value, failure).value
    decreases |fields|
  {
    var pre := fields[..|fields| - 1];
    hide AccountMember;
    if i < |pre| {
      assert pre[..i] == fields[..i];
      EntryInPlace(pre, failure, i);
    } else {
      assert fields[..i] == pre;
    }
  }

  lemma {:induction false} LoginidOnly(x: string)
    requires x != "" && Strip(x) == x
    ensures var value := Obj([Field(Loginid, Str(x))]);
            AccountId(value) == x && !Has(value, AccountIdKey)
  {
    var value := Obj([Field(Loginid, Str(x))]);
    assert Find(value.fields[1..], AccountIdKey) == Null;
    assert Get(value, AccountIdKey) == Null && Get(value, Loginid) == Str(x);
    hide Get, NestedAccount, Strip;
    LoginidText(value, x);
  }

  lemma {:induction false} LoginidText(value: Json, x: string)
    requires x != "" && Strip(x) == x && Get(value, AccountIdKey) == Null && Get(value, Loginid) == Str(x)
    ensures FirstText(value, ACCOUNT_IDS) == x
  {
    hide Get, Strip;
    assert FirstText(value, ACCOUNT_IDS[1..]) == x;
  }

  /** An entry keyed by one account that states another under `loginid` becomes a member
      of the key's account. */
  lemma {:induction false} MappingReplacesAccount(key: string, stated: string)
    requires key != stated && key != "" && stated != "" && Strip(key) == key && Strip(stated) == stated
    ensures var value := Obj([Field(Loginid, Str(stated))]);
            AccountId(value) == stated && AccountId(AccountMember(Other(key), value, false).value) == key
  {
    hide AccountId, Strip, Set, Has;
    var value := Obj([Field(Loginid, Str(stated))]);
    LoginidOnly(stated);
    AccountSet(value, key);
  }

  // ------------------------------------------------------------------- second passes

  predicate AllPassed(items: seq<Json>) {
    forall i :: 0 <= i < |items| && items[i].Obj? ==> Passed(items[i])
  }

  predicate AllSettled(items: seq<Json>) {
    forall i :: 0 <= i < |items| && items[i].Obj? ==> AccountSettled(items[i])
  }

  lemma {:induction false} PlacedHasPassed(m: Json, account: string)
    requires Passed(m) && account != "" && Strip(account) == account
    ensures Passed(CorrelateMember(m, account))
  {
    hide AccountWritten, IdSettled, ErrorSettled, Set, AccountId;
    if AccountId(m) == "" {
      IdSettledFrame(m, AccountIdKey, Str(account), ContractIdKey, CONTRACT_IDS);
      IdSettledFrame(m, AccountIdKey, Str(account), TransactionIdKey, TRANSACTION_IDS);
      ErrorSettledFrame(m, AccountIdKey, Str(account));
      AccountSet(m, account);
      AccountIsWritten(Set(m, AccountIdKey, Str(account)));
    }
  }

  lemma {:induction false} AccountIsWritten(m: Json)
    requires AccountId(m) != ""
    ensures AccountWritten(m) && AccountSettled(m)
  {
  }

  lemma {:induction false} MarkedHasPassed(m: Json)
    requires m.Obj? ==> Passed(m)
    ensures MarkMember(m).Obj? ==> Passed(MarkMember(m))
    ensures m.Obj? ==> AccountSettled(MarkMember(m)) == AccountSettled(m)
  {
    hide AccountWritten, IdSettled, AccountSettled, Set, Resolved, Get, NestedError, Walk;
    if m.Obj? && !Resolved(m) {
      ErrorKeeps(m, UNRESOLVED);
      GetSet(m, Error, UNRESOLVED, Error);
      AccountWrittenFrame(m, Error, UNRESOLVED);
    }
  }

  /** What the member stages leave has passed once. */
  lemma {:induction false} TreatedHasPassed(items: seq<Json>, requested: seq<string>)
    requires Accounts(requested) && Treat(items, requested).Some?
    ensures AllPassed(Treat(items, requested).value)
  {
    hide Passed, NormalizeMember, CorrelateMember, MarkMember, NormalizeAll;
    var normal := NormalizeAll(items).value;
    var placed := Correlate(normal, requested);
    var done := MarkAll(placed);
    forall i | 0 <= i < |items| ensures done[i].Obj? ==> Passed(done[i]) {
      NormalizeAllAt(items, i);
      if items[i].Obj? {
        NormalizedHasPassed(items[i]);
        NormalizedIsObject(items[i]);
        if Correlates(normal, requested) {
          PlacedHasPassed(normal[i], requested[i]);
        }
        MarkedHasPassed(placed[i]);
      } else {
        NonObjectsStay(items[i], placed, i);
      }
    }
  }

  lemma {:induction false} NormalizedIsObject(m: Json)
    requires m.Obj? && NormalizeMember(m).Some?
    ensures NormalizeMember(m).value.Obj?
  {
  }

  lemma {:induction false} NonObjectsStay(m: Json, placed: seq<Json>, i: nat)
    requires i < |placed| && !m.Obj? && placed[i] == m
    ensures MarkMember(placed[i]) == m
  {
  }

  /** Correlating and marking again changes nothing. */
  lemma {:induction false} CorrelateAgain(normal: seq<Json>, requested: seq<string>)
    requires Accounts(requested)
    ensures var done := MarkAll(Correlate(normal, requested));
            Correlate(done, requested) == done && MarkAll(done) == done
  {
    var placed := Correlate(normal, requested);
    var done := MarkAll(placed);
    forall i | 0 <= i < |done|
      ensures AccountId(done[i]) == AccountId(placed[i]) && done[i].Obj? == placed[i].Obj?
      ensures MarkMember(done[i]) == done[i]
    {
      MarkKeepsAccount(placed[i]);
      if placed[i].Obj? {
        MarkedIsResolved(placed[i]);
      }
    }
    PositionalIsRequested(normal, requested);
    hide MarkMember, AccountId;
    if Correlates(done, requested) {
      SameAccountsCorrelate(done, placed, requested);
      if Correlates(normal, requested) {
        PlacedEverywhere(normal, requested);
      } else {
        assert false;
      }
    }
  }

  lemma {:induction false} SameAccountsCorrelate(a: seq<Json>, b: seq<Json>, requested: seq<string>)
    requires |a| == |b| && forall i :: 0 <= i < |a| ==> AccountId(a[i]) == AccountId(b[i]) && a[i].Obj? == b[i].Obj?
    ensures Correlates(a, requested) ==> Correlates(b, requested)
  {
    hide AccountId;
  }

  lemma {:induction false} PlacedEverywhere(normal: seq<Json>, requested: seq<string>)
    requires Accounts(requested) && Correlates(normal, requested)
    ensures forall i :: 0 <= i < |normal| ==> AccountId(Correlate(normal, requested)[i]) == requested[i] != ""
  {
    forall i | 0 <= i < |normal| ensures AccountId(CorrelateMember(normal[i], requested[i])) == requested[i] {
      hide Set;
      if AccountId(normal[i]) == "" {
        AccountSet(normal[i], requested[i]);
      }
    }
    hide AccountId, CorrelateMember;
  }

  lemma {:induction false} UnsettledMoves(items: seq<Json>, requested: seq<string>, i: nat)
    requires AllPassed(items) && i < |items| && items[i].Obj? && !AccountSettled(items[i])
    requires Treat(items, requested).Some?
    ensures Treat(items, requested).value != items
  {
    hide NormalizeAll, AccountSettled, AccountId, Passed, Get;
    var normal := NormalizeAll(items).value;
    NormalizeAllAt(items, i);
    SecondPassExactly(items[i]);
    var placed := Correlate(normal, requested);
    assert placed[i] == normal[i];
    MarkKeepsField(normal[i], AccountIdKey);
  }

  lemma {:induction false} MarkKeepsField(m: Json, k: Key)
    requires k != Error
    ensures Get(MarkMember(m), k) == Get(m, k)
  {
    if m.Obj? {
      GetSet(m, Error, UNRESOLVED, k);
    }
    hide Get, Set;
  }

  /** Going over treated members once more is a no-op exactly when every account search
      is settled. */
  lemma {:induction false} TreatAgain(items: seq<Json>, requested: seq<string>)
    requires Accounts(requested) && Treat(items, requested).Some?
    ensures var done := Treat(items, requested).value;
            Treat(done, requested) == Some(done) <==> AllSettled(done)
  {
    var done := Treat(items, requested).value;
    TreatedHasPassed(items, requested);
    CorrelateAgain(NormalizeAll(items).value, requested);
    hide Correlate, MarkAll, NormalizeMember, Passed, AccountSettled;
    if AllSettled(done) {
      forall i | 0 <= i < |done| && done[i].Obj? ensures NormalizeMember(done[i]) == Some(done[i]) {
        SecondPassExactly(done[i]);
      }
      NormalizeAllFixed(done);
    } else if Treat(done, requested).Some? {
      var i :| 0 <= i < |done| && done[i].Obj? && !AccountSettled(done[i]);
      UnsettledMoves(done, requested, i);
    }
  }

  /** A second reconciliation changes nothing exactly when no account search of the
      result has anything left to find. */
  lemma {:induction false} IdempotentWhenSettled(response: Json, requested: seq<string>)
    requires Accounts(requested) && response.Obj? && !ReplyRaises(response)
    ensures Reconcile(response, requested).Some?
    ensures var y := Reconcile(response, requested).value;
            Reconcile(y, requested) == Some(y) <==> (y.Obj? && Where(y) != Nowhere ==> AllSettled(ItemsOf(y)))
  {
    hide Canonicalize, Canonical, Treat, AllSettled, Where, ItemsOf, Replace, ReplyRaises;
    RaisesExactly(response, requested);
    var c := Canonicalize(response);
    CanonicalizeIsCanonical(response);
    if Where(c) == Nowhere {
      CanonicalStays(c);
    } else {
      var done := Treat(ItemsOf(c), requested).value;
      var y := Replace(c, done);
      ReplaceReads(c, done);
      CanonicalReplace(c, done);
      CanonicalStays(y);
      TreatAgain(ItemsOf(c), requested);
      ReplaceSame(y);
      if Treat(done, requested).Some? {
        ReplaceReads(y, Treat(done, requested).value);
      }
    }
  }

  /** No account field within reach is blank without being empty. */
  predicate NoBlankAccounts(m: Json) {
    forall d, k :: d in Walk(m, 0) && k in ACCOUNT_IDS && Get(d, k).Str? ==>
      Get(d, k).s == "" || Strip(Get(d, k).s) != ""
  }

  lemma {:induction false} ShownIsNotBlank(v: Json)
    requires !v.Str?
    ensures Strip(Show(v)) != ""
  {
    StripKeepsInk(Show(v), 0);
  }

  lemma {:induction false} StripKeepsInk(s: string, i: nat)
    requires i < |s| && !Blank(s[i])
    ensures Strip(s) != ""
    decreases |s|
  {
    if Blank(s[0]) {
      StripKeepsInk(s[1..], i - 1);
    } else if Blank(s[|s| - 1]) {
      StripKeepsInk(s[..|s| - 1], i);
    }
  }

  lemma {:induction false} NoBlanksSettle(m: Json)
    requires m.Obj? && NormalizeMember(m).Some? && NoBlankAccounts(m)
    ensures AccountSettled(NormalizeMember(m).value)
  {
    hide IdStep, ErrorStep, AccountSettled, NestedError, AccountStep, NoBlankAccounts;
    var a := AccountStep(m).value;
    NoBlanksSettleStep(m);
    var c := IdStep(a, ContractIdKey, CONTRACT_IDS).value;
    IdStepKeepsSettled(a, ContractIdKey, CONTRACT_IDS);
    var t := IdStep(c, TransactionIdKey, TRANSACTION_IDS).value;
    IdStepKeepsSettled(c, TransactionIdKey, TRANSACTION_IDS);
    ErrorStepKeepsSettled(t);
  }

  lemma {:induction false} IdStepKeepsSettled(m: Json, k: Key, keys: seq<Key>)
    requires m.Obj? && AccountSettled(m) && IdStep(m, k, keys).Some?
    requires k !in ACCOUNT_IDS && k !in WRAPPERS && k !in ACCOUNT_WRAPPERS
    ensures AccountSettled(IdStep(m, k, keys).value)
  {
    hide AccountSettled, AccountWritten, First, Walk, Set;
    if !Truthy(Get(m, k)) && First(Walk(m, 0), keys).Found? {
      AccountWrittenFrame(m, k, First(Walk(m, 0), keys).value);
    }
  }

  lemma {:induction false} ErrorStepKeepsSettled(m: Json)
    requires m.Obj? && AccountSettled(m)
    ensures AccountSettled(ErrorStep(m))
  {
    hide AccountSettled, AccountWritten, NestedError, Walk, Set;
    if NestedError(Walk(m, 0)).Some? {
      AccountWrittenFrame(m, Error, NestedError(Walk(m, 0)).value);
    }
  }

  lemma {:induction false} NoBlanksSettleStep(m: Json)
    requires m.Obj? && AccountStep(m).Some? && NoBlankAccounts(m)
    ensures AccountSettled(AccountStep(m).value)
  {
    hide AccountId, Walk, Set, Strip, Show, First;
    if AccountId(m) == "" && First(Walk(m, 0), ACCOUNT_IDS).Found? {
      var v := First(Walk(m, 0), ACCOUNT_IDS).value;
      FoundIsExplicit(Walk(m, 0), ACCOUNT_IDS);
      var d, k :| d in Walk(m, 0) && k in ACCOUNT_IDS && Get(d, k) == v;
      assert Strip(Show(v)) != "" by {
        if v.Str? {
          assert Get(d, k).s == "" || Strip(Get(d, k).s) != "";
          ShowText(v.s);
        } else {
          ShownIsNotBlank(v);
        }
      }
      StripIsStable(Show(v));
      AccountSet(m, Strip(Show(v)));
    }
  }

  /** One pass is enough whenever no account field of the reply is blank. */
  lemma {:induction false} NoBlanksNeedOnePass(response: Json, requested: seq<string>)
    requires Accounts(requested) && response.Obj? && !ReplyRaises(response)
    requires Where(Canonicalize(response)) != Nowhere
    requires forall m :: m in ItemsOf(Canonicalize(response)) && m.Obj? ==> NoBlankAccounts(m)
    ensures Reconcile(response, requested).Some?
    ensures var y := Reconcile(response, requested).value;
            Reconcile(y, requested) == Some(y)
  {
    hide Canonicalize, NormalizeAll, NoBlankAccounts, NormalizeMember, MarkMember, AccountSettled,
      CorrelateMember, Where, ItemsOf, Replace, Correlate, ReplyRaises;
    RaisesExactly(response, requested);
    var c := Canonicalize(response);
    var items := ItemsOf(c);
    var normal := NormalizeAll(items).value;
    var done := Treat(items, requested).value;
    forall i | 0 <= i < |items| && done[i].Obj? ensures AccountSettled(done[i]) {
      NormalizeAllAt(items, i);
      if items[i].Obj? {
        assert items[i] in items;
        NoBlanksSettle(items[i]);
        NormalizedHasPassed(items[i]);
      }
      SettledThrough(items, requested, i);
    }
    ReplaceReads(c, done);
    IdempotentWhenSettled(response, requested);
  }

  lemma {:induction false} SettledThrough(items: seq<Json>, requested: seq<string>, i: nat)
    requires Accounts(requested) && i < |items| && Treat(items, requested).Some?
    requires items[i].Obj? ==> AccountSettled(NormalizeAll(items).value[i])
    ensures Treat(items, requested).value[i].Obj? ==> AccountSettled(Treat(items, requested).value[i])
  {
    hide NormalizeAll, AccountSettled, AccountId, Set, NormalizeMember, Passed;
    var normal := NormalizeAll(items).value;
    var placed := Correlate(normal, requested);
    NormalizeAllAt(items, i);
    if items[i].Obj? {
      NormalizedHasPassed(items[i]);
      NormalizedIsObject(items[i]);
      if Correlates(normal, requested) {
        PlacedHasPassed(normal[i], requested[i]);
        if AccountId(normal[i]) == "" {
          AccountSet(normal[i], requested[i]);
          AccountIsWritten(placed[i]);
        }
      }
      MarkedHasPassed(placed[i]);
    } else {
      NonObjectsStay(items[i], placed, i);
    }
  }

  // ---------------------------------------------------- idempotence, read off the reply

  lemma {:induction false} IdStepSettledSame(m: Json, k: Key, keys: seq<Key>)
    requires m.Obj? && IdStep(m, k, keys).Some?
    requires k !in ACCOUNT_IDS && k !in WRAPPERS && k !in ACCOUNT_WRAPPERS
    ensures AccountSettled(IdStep(m, k, keys).value) == AccountSettled(m)
  {
    hide AccountSettled, AccountWritten, First, Walk, Set;
    if !Truthy(Get(m, k)) && First(Walk(m, 0), keys).Found? {
      AccountWrittenFrame(m, k, First(Walk(m, 0), keys).value);
    }
  }

  lemma {:induction false} ErrorStepSettledSame(m: Json)
    requires m.Obj?
    ensures AccountSettled(ErrorStep(m)) == AccountSettled(m)
  {
    hide AccountSettled, AccountWritten, NestedError, Walk, Set;
    if NestedError(Walk(m, 0)).Some? {
      AccountWrittenFrame(m, Error, NestedError(Walk(m, 0)).value);
    }
  }

  /** The later steps neither settle nor unsettle an account, and keep it. */
  lemma {:induction false} LaterStepsSame(m: Json)
    requires m.Obj? && NormalizeMember(m).Some?
    ensures AccountStep(m).Some?
    ensures AccountSettled(NormalizeMember(m).value) == AccountSettled(AccountStep(m).value)
    ensures AccountId(NormalizeMember(m).value) == AccountId(AccountStep(m).value)
  {
    hide AccountStep, IdStep, ErrorStep, AccountSettled, AccountId, Get, Walk, First;
    AccountCarried(m);
    var a := AccountStep(m).value;
    var c := IdStep(a, ContractIdKey, CONTRACT_IDS).value;
    var t := IdStep(c, TransactionIdKey, TRANSACTION_IDS).value;
    IdStepSettledSame(a, ContractIdKey, CONTRACT_IDS);
    IdStepSettledSame(c, TransactionIdKey, TRANSACTION_IDS);
    ErrorStepSettledSame(t);
  }

  /** The blank found first is the member's own field, or no longer matters. */
  lemma {:induction false} BlankFoundSettledExactly(m: Json)
    requires m.Obj? && AccountId(m) == "" && First(Walk(m, 0), ACCOUNT_IDS).Found?
    requires Strip(Show(First(Walk(m, 0), ACCOUNT_IDS).value)) == ""
    ensures AccountSettled(Set(m, AccountIdKey, Str(""))) <==> !BlankAhead(m)
    ensures AccountId(Set(m, AccountIdKey, Str(""))) == ""
  {
    hide AccountId, Walk, Set, First, NextAccount, Strip, Show, Get;
    EmptyAccount(m);
    NextAfterEmptying(m);
    if Get(m, AccountIdKey) == Null || Get(m, AccountIdKey) == Str("") {
      SkipOwnAccount(m);
    } else {
      OwnFieldFirst(m);
      if !Get(m, AccountIdKey).Str? {
        ShownIsNotBlank(Get(m, AccountIdKey));
        assert false;
      }
    }
  }

  lemma {:induction false} AccountStepSettledExactly(m: Json)
    requires m.Obj? && AccountStep(m).Some?
    ensures AccountSettled(AccountStep(m).value) <==> !BlankAhead(m)
    ensures AccountId(AccountStep(m).value) == StatedAccount(m)
  {
    hide AccountId, Walk, Set, First, NextAccount, Strip, Show, Get;
    if AccountId(m) == "" && First(Walk(m, 0), ACCOUNT_IDS).Found? {
      var v := First(Walk(m, 0), ACCOUNT_IDS).value;
      if Strip(Show(v)) == "" {
        BlankFoundSettledExactly(m);
      } else {
        StripIsStable(Show(v));
        AccountSet(m, Strip(Show(v)));
        AccountIsWritten(AccountStep(m).value);
        NotBlankNotAhead(m);
      }
    } else if AccountId(m) == "" && Get(m, AccountIdKey).Str? && Get(m, AccountIdKey) != Str("") {
      OwnFieldFirst(m);
      assert false;
    }
  }

  lemma {:induction false} NotBlankNotAhead(m: Json)
    requires m.Obj? && AccountId(m) == "" && First(Walk(m, 0), ACCOUNT_IDS).Found?
    requires Strip(Show(First(Walk(m, 0), ACCOUNT_IDS).value)) != ""
    ensures !BlankAhead(m)
  {
    hide AccountId, Walk, First, NextAccount, Strip, Get;
    if Get(m, AccountIdKey).Str? && Get(m, AccountIdKey) != Str("") {
      OwnFieldFirst(m);
      NoOwnText(m);
      assert false;
    }
  }

  /** Reading the member alone: a second pass leaves it unless a blank own field stands
      ahead of a real account; and which account the first pass gives it. */
  lemma {:induction false} MemberSettledExactly(m: Json)
    requires m.Obj? && NormalizeMember(m).Some?
    ensures AccountSettled(NormalizeMember(m).value) <==> !BlankAhead(m)
    ensures AccountId(NormalizeMember(m).value) == StatedAccount(m)
  {
    hide AccountSettled, BlankAhead, StatedAccount, NormalizeMember, AccountStep, AccountId;
    LaterStepsSame(m);
    AccountStepSettledExactly(m);
  }

  /** The array matches the request by the accounts its members state. */
  predicate PlacedByRequest(items: seq<Json>, requested: seq<string>) {
    && requested != [] && Distinct(requested) && |items| == |requested|
    && (forall i :: 0 <= i < |items| ==> items[i].Obj?)
    && (forall i :: 0 <= i < |items| ==> StatedAccount(items[i]) == "" || StatedAccount(items[i]) == requested[i])
  }

  predicate NoneBlankAhead(items: seq<Json>) {
    forall i :: 0 <= i < |items| && items[i].Obj? ==> !BlankAhead(items[i])
  }

  lemma {:induction false} NormalFacts(items: seq<Json>, i: nat)
    requires i < |items| && NormalizeAll(items).Some?
    ensures NormalizeAll(items).value[i].Obj? == items[i].Obj?
    ensures items[i].Obj? ==>
              AccountId(NormalizeAll(items).value[i]) == StatedAccount(items[i])
              && (AccountSettled(NormalizeAll(items).value[i]) <==> !BlankAhead(items[i]))
  {
    hide NormalizeAll, NormalizeMember, AccountSettled, BlankAhead, StatedAccount, AccountId;
    NormalizeAllAt(items, i);
    if items[i].Obj? {
      NormalizedIsObject(items[i]);
      MemberSettledExactly(items[i]);
    }
  }

  lemma {:induction false} TreatedSettledExactly(items: seq<Json>, requested: seq<string>)
    requires Accounts(requested) && Treat(items, requested).Some?
    ensures AllSettled(Treat(items, requested).value)
       <==> PlacedByRequest(items, requested) || NoneBlankAhead(items)
  {
    hide NormalizeAll, AccountSettled, BlankAhead, StatedAccount, AccountId, MarkMember, CorrelateMember, Passed;
    var normal := NormalizeAll(items).value;
    var placed := Correlate(normal, requested);
    var done := Treat(items, requested).value;
    forall i | 0 <= i < |items|
      ensures normal[i].Obj? == items[i].Obj?
      ensures items[i].Obj? ==>
                AccountId(normal[i]) == StatedAccount(items[i])
                && (AccountSettled(normal[i]) <==> !BlankAhead(items[i]))
    {
      NormalFacts(items, i);
    }
    assert Correlates(normal, requested) <==> PlacedByRequest(items, requested);
    if Correlates(normal, requested) {
      PlacedEverywhere(normal, requested);
      forall i | 0 <= i < |done| && done[i].Obj? ensures AccountSettled(done[i]) {
        MarkKeepsAccount(placed[i]);
        assert AccountId(placed[i]) == requested[i] != "";
        AccountIsWritten(done[i]);
      }
    } else {
      forall i | 0 <= i < |done|
        ensures done[i].Obj? == items[i].Obj?
        ensures items[i].Obj? ==> AccountSettled(done[i]) == AccountSettled(normal[i])
      {
        MarkKeepsSettled(placed[i]);
      }
    }
  }

  lemma {:induction false} MarkKeepsSettled(m: Json)
    ensures MarkMember(m).Obj? == m.Obj?
    ensures m.Obj? ==> AccountSettled(MarkMember(m)) == AccountSettled(m)
  {
    hide AccountWritten, AccountSettled, Set, Resolved;
    if m.Obj? && !Resolved(m) {
      AccountWrittenFrame(m, Error, UNRESOLVED);
    }
  }

  /** The reconciler is idempotent on a reply exactly when the request places every
      member, or no member's own blank account field stands ahead of a real account. */
  lemma {:induction false} IdempotentExactly(response: Json, requested: seq<string>)
    requires Accounts(requested) && response.Obj? && !ReplyRaises(response)
    ensures Reconcile(response, requested).Some?
    ensures var c, y := Canonicalize(response), Reconcile(response, requested).value;
            Reconcile(y, requested) == Some(y)
            <==> (Where(c) == Nowhere || PlacedByRequest(ItemsOf(c), requested) || NoneBlankAhead(ItemsOf(c)))
  {
    hide Canonicalize, Treat, AllSettled, PlacedByRequest, NoneBlankAhead, Where, ItemsOf, Replace, ReplyRaises;
    RaisesExactly(response, requested);
    IdempotentWhenSettled(response, requested);
    var c := Canonicalize(response);
    if Where(c) != Nowhere {
      TreatedSettledExactly(ItemsOf(c), requested);
      ReplaceReads(c, Treat(ItemsOf(c), requested).value);
    }
  }

  // ------------------------------------------------------------------------ the loops

  method MembersOfMapping(fields: seq<Field>, failure: bool) returns (members: seq<Json>)
    ensures members == MappingToMembers(fields, failure)
  {
    members := [];
    for i := 0 to |fields|
      invariant members == MappingToMembers(fields[..i], failure)
    {
      assert fields[..i + 1][..i] == fields[..i];
      hide AccountMember;
      var member := AccountMember(fields[i].key, fields[i].value, failure);
      if member.Some? {
        members := members + [member.value];
      }
    }
    assert fields[..|fields|] == fields;
  }

  method NormalizeMembers(items: seq<Json>) returns (normalized: Option<seq<Json>>)
    ensures normalized == NormalizeAll(items)
  {
    var done := [];
    for i := 0 to |items|
      invariant NormalizeAll(items[..i]) == Some(done)
    {
      hide NormalizeMember;
      assert items[..i + 1][..i] == items[..i];
      if !items[i].Obj? {
        done := done + [items[i]];
        continue;
      }
      var member := NormalizeMember(items[i]);
      if member.None? {
        FailureSpreads(items, i + 1);
        return None;
      }
      done := done + [member.value];
    }
    assert items[..|items|] == items;
    return Some(done);
  }

  lemma {:induction false} FailureSpreads(items: seq<Json>, i: nat)
    requires i <= |items| && NormalizeAll(items[..i]).None?
    ensures NormalizeAll(items).None?
  {
    hide NormalizeMember;
    if i == |items| {
      assert items[..i] == items;
    } else {
      assert items[..|items| - 1][..i] == items[..i];
      FailureSpreads(items[..|items| - 1], i);
    }
  }

  method CorrelateMembers(items: seq<Json>, requested: seq<string>) returns (correlated: seq<Json>)
    ensures correlated == Correlate(items, requested)
  {
    hide AccountId, CorrelateMember;
    correlated := items;
    if requested == [] || !Distinct(requested) || |items| != |requested| {
      return;
    }
    if exists i :: 0 <= i < |items| && !items[i].Obj? {
      return;
    }
    for i := 0 to |items|
      invariant forall k :: 0 <= k < i ==> AccountId(items[k]) == "" || AccountId(items[k]) == requested[k]
    {
      var account := AccountId(items[i]);
      if account == "" {
        continue;
      }
      if account != requested[i] {
        return;
      }
    }
    correlated := [];
    for i := 0 to |items|
      invariant |correlated| == i
      invariant forall k :: 0 <= k < i ==> correlated[k] == CorrelateMember(items[k], requested[k])
    {
      correlated := correlated + [CorrelateMember(items[i], requested[i])];
    }
  }

  method MarkUnresolvedMembers(items: seq<Json>) returns (marked: seq<Json>)
    ensures marked == MarkAll(items)
  {
    marked := [];
    for i := 0 to |items|
      invariant |marked| == i
      invariant forall k :: 0 <= k < i ==> marked[k] == MarkMember(items[k])
    {
      marked := marked + [MarkMember(items[i])];
    }
  }
}
