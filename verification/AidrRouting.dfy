/** The per-account router of app/aidr_execution_flow_fix.py and the scope filter
    of app/ai_digit_recovery_v1.py. */
module AidrRouting {
  import opened RecoveryStake
  import opened AidrRecovery

  /** One eligible purchase account: its managed row if it has one, its display
      mask, its risk row, and whether a virtual observation is already open. */
  datatype Entry = Entry(managed: Managed, mask: string, risk: Risk, busy: bool)

  datatype Managed = Unmanaged | ManagedAs(id: nat)

  datatype Lane = NotManaged | Mismatch | Real | VirtualOpened | VirtualWaiting

  function Barrier(a: Action): nat {
    match a
    case NormalOver1 => 1
    case FirstRecoveryOver3 => 3
    case FullRecoveryOver4 => 4
    case VirtualOver4 => 4
  }

  /** Where one account must go for a signal of the given barrier. */
  function LaneOf(e: Entry, barrier: nat): Lane {
    if e.managed.Unmanaged? then NotManaged
    else if Barrier(RequiredAction(e.risk)) != barrier then Mismatch
    else if !RequiredAction(e.risk).VirtualOver4? then Real
    else if e.busy then VirtualWaiting
    else VirtualOpened
  }

  /** The barrier an account trades at: 1 without debt, 3 for the first recovery of a debt, 4
      once virtual wins have confirmed it, and 4 for the virtual observation itself. */
  lemma LaneExactly(e: Entry, barrier: nat)
    ensures e.managed.Unmanaged? <==> LaneOf(e, barrier).NotManaged?
    ensures LaneOf(e, barrier).Real? <==>
      && e.managed.ManagedAs? && e.risk.mode != Virtual
      && barrier == (if e.risk.mode == Normal && e.risk.debt == 0 then 1 else if e.risk.marker then 4 else 3)
    ensures LaneOf(e, barrier).VirtualOpened? || LaneOf(e, barrier).VirtualWaiting? <==>
      e.managed.ManagedAs? && e.risk.mode == Virtual && barrier == 4
    ensures LaneOf(e, barrier).VirtualWaiting? ==> e.busy
    ensures LaneOf(e, barrier).VirtualOpened? ==> !e.busy
  {
  }

  function OpenedIds(es: seq<Entry>, barrier: nat): seq<nat> {
    if |es| == 0 then []
    else
      var last := es[|es| - 1];
      OpenedIds(es[..|es| - 1], barrier)
      + if LaneOf(last, barrier).VirtualOpened? then [last.managed.id] else []
  }

  function CountLane(es: seq<Entry>, barrier: nat, lane: Lane): nat {
    if |es| == 0 then 0
    else CountLane(es[1..], barrier, lane) + if LaneOf(es[0], barrier) == lane then 1 else 0
  }

  function CountManaged(es: seq<Entry>): nat {
    if |es| == 0 then 0 else CountManaged(es[1..]) + if es[0].managed.ManagedAs? then 1 else 0
  }

  function RealIds(es: seq<Entry>, barrier: nat): set<nat> {
    set e | e in es && LaneOf(e, barrier).Real? :: e.managed.id
  }

  function Masks(es: seq<Entry>, barrier: nat, lane: Lane): set<string> {
    set e | e in es && LaneOf(e, barrier) == lane :: e.mask
  }

  /** Managed entries have their own id and their own mask. */
  predicate DistinctEntries(es: seq<Entry>) {
    forall i, j :: 0 <= i < j < |es| && es[i].managed.ManagedAs? && es[j].managed.ManagedAs? ==>
      es[i].managed.id != es[j].managed.id && es[i].mask != es[j].mask
  }

  /** The four collections share no account, miss none, and count each once. */
  predicate Partitioned(es: seq<Entry>, actual: set<nat>, watching: seq<nat>, waiting: set<string>, mismatches: set<string>) {
    && |actual| + |watching| + |waiting| + |mismatches| == CountManaged(es)
    && (forall id :: id in watching ==> id !in actual) && waiting !! mismatches
    && (forall e :: e in es && e.managed.ManagedAs? ==>
         var id := e.managed.id;
         && (id in actual || id in watching || e.mask in waiting || e.mask in mismatches)
         && !((id in actual || id in watching) && (e.mask in waiting || e.mask in mismatches)))
  }

  /** `buy_selected_with_direct_aidr_routing`: the partition, then the accounts the
      shared purchase path is given. */
  method Route(eligible: seq<Entry>, barrier: nat)
    returns (actual: set<nat>, watching: seq<nat>, waiting: set<string>, mismatches: set<string>, purchase: seq<Entry>)
    ensures actual == RealIds(eligible, barrier)
    ensures watching == OpenedIds(eligible, barrier)
    ensures waiting == Masks(eligible, barrier, VirtualWaiting)
    ensures mismatches == Masks(eligible, barrier, Mismatch)
    ensures purchase == if actual == {} then [] else Scoped(eligible, actual)
    ensures DistinctEntries(eligible) ==> Partitioned(eligible, actual, watching, waiting, mismatches)
  {
    actual, watching, waiting, mismatches := {}, [], {}, {};
    for i := 0 to |eligible|
      invariant actual == RealIds(eligible[..i], barrier)
      invariant watching == OpenedIds(eligible[..i], barrier)
      invariant waiting == Masks(eligible[..i], barrier, VirtualWaiting)
      invariant mismatches == Masks(eligible[..i], barrier, Mismatch)
    {
      hide RealIds, Masks, DistinctEntries, Partitioned, RequiredAction, Barrier;
      var entry := eligible[i];
      assert eligible[..i + 1] == eligible[..i] + [entry];
      assert eligible[..i + 1][..i] == eligible[..i];
      RealIdsSnoc(eligible[..i], entry, barrier);
      MasksSnoc(eligible[..i], entry, barrier, VirtualWaiting);
      MasksSnoc(eligible[..i], entry, barrier, Mismatch);
      if entry.managed.ManagedAs? {
        var action := RequiredAction(entry.risk);
        if Barrier(action) != barrier {
          mismatches := mismatches + {entry.mask};
        } else if !action.VirtualOver4? {
          actual := actual + {entry.managed.id};
        } else if entry.busy {
          waiting := waiting + {entry.mask};
        } else {
          watching := watching + [entry.managed.id];
        }
      }
    }
    assert eligible[..|eligible|] == eligible;
    purchase := if actual == {} then [] else Scoped(eligible, actual);
    if DistinctEntries(eligible) {
      LanesPartition(eligible, barrier);
    }
  }

  /** `_scoped_eligible`: an empty scope is no scope at all. */
  function Scoped(es: seq<Entry>, scope: set<nat>): seq<Entry> {
    if scope == {} then es else InScope(es, scope)
  }

  function InScope(es: seq<Entry>, scope: set<nat>): seq<Entry> {
    if |es| == 0 then []
    else (if es[0].managed.ManagedAs? && es[0].managed.id in scope then [es[0]] else []) + InScope(es[1..], scope)
  }

  lemma {:induction false} InScopeMembers(es: seq<Entry>, scope: set<nat>, e: Entry)
    ensures e in InScope(es, scope) <==> e in es && e.managed.ManagedAs? && e.managed.id in scope
  {
    if |es| > 0 {
      InScopeMembers(es[1..], scope, e);
      assert es == [es[0]] + es[1..];
    }
  }

  /** Managed ids name one row each. */
  predicate OneRowPerId(es: seq<Entry>) {
    forall a, b :: a in es && b in es && a.managed.ManagedAs? && a.managed == b.managed ==> a == b
  }

  lemma {:induction false} LaneCountsAddUp(es: seq<Entry>, barrier: nat)
    ensures CountLane(es, barrier, Real) + CountLane(es, barrier, VirtualOpened)
            + CountLane(es, barrier, VirtualWaiting) + CountLane(es, barrier, Mismatch) == CountManaged(es)
  {
    if |es| > 0 {
      LaneCountsAddUp(es[1..], barrier);
    }
  }

  lemma {:induction false} RealIdsSnoc(es: seq<Entry>, e: Entry, barrier: nat)
    ensures RealIds(es + [e], barrier) == RealIds(es, barrier) + if LaneOf(e, barrier).Real? then {e.managed.id} else {}
  {
    var all := es + [e];
    forall x ensures x in all <==> x in es || x == e {
      if x == e { assert all[|es|] == x; }
    }
    hide RequiredAction, Barrier;
  }

  lemma {:induction false} MasksSnoc(es: seq<Entry>, e: Entry, barrier: nat, lane: Lane)
    ensures Masks(es + [e], barrier, lane) == Masks(es, barrier, lane) + if LaneOf(e, barrier) == lane then {e.mask} else {}
  {
    var all := es + [e];
    forall x ensures x in all <==> x in es || x == e {
      if x == e { assert all[|es|] == x; }
    }
    hide LaneOf;
  }

  /** The last entry brings a new id and a new mask. */
  lemma {:induction false} LastIsNew(es: seq<Entry>, last: Entry, e: Entry)
    requires DistinctEntries(es + [last]) && e in es && e.managed.ManagedAs? && last.managed.ManagedAs?
    ensures e.managed.id != last.managed.id && e.mask != last.mask
  {
    var i :| 0 <= i < |es| && es[i] == e;
    assert (es + [last])[i] == e && (es + [last])[|es|] == last;
  }

  lemma {:induction false} PrefixDistinct(es: seq<Entry>, last: Entry)
    requires DistinctEntries(es + [last])
    ensures DistinctEntries(es)
  {
    assert forall i :: 0 <= i < |es| ==> (es + [last])[i] == es[i];
  }

  lemma {:induction false} RealIdsCounted(es: seq<Entry>, barrier: nat)
    requires DistinctEntries(es)
    ensures |RealIds(es, barrier)| == CountLane(es, barrier, Real)
  {
    if |es| > 0 {
      var pre, last := es[..|es| - 1], es[|es| - 1];
      assert es == pre + [last];
      PrefixDistinct(pre, last);
      RealIdsCounted(pre, barrier);
      CountLaneSnoc(pre, last, barrier, Real);
      RealIdsSnoc(pre, last, barrier);
      if LaneOf(last, barrier).Real? {
        forall e | e in pre && LaneOf(e, barrier).Real? ensures e.managed.id != last.managed.id {
          LastIsNew(pre, last, e);
        }
        assert last.managed.id !in RealIds(pre, barrier);
      }
      hide DistinctEntries, LaneOf, CountLane, RealIds;
    }
  }

  lemma {:induction false} MasksCounted(es: seq<Entry>, barrier: nat, lane: Lane)
    requires DistinctEntries(es) && !lane.NotManaged?
    ensures |Masks(es, barrier, lane)| == CountLane(es, barrier, lane)
  {
    if |es| > 0 {
      var pre, last := es[..|es| - 1], es[|es| - 1];
      assert es == pre + [last];
      PrefixDistinct(pre, last);
      MasksCounted(pre, barrier, lane);
      CountLaneSnoc(pre, last, barrier, lane);
      MasksSnoc(pre, last, barrier, lane);
      if LaneOf(last, barrier) == lane {
        forall e | e in pre && LaneOf(e, barrier) == lane ensures e.mask != last.mask {
          LastIsNew(pre, last, e);
        }
        assert last.mask !in Masks(pre, barrier, lane);
      }
      hide DistinctEntries, LaneOf, CountLane, Masks;
    }
  }

  lemma {:induction false} OpenedIdsMembers(es: seq<Entry>, barrier: nat, id: nat)
    ensures id in OpenedIds(es, barrier) <==>
            exists e :: e in es && LaneOf(e, barrier).VirtualOpened? && e.managed.id == id
  {
    if |es| > 0 {
      var n := |es| - 1;
      assert es == es[..n] + [es[n]];
      OpenedIdsMembers(es[..n], barrier, id);
      if id in OpenedIds(es, barrier) {
        if LaneOf(es[n], barrier).VirtualOpened? && es[n].managed.id == id {
          assert es[n] in es;
        }
      } else {
        forall e | e in es && LaneOf(e, barrier).VirtualOpened? ensures e.managed.id != id {
          assert e in es[..n] || e == es[n];
        }
      }
    }
  }

  lemma {:induction false} SameIdSameEntry(es: seq<Entry>, a: Entry, b: Entry)
    requires DistinctEntries(es) && a in es && b in es && a.managed.ManagedAs? && b.managed.ManagedAs?
    requires a.managed.id == b.managed.id || a.mask == b.mask
    ensures a == b
  {
    var i :| 0 <= i < |es| && es[i] == a;
    var j :| 0 <= j < |es| && es[j] == b;
  }

  /** What `Route` collects is a partition: with own ids and masks, every managed account
      is in exactly one of the four collections, and their sizes add up. */
  lemma {:induction false} LanesPartition(es: seq<Entry>, barrier: nat)
    requires DistinctEntries(es)
    ensures Partitioned(es, RealIds(es, barrier), OpenedIds(es, barrier),
                        Masks(es, barrier, VirtualWaiting), Masks(es, barrier, Mismatch))
  {
    LaneCountsAddUp(es, barrier);
    RealIdsCounted(es, barrier);
    OpenedCount(es, barrier);
    MasksCounted(es, barrier, VirtualWaiting);
    MasksCounted(es, barrier, Mismatch);
    LanesAreApart(es, barrier);
    forall e | e in es && e.managed.ManagedAs? ensures OneLane(es, barrier, e) {
      EntryHasOneLane(es, barrier, e);
    }
    hide LaneOf, DistinctEntries, CountLane, RealIds, OpenedIds, Masks;
  }

  lemma {:induction false} LanesAreApart(es: seq<Entry>, barrier: nat)
    requires DistinctEntries(es)
    ensures forall id :: id in OpenedIds(es, barrier) ==> id !in RealIds(es, barrier)
    ensures Masks(es, barrier, VirtualWaiting) !! Masks(es, barrier, Mismatch)
  {
    forall id | id in OpenedIds(es, barrier) ensures id !in RealIds(es, barrier) {
      OpenedIdsMembers(es, barrier, id);
      var e :| e in es && LaneOf(e, barrier).VirtualOpened? && e.managed.id == id;
      forall f | f in es && LaneOf(f, barrier).Real? ensures f.managed.id != id {
        if f.managed.id == id {
          SameIdSameEntry(es, e, f);
        }
      }
    }
    forall e, f | e in es && LaneOf(e, barrier).VirtualWaiting? && f in es && LaneOf(f, barrier).Mismatch?
      ensures e.mask != f.mask
    {
      if e.mask == f.mask {
        SameIdSameEntry(es, e, f);
      }
    }
  }

  predicate OneLane(es: seq<Entry>, barrier: nat, e: Entry)
    requires e.managed.ManagedAs?
  {
    var byId := e.managed.id in RealIds(es, barrier) || e.managed.id in OpenedIds(es, barrier);
    var byMask := e.mask in Masks(es, barrier, VirtualWaiting) || e.mask in Masks(es, barrier, Mismatch);
    (byId || byMask) && !(byId && byMask)
  }

  lemma {:induction false} EntryHasOneLane(es: seq<Entry>, barrier: nat, e: Entry)
    requires DistinctEntries(es) && e in es && e.managed.ManagedAs?
    ensures OneLane(es, barrier, e)
  {
    OpenedIdsMembers(es, barrier, e.managed.id);
    forall f | f in es && f.managed.ManagedAs? && (f.managed.id == e.managed.id || f.mask == e.mask) ensures f == e {
      SameIdSameEntry(es, f, e);
    }
    hide DistinctEntries, OpenedIds;
    if LaneOf(e, barrier).Real? || LaneOf(e, barrier).VirtualOpened? {
      assert e.mask !in Masks(es, barrier, VirtualWaiting) && e.mask !in Masks(es, barrier, Mismatch);
    }
  }

  lemma {:induction false} OpenedCount(es: seq<Entry>, barrier: nat)
    ensures |OpenedIds(es, barrier)| == CountLane(es, barrier, VirtualOpened)
  {
    if |es| > 0 {
      var n := |es| - 1;
      OpenedCount(es[..n], barrier);
      CountLaneSnoc(es[..n], es[n], barrier, VirtualOpened);
      assert es[..n] + [es[n]] == es;
    }
  }

  lemma {:induction false} CountLaneSnoc(es: seq<Entry>, e: Entry, barrier: nat, lane: Lane)
    ensures CountLane(es + [e], barrier, lane)
         == CountLane(es, barrier, lane) + if LaneOf(e, barrier) == lane then 1 else 0
  {
    if |es| > 0 {
      CountLaneSnoc(es[1..], e, barrier, lane);
      assert (es + [e])[1..] == es[1..] + [e];
    } else {
      assert ([e])[1..] == [];
    }
  }

  /** The shared purchase path receives exactly the real lane: no VIRTUAL account
      and no account whose state asks for another barrier. */
  lemma {:induction false} PurchaseScopeIsRealLane(es: seq<Entry>, barrier: nat, actual: set<nat>, e: Entry)
    requires OneRowPerId(es)
    requires actual == RealIds(es, barrier)
    ensures e in (if actual == {} then [] else Scoped(es, actual)) <==> e in es && LaneOf(e, barrier).Real?
    ensures e in (if actual == {} then [] else Scoped(es, actual)) ==> e.risk.mode != Virtual
  {
    InScopeMembers(es, actual, e);
    if e in es && LaneOf(e, barrier).Real? {
      assert e.managed.id in actual;
    }
  }
}
