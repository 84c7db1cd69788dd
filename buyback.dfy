/**
  Buyback decomposition (buyback.go): every accepted item is broken down
  along the materials graph until minerals are reached, the minerals are
  summed per name and qualifier into a map, and the map's entries are
  sorted by descending quantity and priced in Jita.

  The source recurses without a depth bound; the model assumes the
  materials graph is acyclic, witnessed by a rank map in which every
  non-mineral type outranks the known types it is made of (Acyclic).
  The source threads one shared map of pointers through the recursion;
  here the map is a value that each call takes and returns.
*/
module Buyback {
  import opened Wrappers
  import Collections
  import Sorting
  import opened PriceAlgebra
  import opened TypeDB
  import opened Items
  import Pricing

  const MineralGroupID := 18
  const RefinedQualifier := " (refined)"
  const RefinedAdjustment := 85.0

  // ---- acyclicity ----

  ghost predicate Acyclic(app: App, rank: map<int, nat>)
  {
    forall id :: id in app.TypesByID ==>
      (id in rank &&
       (app.TypesByID[id].GroupID != MineralGroupID ==>
          forall m :: m in app.TypesByID[id].Materials && m.TypeID in app.TypesByID ==>
            m.TypeID in rank && rank[m.TypeID] < rank[id]))
  }

  /** Unknown IDs are leaves of height 0 (the zero type has no materials). */
  ghost function Height(app: App, rank: map<int, nat>, id: int): nat
  {
    if id in app.TypesByID && id in rank then rank[id] + 1 else 0
  }

  lemma MaterialsAreLower(app: App, rank: map<int, nat>, id: int)
    requires Acyclic(app, rank)
    requires TypeByIDOrZero(app, id).GroupID != MineralGroupID
    ensures forall m :: m in TypeByIDOrZero(app, id).Materials ==> Height(app, rank, m.TypeID) < Height(app, rank, id)
  {
  }

  // ---- the decomposition as a list of mineral contributions ----

  /** One contribution to the buyback map: its key (name and qualifier), type, adjustment and quantity. */
  datatype Leaf = Leaf(Key: string, TypeID: int, Adjustment: real, Quantity: int)

  /**
    The contributions collectBuybackItems makes for `quantity` of `typeID`,
    in the order it makes them: a mineral contributes itself; anything else
    (an unknown ID included) contributes its materials' contributions,
    refined, each scaled by the material's quantity.
  */
  ghost function Leaves(app: App, rank: map<int, nat>, qualifier: string, adjustment: real, typeID: int, quantity: int): seq<Leaf>
    requires Acyclic(app, rank)
    decreases Height(app, rank, typeID), 1
  {
    var t := TypeByIDOrZero(app, typeID);
    if t.GroupID == MineralGroupID then [Leaf(t.Name + qualifier, t.ID, adjustment, quantity)]
    else
      MaterialsAreLower(app, rank, typeID);
      MaterialLeaves(app, rank, t.Materials, quantity, Height(app, rank, typeID))
  }

  ghost function MaterialLeaves(app: App, rank: map<int, nat>, mats: seq<Component>, quantity: int, bound: nat): seq<Leaf>
    requires Acyclic(app, rank)
    requires forall m :: m in mats ==> Height(app, rank, m.TypeID) < bound
    decreases bound, 0, |mats|
  {
    if mats == [] then []
    else
      var m := mats[|mats| - 1];
      MaterialLeaves(app, rank, mats[..|mats| - 1], quantity, bound) +
      Leaves(app, rank, RefinedQualifier, RefinedAdjustment, m.TypeID, m.Quantity * quantity)
  }

  /** The entry a first contribution creates. */
  function NewEntry(l: Leaf): AppraisalItem
  {
    NewItem(l.Key, l.Quantity).(TypeID := l.TypeID, Adjustment := l.Adjustment)
  }

  /** `updateBuybackItems`: add to the entry under the key, or create it. */
  function Insert(m: map<string, AppraisalItem>, l: Leaf): map<string, AppraisalItem>
  {
    if l.Key in m then m[l.Key := m[l.Key].(Quantity := m[l.Key].Quantity + l.Quantity)]
    else m[l.Key := NewEntry(l)]
  }

  function InsertAll(m: map<string, AppraisalItem>, ls: seq<Leaf>): map<string, AppraisalItem>
    decreases |ls|
  {
    if ls == [] then m else InsertAll(Insert(m, ls[0]), ls[1..])
  }

  lemma {:induction false} InsertAllAppend(m: map<string, AppraisalItem>, a: seq<Leaf>, b: seq<Leaf>)
    ensures InsertAll(m, a + b) == InsertAll(InsertAll(m, a), b)
    decreases |a|
  {
    if a == [] {
      assert a + b == b;
    } else {
      assert (a + b)[1..] == a[1..] + b;
      InsertAllAppend(Insert(m, a[0]), a[1..], b);
    }
  }

  // ---- what the map holds ----

  /** The summed quantity of the contributions under `k`. */
  function QtyFor(ls: seq<Leaf>, k: string): int
  {
    if ls == [] then 0 else (if ls[0].Key == k then ls[0].Quantity else 0) + QtyFor(ls[1..], k)
  }

  /** The first contribution under `k`, which creates its entry. */
  function FirstFor(ls: seq<Leaf>, k: string): Option<Leaf>
  {
    if ls == [] then None else if ls[0].Key == k then Some(ls[0]) else FirstFor(ls[1..], k)
  }

  /**
    Key by key: an existing entry keeps every field but grows by the
    quantities under its key; a new entry takes type and adjustment from the
    first contribution under its key and the summed quantity.
  */
  lemma {:induction false} InsertAllAt(m: map<string, AppraisalItem>, ls: seq<Leaf>, k: string)
    ensures k in InsertAll(m, ls) <==> k in m || FirstFor(ls, k).Some?
    ensures k in m ==> InsertAll(m, ls)[k] == m[k].(Quantity := m[k].Quantity + QtyFor(ls, k))
    ensures k !in m && FirstFor(ls, k).Some? ==>
      InsertAll(m, ls)[k] == NewEntry(FirstFor(ls, k).value).(Quantity := QtyFor(ls, k))
    decreases |ls|
  {
    if ls != [] {
      InsertAllAt(Insert(m, ls[0]), ls[1..], k);
    }
  }

  /** Every entry is named after its key. */
  lemma {:induction false} InsertAllNamed(m: map<string, AppraisalItem>, ls: seq<Leaf>)
    requires forall k :: k in m ==> m[k].Name == k
    ensures forall k :: k in InsertAll(m, ls) ==> InsertAll(m, ls)[k].Name == k
    decreases |ls|
  {
    if ls != [] {
      InsertAllNamed(Insert(m, ls[0]), ls[1..]);
    }
  }

  // ---- linearity ----

  function Scale(ls: seq<Leaf>, q: int): (r: seq<Leaf>)
    ensures |r| == |ls|
  {
    seq(|ls|, i requires 0 <= i < |ls| => ls[i].(Quantity := ls[i].Quantity * q))
  }

  lemma ScaleAppend(a: seq<Leaf>, b: seq<Leaf>, q: int)
    ensures Scale(a + b, q) == Scale(a, q) + Scale(b, q)
  {
  }

  lemma ScaleScale(ls: seq<Leaf>, p: int, q: int)
    ensures Scale(Scale(ls, p), q) == Scale(ls, p * q)
  {
    forall i | 0 <= i < |ls| ensures ls[i].Quantity * p * q == ls[i].Quantity * (p * q) {
    }
  }

  /**
    The decomposition is linear in the quantity: each mineral contribution
    is the quantity times the product of material quantities along its path.
  */
  lemma {:induction false} LeavesScale(app: App, rank: map<int, nat>, qualifier: string, adjustment: real, typeID: int, q: int)
    requires Acyclic(app, rank)
    ensures Leaves(app, rank, qualifier, adjustment, typeID, q) == Scale(Leaves(app, rank, qualifier, adjustment, typeID, 1), q)
    decreases Height(app, rank, typeID), 1
  {
    var t := TypeByIDOrZero(app, typeID);
    if t.GroupID != MineralGroupID {
      MaterialsAreLower(app, rank, typeID);
      MaterialLeavesScale(app, rank, t.Materials, q, Height(app, rank, typeID));
    }
  }

  lemma {:induction false} MaterialLeavesScale(app: App, rank: map<int, nat>, mats: seq<Component>, q: int, bound: nat)
    requires Acyclic(app, rank)
    requires forall m :: m in mats ==> Height(app, rank, m.TypeID) < bound
    ensures MaterialLeaves(app, rank, mats, q, bound) == Scale(MaterialLeaves(app, rank, mats, 1, bound), q)
    decreases bound, 0, |mats|
  {
    if mats != [] {
      var m := mats[|mats| - 1];
      var init := mats[..|mats| - 1];
      MaterialLeavesScale(app, rank, init, q, bound);
      LeavesScale(app, rank, RefinedQualifier, RefinedAdjustment, m.TypeID, m.Quantity * q);
      LeavesScale(app, rank, RefinedQualifier, RefinedAdjustment, m.TypeID, m.Quantity * 1);
      var base := Leaves(app, rank, RefinedQualifier, RefinedAdjustment, m.TypeID, 1);
      ScaleScale(base, m.Quantity, q);
      ScaleAppend(MaterialLeaves(app, rank, init, 1, bound), Scale(base, m.Quantity * 1), q);
    }
  }

  lemma {:induction false} QtyForScale(ls: seq<Leaf>, k: string, q: int)
    ensures QtyFor(Scale(ls, q), k) == QtyFor(ls, k) * q
    decreases |ls|
  {
    if ls != [] {
      assert Scale(ls, q)[1..] == Scale(ls[1..], q);
      QtyForScale(ls[1..], k, q);
    }
  }

  lemma {:induction false} FirstForScale(ls: seq<Leaf>, k: string, q: int)
    ensures FirstFor(Scale(ls, q), k).Some? == FirstFor(ls, k).Some?
    ensures FirstFor(ls, k).Some? ==> FirstFor(Scale(ls, q), k).value == FirstFor(ls, k).value.(Quantity := FirstFor(ls, k).value.Quantity * q)
    decreases |ls|
  {
    if ls != [] {
      assert Scale(ls, q)[1..] == Scale(ls[1..], q);
      FirstForScale(ls[1..], k, q);
    }
  }

  /**
    Collecting q1 and then q2 of a type yields the same map as collecting
    q1 + q2 of it at once.
  */
  lemma CollectLinear(app: App, rank: map<int, nat>, m: map<string, AppraisalItem>, qualifier: string, adjustment: real, typeID: int, q1: int, q2: int)
    requires Acyclic(app, rank)
    ensures InsertAll(InsertAll(m, Leaves(app, rank, qualifier, adjustment, typeID, q1)), Leaves(app, rank, qualifier, adjustment, typeID, q2))
         == InsertAll(m, Leaves(app, rank, qualifier, adjustment, typeID, q1 + q2))
  {
    var base := Leaves(app, rank, qualifier, adjustment, typeID, 1);
    LeavesScale(app, rank, qualifier, adjustment, typeID, q1);
    LeavesScale(app, rank, qualifier, adjustment, typeID, q2);
    LeavesScale(app, rank, qualifier, adjustment, typeID, q1 + q2);
    var left, right := InsertAll(InsertAll(m, Scale(base, q1)), Scale(base, q2)), InsertAll(m, Scale(base, q1 + q2));
    forall k ensures (k in left <==> k in right) && (k in left ==> left[k] == right[k]) {
      ScaledInsertsAt(m, base, q1, q2, k);
    }
    assert left == right;
  }

  lemma ScaledInsertsAt(m: map<string, AppraisalItem>, base: seq<Leaf>, q1: int, q2: int, k: string)
    ensures var left, right := InsertAll(InsertAll(m, Scale(base, q1)), Scale(base, q2)), InsertAll(m, Scale(base, q1 + q2));
      (k in left <==> k in right) && (k in left ==> left[k] == right[k])
  {
    var s1, s2, s := Scale(base, q1), Scale(base, q2), Scale(base, q1 + q2);
    InsertAllAt(m, s1, k);
    InsertAllAt(InsertAll(m, s1), s2, k);
    InsertAllAt(m, s, k);
    QtyForScale(base, k, q1);
    QtyForScale(base, k, q2);
    QtyForScale(base, k, q1 + q2);
    FirstForScale(base, k, q1);
    FirstForScale(base, k, q2);
    FirstForScale(base, k, q1 + q2);
    assert QtyFor(base, k) * q1 + QtyFor(base, k) * q2 == QtyFor(base, k) * (q1 + q2);
  }

  /** A type the catalog does not know contributes nothing. */
  lemma UnknownContributesNothing(app: App, rank: map<int, nat>, qualifier: string, adjustment: real, typeID: int, q: int)
    requires Acyclic(app, rank) && typeID !in app.TypesByID
    ensures Leaves(app, rank, qualifier, adjustment, typeID, q) == []
  {
  }

  // ---- ableToBuyback ----

  /**
    A type can be bought back when it is a mineral, or when it has materials
    and every one of them is a known type that can be bought back.
    `bound` exceeds the height of every known material.
  */
  ghost predicate Able(app: App, rank: map<int, nat>, t: EveType, bound: nat)
    requires Acyclic(app, rank)
    requires t.GroupID != MineralGroupID ==>
      forall m :: m in t.Materials && m.TypeID in app.TypesByID ==> Height(app, rank, m.TypeID) < bound
    decreases bound, 1
  {
    t.GroupID == MineralGroupID ||
    (|t.Materials| > 0 &&
     forall m :: m in t.Materials ==> m.TypeID in app.TypesByID && AbleID(app, rank, m.TypeID))
  }

  ghost predicate AbleID(app: App, rank: map<int, nat>, id: int)
    requires Acyclic(app, rank) && id in app.TypesByID
    decreases Height(app, rank, id), 2
  {
    MaterialsLowerIfNotMineral(app, rank, id);
    Able(app, rank, app.TypesByID[id], Height(app, rank, id))
  }

  lemma MaterialsLowerIfNotMineral(app: App, rank: map<int, nat>, id: int)
    requires Acyclic(app, rank) && id in app.TypesByID
    ensures app.TypesByID[id].GroupID != MineralGroupID ==>
      forall m :: m in app.TypesByID[id].Materials && m.TypeID in app.TypesByID ==> Height(app, rank, m.TypeID) < Height(app, rank, id)
  {
  }

  /** `ableToBuyback`: the materials are checked in order and the first failure answers false. */
  method AbleToBuyback(app: App, ghost rank: map<int, nat>, t: EveType, ghost bound: nat) returns (r: bool)
    requires Acyclic(app, rank)
    requires t.GroupID != MineralGroupID ==>
      forall m :: m in t.Materials && m.TypeID in app.TypesByID ==> Height(app, rank, m.TypeID) < bound
    ensures r == Able(app, rank, t, bound)
    decreases bound
  {
    if t.GroupID == MineralGroupID {
      return true;
    }
    var mats := t.Materials;
    for i := 0 to |mats|
      invariant forall j :: 0 <= j < i ==> mats[j].TypeID in app.TypesByID && AbleID(app, rank, mats[j].TypeID)
    {
      var found := GetTypeByID(app, mats[i].TypeID);
      if found.None? {
        return false;
      }
      var id := mats[i].TypeID;
      MaterialsLowerIfNotMineral(app, rank, id);
      var ok := AbleToBuyback(app, rank, found.value, Height(app, rank, id));
      if !ok {
        return false;
      }
    }
    return |mats| > 0;
  }

  /** A type that can be bought back always adds at least one mineral entry. */
  lemma {:induction false} AbleContributes(app: App, rank: map<int, nat>, qualifier: string, adjustment: real, id: int, q: int)
    requires Acyclic(app, rank) && id in app.TypesByID && AbleID(app, rank, id)
    ensures Leaves(app, rank, qualifier, adjustment, id, q) != []
    decreases Height(app, rank, id), 1
  {
    var t := app.TypesByID[id];
    if t.GroupID != MineralGroupID {
      MaterialsAreLower(app, rank, id);
      MaterialLeavesNonEmpty(app, rank, t.Materials, q, Height(app, rank, id));
    }
  }

  lemma {:induction false} MaterialLeavesNonEmpty(app: App, rank: map<int, nat>, mats: seq<Component>, q: int, bound: nat)
    requires Acyclic(app, rank)
    requires forall m :: m in mats ==> Height(app, rank, m.TypeID) < bound
    requires |mats| > 0 && forall m :: m in mats ==> m.TypeID in app.TypesByID && AbleID(app, rank, m.TypeID)
    ensures MaterialLeaves(app, rank, mats, q, bound) != []
    decreases bound, 0
  {
    var m := mats[|mats| - 1];
    AbleContributes(app, rank, RefinedQualifier, RefinedAdjustment, m.TypeID, m.Quantity * q);
  }

  // ---- collectBuybackItems / updateBuybackItems ----

  method UpdateBuybackItems(m: map<string, AppraisalItem>, qualifier: string, adjustment: real, t: EveType, quantity: int)
    returns (m': map<string, AppraisalItem>)
    ensures m' == Insert(m, Leaf(t.Name + qualifier, t.ID, adjustment, quantity))
  {
    var buybackKey := t.Name + qualifier;
    if buybackKey in m {
      var component := m[buybackKey];
      m' := m[buybackKey := component.(Quantity := component.Quantity + quantity)];
    } else {
      m' := m[buybackKey := NewItem(buybackKey, quantity).(TypeID := t.ID, Adjustment := adjustment)];
    }
  }

  method CollectBuybackItems(app: App, ghost rank: map<int, nat>, m: map<string, AppraisalItem>,
                             qualifier: string, adjustment: real, typeID: int, quantity: int)
    returns (m': map<string, AppraisalItem>)
    requires Acyclic(app, rank)
    ensures m' == InsertAll(m, Leaves(app, rank, qualifier, adjustment, typeID, quantity))
    decreases Height(app, rank, typeID), 1
  {
    var t := TypeByIDOrZero(app, typeID);
    if t.GroupID == MineralGroupID {
      m' := UpdateBuybackItems(m, qualifier, adjustment, t, quantity);
      assert InsertAll(Insert(m, Leaf(t.Name + qualifier, t.ID, adjustment, quantity)), []) == m';
    } else {
      MaterialsAreLower(app, rank, typeID);
      ghost var bound := Height(app, rank, typeID);
      var mats := t.Materials;
      m' := m;
      for i := 0 to |mats|
        invariant m' == InsertAll(m, MaterialLeaves(app, rank, mats[..i], quantity, bound))
      {
        assert mats[..i + 1][..i] == mats[..i];
        var material := mats[i];
        ghost var before := m';
        m' := CollectBuybackItems(app, rank, m', RefinedQualifier, RefinedAdjustment, material.TypeID, material.Quantity * quantity);
        InsertAllAppend(m, MaterialLeaves(app, rank, mats[..i], quantity, bound),
          Leaves(app, rank, RefinedQualifier, RefinedAdjustment, material.TypeID, material.Quantity * quantity));
      }
      assert mats[..|mats|] == mats;
    }
  }

  // ---- calculateBuyback ----

  /** The contributions of every accepted item, each entering with no qualifier at 100%. */
  ghost function ItemLeaves(app: App, rank: map<int, nat>, items: seq<AppraisalItem>): seq<Leaf>
    requires Acyclic(app, rank)
  {
    if items == [] then []
    else
      var it := items[|items| - 1];
      ItemLeaves(app, rank, items[..|items| - 1]) +
      (if it.Rejected then [] else Leaves(app, rank, "", 100.0, it.TypeID, it.Quantity))
  }

  /** The buyback map calculateBuyback builds. */
  ghost function Collected(app: App, rank: map<int, nat>, items: seq<AppraisalItem>): map<string, AppraisalItem>
    requires Acyclic(app, rank)
  {
    InsertAll(map[], ItemLeaves(app, rank, items))
  }

  /** A rejected item leaves the buyback map as it was. */
  lemma RejectedAddsNothing(app: App, rank: map<int, nat>, items: seq<AppraisalItem>, it: AppraisalItem)
    requires Acyclic(app, rank) && it.Rejected
    ensures Collected(app, rank, items + [it]) == Collected(app, rank, items)
  {
    var s := items + [it];
    assert s[..|s| - 1] == items;
    assert s[|s| - 1] == it;
    assert ItemLeaves(app, rank, s) == ItemLeaves(app, rank, items) + [];
    assert ItemLeaves(app, rank, items) + [] == ItemLeaves(app, rank, items);
  }

  /** The map holds each entry under its own name. */
  ghost predicate Named(m: map<string, AppraisalItem>)
  {
    forall k :: k in m ==> m[k].Name == k
  }

  /** `list` holds each entry of `m` exactly once. */
  ghost predicate ListsEntries(m: map<string, AppraisalItem>, list: seq<AppraisalItem>)
  {
    && (forall i :: 0 <= i < |list| ==> list[i].Name in m && list[i] == m[list[i].Name])
    && (forall i, j :: 0 <= i < j < |list| ==> list[i].Name != list[j].Name)
    && (forall k :: k in m ==> exists i :: 0 <= i < |list| && list[i].Name == k)
  }

  predicate ByQuantity(a: AppraisalItem, b: AppraisalItem)
  {
    a.Quantity >= b.Quantity
  }

  lemma ByQuantityTotalPreorder()
    ensures Sorting.TotalPreorder(ByQuantity)
  {
  }

  /** `list` holds, once each, the entries of `m` under the keys in `taken`. */
  ghost predicate Listing(m: map<string, AppraisalItem>, taken: set<string>, list: seq<AppraisalItem>)
  {
    && (forall i :: 0 <= i < |list| ==> list[i].Name in taken && list[i].Name in m && list[i] == m[list[i].Name])
    && (forall i, j :: 0 <= i < j < |list| ==> list[i].Name != list[j].Name)
    && (forall k :: k in taken ==> exists i :: 0 <= i < |list| && list[i].Name == k)
  }

  lemma ListingStep(m: map<string, AppraisalItem>, taken: set<string>, list: seq<AppraisalItem>, k: string)
    requires Named(m) && Listing(m, taken, list) && k in m && k !in taken
    ensures Listing(m, taken + {k}, list + [m[k]])
  {
    var list' := list + [m[k]];
    forall k' | k' in taken + {k} ensures exists i :: 0 <= i < |list'| && list'[i].Name == k' {
      if k' == k {
        assert list'[|list|].Name == k';
      } else {
        var i :| 0 <= i < |list| && list[i].Name == k';
        assert list'[i] == list[i];
      }
    }
  }

  lemma ListingAll(m: map<string, AppraisalItem>, list: seq<AppraisalItem>)
    requires Listing(m, m.Keys, list)
    ensures ListsEntries(m, list)
  {
  }

  /** The entries of a map, in the order the iteration met them. */
  method ListEntries(m: map<string, AppraisalItem>) returns (list: seq<AppraisalItem>)
    requires Named(m)
    ensures |list| == |m|
    ensures ListsEntries(m, list)
  {
    list := [];
    var keys := m.Keys;
    while keys != {}
      invariant keys <= m.Keys
      invariant |list| + |keys| == |m|
      invariant Listing(m, m.Keys - keys, list)
      decreases keys
    {
      ghost var someKey := Collections.MemberOf(keys);
      var k :| k in keys;
      ListingStep(m, m.Keys - keys, list, k);
      assert m.Keys - (keys - {k}) == (m.Keys - keys) + {k};
      list := list + [m[k]];
      keys := keys - {k};
    }
    assert m.Keys - keys == m.Keys;
    ListingAll(m, list);
  }

  /** The same entries in a fresh slice, ready to be sorted in place. */
  method MapEntries(m: map<string, AppraisalItem>) returns (entries: array<AppraisalItem>)
    requires Named(m)
    ensures fresh(entries)
    ensures entries.Length == |m|
    ensures ListsEntries(m, entries[..])
  {
    var list := ListEntries(m);
    entries := new AppraisalItem[|list|](i requires 0 <= i < |list| => list[i]);
    assert entries[..] == list;
  }

  /** Distinct names make distinct items. */
  lemma ListedNoDups(list: seq<AppraisalItem>)
    requires forall i, j :: 0 <= i < j < |list| ==> list[i].Name != list[j].Name
    ensures Collections.NoDups(list)
  {
  }

  /** Reordering a listing of the map's entries is again a listing of them. */
  lemma ListsEntriesPermutation(m: map<string, AppraisalItem>, a: seq<AppraisalItem>, b: seq<AppraisalItem>)
    requires ListsEntries(m, a) && multiset(a) == multiset(b)
    ensures ListsEntries(m, b)
  {
    forall i | 0 <= i < |b| ensures b[i].Name in m && b[i] == m[b[i].Name] {
      assert b[i] in multiset(a);
      var j :| 0 <= j < |a| && a[j] == b[i];
    }
    ListedNoDups(a);
    Collections.NoDupsPermutation(a, b);
    forall k | k in m ensures exists i :: 0 <= i < |b| && b[i].Name == k {
      var j :| 0 <= j < |a| && a[j].Name == k;
      assert a[j] in multiset(b);
      var i :| 0 <= i < |b| && b[i] == a[j];
    }
  }

  /** Pricing keeps an item's name and quantity. */
  lemma PricedKeepsNameAndQuantity(app: App, market: string, adjustments: map<int, real>, before: AppraisalItem, after: AppraisalItem)
    requires Pricing.PricedItem(app, market, adjustments, before, after)
    ensures after.Name == before.Name && after.Quantity == before.Quantity
  {
  }

  /** The loop of calculateBuyback over the accepted items. */
  method CollectAll(app: App, ghost rank: map<int, nat>, items: seq<AppraisalItem>) returns (buybackMap: map<string, AppraisalItem>)
    requires Acyclic(app, rank)
    ensures buybackMap == Collected(app, rank, items)
  {
    buybackMap := map[];
    for i := 0 to |items|
      invariant buybackMap == InsertAll(map[], ItemLeaves(app, rank, items[..i]))
    {
      var item := items[i];
      ghost var prefix := items[..i + 1];
      assert prefix[..|prefix| - 1] == items[..i];
      assert prefix[|prefix| - 1] == item;
      if !item.Rejected {
        buybackMap := CollectBuybackItems(app, rank, buybackMap, "", 100.0, item.TypeID, item.Quantity);
        InsertAllAppend(map[], ItemLeaves(app, rank, items[..i]), Leaves(app, rank, "", 100.0, item.TypeID, item.Quantity));
      } else {
        assert ItemLeaves(app, rank, prefix) == ItemLeaves(app, rank, items[..i]) + [];
        assert ItemLeaves(app, rank, items[..i]) + [] == ItemLeaves(app, rank, items[..i]);
      }
    }
    assert items[..|items|] == items;
  }

  /**
    What calculateBuyback returns for `items`: `unpriced` lists the entries
    of the buyback map once each, in non-increasing quantity; the buyback
    items are those entries priced in Jita with no adjustments, in the same
    order; the totals are what the priced entries contribute.
  */
  ghost predicate BuybackOf(app: App, rank: map<int, nat>, items: seq<AppraisalItem>, buyback: ItemsAndTotals, unpriced: seq<AppraisalItem>)
    requires Acyclic(app, rank)
  {
    && ListsEntries(Collected(app, rank, items), unpriced)
    && |unpriced| == |buyback.Items| == |Collected(app, rank, items)|
    && (forall i :: 0 <= i < |unpriced| ==> Pricing.PricedItem(app, "jita", map[], unpriced[i], buyback.Items[i]))
    && (forall i :: 0 <= i < |unpriced| ==> buyback.Items[i].Name == unpriced[i].Name)
    && (forall i, j :: 0 <= i < j < |buyback.Items| ==> buyback.Items[i].Quantity >= buyback.Items[j].Quantity)
    && buyback.Totals == Pricing.AddedTotals(app, unpriced, buyback.Items)
  }

  /** `calculateBuyback`. */
  method CalculateBuyback(app: App, ghost rank: map<int, nat>, items: seq<AppraisalItem>)
    returns (buyback: ItemsAndTotals, unpriced: seq<AppraisalItem>)
    requires Acyclic(app, rank)
    ensures BuybackOf(app, rank, items, buyback, unpriced)
  {
    var buybackMap := CollectAll(app, rank, items);
    InsertAllNamed(map[], ItemLeaves(app, rank, items));
    var entries := MapEntries(buybackMap);
    ByQuantityTotalPreorder();
    ghost var listed := entries[..];
    Sorting.SortBy(entries, ByQuantity);
    unpriced := entries[..];
    ListsEntriesPermutation(buybackMap, listed, unpriced);
    buyback := PriceSorted(app, entries);
  }

  /** The pricing at the end of calculateBuyback, which keeps the order by quantity. */
  method PriceSorted(app: App, entries: array<AppraisalItem>) returns (buyback: ItemsAndTotals)
    requires Sorting.SortedBy(entries[..], ByQuantity)
    modifies entries
    ensures |buyback.Items| == entries.Length
    ensures forall i :: 0 <= i < entries.Length ==> Pricing.PricedItem(app, "jita", map[], old(entries[i]), buyback.Items[i])
    ensures forall i :: 0 <= i < entries.Length ==> buyback.Items[i].Name == old(entries[i]).Name
    ensures forall i, j :: 0 <= i < j < |buyback.Items| ==> buyback.Items[i].Quantity >= buyback.Items[j].Quantity
    ensures buyback.Totals == Pricing.AddedTotals(app, old(entries[..]), buyback.Items)
  {
    ghost var unpriced := entries[..];
    var totals := Pricing.PriceAppraisalItems(app, entries, ZeroTotals, "jita", map[]);
    forall i | 0 <= i < entries.Length
      ensures entries[i].Name == unpriced[i].Name && entries[i].Quantity == unpriced[i].Quantity
    {
      PricedKeepsNameAndQuantity(app, "jita", map[], unpriced[i], entries[i]);
    }
    buyback := ItemsAndTotals(totals, entries[..]);
  }
}
