/**
  The pure part of loading the static data export (staticdump/load.go):
  blueprints indexed by the product types they manufacture, the
  components of a type taken from the first blueprint indexed for it, the
  depth-bounded expansion into base components, their flattening by type
  ID, and the filtering of unnamed types. Reading the zip archive and the
  YAML files is not part of this model: the decoded maps arrive as
  parameters. Go's map iteration order is left open: the methods pick keys
  with `:|`, and their contracts hold whatever order is picked.
*/
module StaticDumpLoad {
  import opened Wrappers
  import Collections
  import opened TypeDB

  /** A decoded entry of typeIDs.yaml (only the English name is kept). */
  datatype SdeType = SdeType(GroupID: int, MarketGroupID: int, Name: string, Published: bool, Volume: real, BasePrice: real)

  /** A decoded entry of blueprints.yaml: its manufacturing materials and products. */
  datatype Blueprint = Blueprint(BlueprintTypeID: int, Materials: seq<Component>, Products: seq<Component>)

  type Index = map<int, seq<Blueprint>>

  // ---- blueprintsByProductType ----

  /** `bp` is appended to the list kept for `typeID`, which is created when missing. */
  function Append(index: Index, typeID: int, bp: Blueprint): Index
  {
    index[typeID := (if typeID in index then index[typeID] else []) + [bp]]
  }

  /** The index after `bp` has been appended under each of `ps`, in order. */
  function AddProducts(index: Index, bp: Blueprint, ps: seq<Component>): Index
  {
    if ps == [] then index
    else Append(AddProducts(index, bp, ps[..|ps| - 1]), ps[|ps| - 1].TypeID, bp)
  }

  /** The index after the blueprints under `order` have been visited, in that order. */
  function IndexOf(all: map<int, Blueprint>, order: seq<int>): Index
    requires forall i :: 0 <= i < |order| ==> order[i] in all
  {
    if order == [] then map[]
    else
      var bp := all[order[|order| - 1]];
      AddProducts(IndexOf(all, order[..|order| - 1]), bp, bp.Products)
  }

  /** `order` visits every key of `all` exactly once. */
  ghost predicate Enumerates<V>(all: map<int, V>, order: seq<int>)
  {
    (forall i :: 0 <= i < |order| ==> order[i] in all) &&
    (forall k :: k in all ==> k in order) &&
    (forall i, j :: 0 <= i < j < |order| ==> order[i] != order[j])
  }

  /** The indexing loop of `loadtypes`. */
  method IndexBlueprints(all: map<int, Blueprint>) returns (index: Index, order: seq<int>)
    ensures Enumerates(all, order)
    ensures index == IndexOf(all, order)
  {
    index := map[];
    order := [];
    var keys := all.Keys;
    while keys != {}
      invariant keys <= all.Keys
      invariant forall i :: 0 <= i < |order| ==> order[i] in all && order[i] !in keys
      invariant forall k :: k in all ==> k in keys || k in order
      invariant forall i, j :: 0 <= i < j < |order| ==> order[i] != order[j]
      invariant index == IndexOf(all, order)
      decreases keys
    {
      ghost var someKey := Collections.MemberOf(keys);
      var id :| id in keys;
      var bp := all[id];
      ghost var before := index;
      var products := bp.Products;
      for j := 0 to |products|
        invariant index == AddProducts(before, bp, products[..j])
      {
        assert products[..j + 1][..j] == products[..j];
        index := Append(index, products[j].TypeID, bp);
      }
      assert products[..|products|] == products;
      order := order + [id];
      assert order[..|order| - 1] == order[..|order| - 1];
      keys := keys - {id};
    }
  }

  /** Blueprint `bp` manufactures type `typeID`. */
  ghost predicate Makes(bp: Blueprint, typeID: int)
  {
    exists p :: p in bp.Products && p.TypeID == typeID
  }

  /** `b` is the blueprint of some key of `all`. */
  ghost predicate Among(all: map<int, Blueprint>, b: Blueprint)
  {
    exists id :: id in all && all[id] == b
  }

  /** Every blueprint listed under a type is one of `all` and manufactures that type. */
  ghost predicate Sound(index: Index, all: map<int, Blueprint>)
  {
    forall t, b :: t in index && b in index[t] ==> Among(all, b) && Makes(b, t)
  }

  lemma {:induction false} AddProductsSound(index: Index, all: map<int, Blueprint>, bp: Blueprint, ps: seq<Component>)
    requires Sound(index, all) && Among(all, bp)
    requires forall p :: p in ps ==> p in bp.Products
    ensures Sound(AddProducts(index, bp, ps), all)
  {
    if ps != [] {
      AddProductsSound(index, all, bp, ps[..|ps| - 1]);
      assert ps[|ps| - 1] in bp.Products;
    }
  }

  /** Appending never drops a blueprint already listed, and lists `bp` under each of `ps`. */
  lemma {:induction false} AddProductsGrows(index: Index, bp: Blueprint, ps: seq<Component>)
    ensures forall t, b :: t in index && b in index[t] ==> t in AddProducts(index, bp, ps) && b in AddProducts(index, bp, ps)[t]
    ensures forall p :: p in ps ==> p.TypeID in AddProducts(index, bp, ps) && bp in AddProducts(index, bp, ps)[p.TypeID]
  {
    if ps != [] {
      var init := ps[..|ps| - 1];
      AddProductsGrows(index, bp, init);
      forall p | p in ps ensures p in init || p == ps[|ps| - 1] {
        var i :| 0 <= i < |ps| && ps[i] == p;
        if i < |ps| - 1 {
          assert init[i] == p;
        }
      }
    }
  }

  /** What the index lists was manufactured by a blueprint of `all`. */
  lemma {:induction false} IndexSound(all: map<int, Blueprint>, order: seq<int>)
    requires forall i :: 0 <= i < |order| ==> order[i] in all
    ensures Sound(IndexOf(all, order), all)
  {
    if order != [] {
      var last := order[|order| - 1];
      var bp := all[last];
      assert last in all && all[last] == bp;
      assert Among(all, bp);
      IndexSound(all, order[..|order| - 1]);
      AddProductsSound(IndexOf(all, order[..|order| - 1]), all, bp, bp.Products);
    }
  }

  /** Every visited blueprint is listed under every type it manufactures. */
  lemma {:induction false} IndexComplete(all: map<int, Blueprint>, order: seq<int>)
    requires forall i :: 0 <= i < |order| ==> order[i] in all
    ensures forall id, p :: id in order && p in all[id].Products ==> p.TypeID in IndexOf(all, order) && all[id] in IndexOf(all, order)[p.TypeID]
  {
    if order != [] {
      var init := order[..|order| - 1];
      var bp := all[order[|order| - 1]];
      IndexComplete(all, init);
      AddProductsGrows(IndexOf(all, init), bp, bp.Products);
      forall id | id in order ensures id in init || id == order[|order| - 1] {
        var i :| 0 <= i < |order| && order[i] == id;
        if i < |order| - 1 {
          assert init[i] == id;
        }
      }
    }
  }

  // ---- resolveBlueprintProducts / resolveComponents ----

  /** The first blueprint indexed for `typeID`, if any. */
  function FirstBlueprint(index: Index, typeID: int): Option<Blueprint>
  {
    if typeID in index && |index[typeID]| > 0 then Some(index[typeID][0]) else None
  }

  /**
    Once every blueprint is indexed, a type has a first blueprint exactly
    when some blueprint manufactures it, and that blueprint does.
  */
  lemma FirstBlueprintExists(all: map<int, Blueprint>, order: seq<int>, typeID: int)
    requires Enumerates(all, order)
    ensures FirstBlueprint(IndexOf(all, order), typeID).Some? <==> exists id :: id in all && Makes(all[id], typeID)
    ensures FirstBlueprint(IndexOf(all, order), typeID).Some? ==>
      Among(all, FirstBlueprint(IndexOf(all, order), typeID).value) && Makes(FirstBlueprint(IndexOf(all, order), typeID).value, typeID)
  {
    var index := IndexOf(all, order);
    IndexSound(all, order);
    IndexComplete(all, order);
    if FirstBlueprint(index, typeID).Some? {
      var b := index[typeID][0];
      assert b in index[typeID];
      assert Among(all, b);
      var id :| id in all && all[id] == b;
      assert Makes(all[id], typeID);
    }
    if id :| id in all && Makes(all[id], typeID) {
      var p :| p in all[id].Products && p.TypeID == typeID;
      assert id in order;
      assert all[id] in index[typeID];
    }
  }

  /** Copies the entries of `src` into a fresh slice, one Component per entry, in order. */
  method CopyComponents(src: seq<Component>) returns (components: seq<Component>)
    ensures components == src
  {
    components := [];
    for i := 0 to |src|
      invariant components == src[..i]
    {
      assert src[..i + 1] == src[..i] + [src[i]];
      components := components + [Component(src[i].Quantity, src[i].TypeID)];
    }
    assert src[..|src|] == src;
  }

  /** `resolveBlueprintProducts`: the products of the first blueprint for the type, or nothing. */
  method ResolveBlueprintProducts(index: Index, typeID: int) returns (components: seq<Component>)
    ensures FirstBlueprint(index, typeID).None? ==> components == []
    ensures FirstBlueprint(index, typeID).Some? ==> components == FirstBlueprint(index, typeID).value.Products
  {
    if typeID !in index || |index[typeID]| == 0 {
      return [];
    }
    var bp := index[typeID][0];
    components := CopyComponents(bp.Products);
  }

  /** `resolveComponents`: the materials of the first blueprint for the type, or nothing. */
  method ResolveComponents(index: Index, typeID: int) returns (components: seq<Component>)
    ensures FirstBlueprint(index, typeID).None? ==> components == []
    ensures FirstBlueprint(index, typeID).Some? ==> components == FirstBlueprint(index, typeID).value.Materials
  {
    if typeID !in index || |index[typeID]| == 0 {
      return [];
    }
    var bp := index[typeID][0];
    components := CopyComponents(bp.Materials);
  }

  // ---- resolveBaseComponents ----

  /**
    `resolveBaseComponents`: nothing once `left` reaches 0 or when the type
    has no blueprint; otherwise the expansion of the first blueprint's
    materials one level down. Go's nil slice is the empty sequence.
  */
  function ResolveBase(index: Index, typeID: int, multiplier: int, left: nat): seq<Component>
    decreases left, 1
  {
    if left == 0 then []
    else match FirstBlueprint(index, typeID)
      case None => []
      case Some(bp) => Expand(index, bp.Materials, multiplier, left - 1)
  }

  /**
    Each material in order: its own expansion, with multiplier
    material.Quantity × multiplier and `left` already decremented, or the
    material itself as a leaf, with that quantity, when the expansion is empty.
  */
  function Expand(index: Index, mats: seq<Component>, multiplier: int, left: nat): seq<Component>
    decreases left, 2, |mats|
  {
    if mats == [] then []
    else
      var m := mats[0];
      var r := ResolveBase(index, m.TypeID, m.Quantity * multiplier, left);
      (if r == [] then [Component(m.Quantity * multiplier, m.TypeID)] else r) + Expand(index, mats[1..], multiplier, left)
  }

  lemma {:induction false} ExpandNonEmpty(index: Index, mats: seq<Component>, multiplier: int, left: nat)
    ensures Expand(index, mats, multiplier, left) == [] <==> mats == []
  {
  }

  /**
    The expansion is empty exactly when `left` is 0, the type has no
    blueprint, or its first blueprint has no materials; the caller then
    keeps the material as a leaf.
  */
  lemma ResolveBaseEmpty(index: Index, typeID: int, multiplier: int, left: nat)
    ensures ResolveBase(index, typeID, multiplier, left) == [] <==>
      left == 0 || FirstBlueprint(index, typeID).None? || FirstBlueprint(index, typeID).value.Materials == []
  {
    if left > 0 && FirstBlueprint(index, typeID).Some? {
      ExpandNonEmpty(index, FirstBlueprint(index, typeID).value.Materials, multiplier, left - 1);
    }
  }

  /**
    Every quantity of a component list times `k`: the Component counterpart
    of the scaling helper the buyback module applies to its leaf items.
  */
  function ScaleComponents(cs: seq<Component>, k: int): (r: seq<Component>)
    ensures |r| == |cs|
  {
    seq(|cs|, i requires 0 <= i < |cs| => cs[i].(Quantity := cs[i].Quantity * k))
  }

  /**
    The expansion is linear in the multiplier: every leaf quantity is the
    multiplier times the product of material quantities along its path.
  */
  lemma {:induction false} ResolveBaseScale(index: Index, typeID: int, multiplier: int, k: int, left: nat)
    requires k != 0
    ensures ResolveBase(index, typeID, multiplier * k, left) == ScaleComponents(ResolveBase(index, typeID, multiplier, left), k)
    decreases left, 1
  {
    if left > 0 && FirstBlueprint(index, typeID).Some? {
      ExpandScale(index, FirstBlueprint(index, typeID).value.Materials, multiplier, k, left - 1);
    }
  }

  lemma {:induction false} ExpandScale(index: Index, mats: seq<Component>, multiplier: int, k: int, left: nat)
    requires k != 0
    ensures Expand(index, mats, multiplier * k, left) == ScaleComponents(Expand(index, mats, multiplier, left), k)
    decreases left, 2, |mats|
  {
    if mats != [] {
      var m := mats[0];
      assert m.Quantity * (multiplier * k) == (m.Quantity * multiplier) * k;
      ResolveBaseScale(index, m.TypeID, m.Quantity * multiplier, k, left);
      ExpandScale(index, mats[1..], multiplier, k, left);
      var r := ResolveBase(index, m.TypeID, m.Quantity * multiplier, left);
      var head := if r == [] then [Component(m.Quantity * multiplier, m.TypeID)] else r;
      assert ScaleComponents(head + Expand(index, mats[1..], multiplier, left), k)
          == ScaleComponents(head, k) + ScaleComponents(Expand(index, mats[1..], multiplier, left), k);
    }
  }

  // ---- flattenComponents ----

  /** The type IDs that occur in `cs`. */
  function Ids(cs: seq<Component>): set<int>
  {
    if cs == [] then {} else Ids(cs[..|cs| - 1]) + {cs[|cs| - 1].TypeID}
  }

  /** The summed quantity of the entries of `cs` with type `typeID`. */
  function QtyOf(cs: seq<Component>, typeID: int): int
  {
    if cs == [] then 0
    else QtyOf(cs[..|cs| - 1], typeID) + (if cs[|cs| - 1].TypeID == typeID then cs[|cs| - 1].Quantity else 0)
  }

  lemma {:induction false} QtyOfAbsent(cs: seq<Component>, typeID: int)
    requires typeID !in Ids(cs)
    ensures QtyOf(cs, typeID) == 0
  {
    if cs != [] {
      QtyOfAbsent(cs[..|cs| - 1], typeID);
    }
  }

  function Total(cs: seq<Component>): int
  {
    if cs == [] then 0 else Total(cs[..|cs| - 1]) + cs[|cs| - 1].Quantity
  }

  /** `out` has one entry per type ID of `cs`, carrying that type's summed quantity. */
  ghost predicate FlattenedFrom(cs: seq<Component>, out: seq<Component>)
  {
    && (forall i :: 0 <= i < |out| ==> out[i].TypeID in Ids(cs) && out[i].Quantity == QtyOf(cs, out[i].TypeID))
    && (forall i, j :: 0 <= i < j < |out| ==> out[i].TypeID != out[j].TypeID)
    && (forall t :: t in Ids(cs) ==> exists i :: 0 <= i < |out| && out[i].TypeID == t)
  }

  /**
    `flattenComponents`. The source keys its map by the component with its
    quantity zeroed, which is the type ID alone.
  */
  method FlattenComponents(components: seq<Component>) returns (s: seq<Component>)
    ensures FlattenedFrom(components, s)
  {
    var m: map<int, int> := map[];
    for i := 0 to |components|
      invariant m.Keys == Ids(components[..i])
      invariant forall t :: t in m ==> m[t] == QtyOf(components[..i], t)
    {
      assert components[..i + 1][..i] == components[..i];
      var c := components[i];
      if c.TypeID !in m {
        QtyOfAbsent(components[..i], c.TypeID);
      }
      m := m[c.TypeID := (if c.TypeID in m then m[c.TypeID] else 0) + c.Quantity];
    }
    assert components[..|components|] == components;
    s := [];
    ghost var order: seq<int> := [];
    var keys := m.Keys;
    while keys != {}
      invariant keys <= m.Keys
      invariant |s| == |order|
      invariant forall i :: 0 <= i < |s| ==> s[i].TypeID == order[i] && order[i] in m && order[i] !in keys && s[i].Quantity == m[order[i]]
      invariant forall i, j :: 0 <= i < j < |s| ==> s[i].TypeID != s[j].TypeID
      invariant forall t :: t in m ==> t in keys || t in order
      decreases keys
    {
      ghost var someKey := Collections.MemberOf(keys);
      var t :| t in keys;
      s := s + [Component(m[t], t)];
      order := order + [t];
      keys := keys - {t};
    }
    forall t | t in Ids(components) ensures exists i :: 0 <= i < |s| && s[i].TypeID == t {
      var i :| 0 <= i < |order| && order[i] == t;
      assert s[i].TypeID == t;
    }
  }

  /** The sum over `ids` of the quantity `cs` carries for each. */
  function SumOver(ids: seq<int>, cs: seq<Component>): int
  {
    if ids == [] then 0 else SumOver(ids[..|ids| - 1], cs) + QtyOf(cs, ids[|ids| - 1])
  }

  function Occurrences(ids: seq<int>, t: int): nat
  {
    if ids == [] then 0 else Occurrences(ids[..|ids| - 1], t) + (if ids[|ids| - 1] == t then 1 else 0)
  }

  lemma {:induction false} SumOverSnoc(ids: seq<int>, cs: seq<Component>, c: Component)
    ensures SumOver(ids, cs + [c]) == SumOver(ids, cs) + Occurrences(ids, c.TypeID) * c.Quantity
  {
    assert (cs + [c])[..|cs|] == cs;
    if ids != [] {
      SumOverSnoc(ids[..|ids| - 1], cs, c);
    }
  }

  lemma {:induction false} OccurrencesDistinct(ids: seq<int>, t: int)
    requires forall i, j :: 0 <= i < j < |ids| ==> ids[i] != ids[j]
    ensures Occurrences(ids, t) == if t in ids then 1 else 0
  {
    if ids != [] {
      var init := ids[..|ids| - 1];
      OccurrencesDistinct(init, t);
      if t in init {
        var i :| 0 <= i < |init| && init[i] == t;
        assert ids[i] == t;
      }
      assert t in ids <==> t in init || ids[|ids| - 1] == t;
    }
  }

  /** Summing the per-type quantities over a repetition-free cover of the types gives the total. */
  lemma {:induction false} SumOverTotal(ids: seq<int>, cs: seq<Component>)
    requires forall i, j :: 0 <= i < j < |ids| ==> ids[i] != ids[j]
    requires forall t :: t in Ids(cs) ==> t in ids
    ensures SumOver(ids, cs) == Total(cs)
  {
    if cs == [] {
      SumOverZero(ids);
    } else {
      var init, c := cs[..|cs| - 1], cs[|cs| - 1];
      assert cs == init + [c];
      SumOverTotal(ids, init);
      SumOverSnoc(ids, init, c);
      OccurrencesDistinct(ids, c.TypeID);
    }
  }

  lemma {:induction false} SumOverZero(ids: seq<int>)
    ensures SumOver(ids, []) == 0
  {
    if ids != [] {
      SumOverZero(ids[..|ids| - 1]);
    }
  }

  function TypeIDs(cs: seq<Component>): (r: seq<int>)
    ensures |r| == |cs|
    ensures forall i :: 0 <= i < |cs| ==> r[i] == cs[i].TypeID
  {
    if cs == [] then [] else TypeIDs(cs[..|cs| - 1]) + [cs[|cs| - 1].TypeID]
  }

  lemma {:induction false} TotalIsSumOver(out: seq<Component>, cs: seq<Component>)
    requires forall i :: 0 <= i < |out| ==> out[i].Quantity == QtyOf(cs, out[i].TypeID)
    ensures Total(out) == SumOver(TypeIDs(out), cs)
  {
    if out != [] {
      var init := out[..|out| - 1];
      TotalIsSumOver(init, cs);
      assert TypeIDs(out)[..|out| - 1] == TypeIDs(init);
    }
  }

  /** Flattening preserves the total quantity. */
  lemma FlattenPreservesTotal(cs: seq<Component>, out: seq<Component>)
    requires FlattenedFrom(cs, out)
    ensures Total(out) == Total(cs)
  {
    var ids := TypeIDs(out);
    TotalIsSumOver(out, cs);
    forall t | t in Ids(cs) ensures t in ids {
      var i :| 0 <= i < |out| && out[i].TypeID == t;
      assert ids[i] == t;
    }
    SumOverTotal(ids, cs);
  }

  // ---- loadtypes ----

  /** The expansion depth loadtypes starts resolveBaseComponents with. */
  const BaseDepth: nat := 5

  /** The type loadtypes makes of a named entry, with base components `base`. */
  function Loaded(index: Index, id: int, t: SdeType, base: seq<Component>): EveType
  {
    var bp := FirstBlueprint(index, id);
    EveType(id, t.GroupID, t.MarketGroupID, 0, t.Name, t.Volume, 0.0, t.BasePrice, 0,
            if bp.Some? then bp.value.Products else [],
            if bp.Some? then bp.value.Materials else [],
            base, [])
  }

  /** `e` is the type loadtypes makes of the named entry under its ID. */
  ghost predicate LoadedType(allTypes: map<int, SdeType>, index: Index, e: EveType)
  {
    && e.ID in allTypes && allTypes[e.ID].Name != ""
    && e == Loaded(index, e.ID, allTypes[e.ID], e.BaseComponents)
    && FlattenedFrom(ResolveBase(index, e.ID, 1, BaseDepth), e.BaseComponents)
  }

  /** What the types loop of loadtypes produces from a given blueprint index. */
  ghost predicate LoadedFrom(allTypes: map<int, SdeType>, index: Index, types: seq<EveType>)
  {
    && (forall i :: 0 <= i < |types| ==> LoadedType(allTypes, index, types[i]))
    && (forall i, j :: 0 <= i < j < |types| ==> types[i].ID != types[j].ID)
    && (forall id :: id in allTypes && allTypes[id].Name != "" ==> exists i :: 0 <= i < |types| && types[i].ID == id)
  }

  /** The EveType literal of the types loop of `loadtypes`. */
  method Convert(index: Index, typeID: int, t: SdeType) returns (eveType: EveType)
    ensures eveType == Loaded(index, typeID, t, eveType.BaseComponents)
    ensures FlattenedFrom(ResolveBase(index, typeID, 1, BaseDepth), eveType.BaseComponents)
  {
    var products := ResolveBlueprintProducts(index, typeID);
    var comps := ResolveComponents(index, typeID);
    var base := FlattenComponents(ResolveBase(index, typeID, 1, BaseDepth));
    eveType := EveType(typeID, t.GroupID, t.MarketGroupID, 0, t.Name, t.Volume, 0.0, t.BasePrice, 0,
                       products, comps, base, []);
  }

  lemma CoversStep(types: seq<EveType>, visited: seq<int>, e: EveType)
    requires forall id :: id in visited ==> exists i :: 0 <= i < |types| && types[i].ID == id
    ensures forall id :: id in visited + [e.ID] ==> exists i :: 0 <= i < |types + [e]| && (types + [e])[i].ID == id
  {
    var types' := types + [e];
    forall id | id in visited + [e.ID] ensures exists i :: 0 <= i < |types'| && types'[i].ID == id {
      if id == e.ID {
        assert types'[|types|].ID == id;
      } else {
        var i :| 0 <= i < |types| && types[i].ID == id;
        assert types'[i] == types[i];
      }
    }
  }

  /** The types loop of `loadtypes`: unnamed entries are skipped, every other one becomes a type. */
  method LoadTypesFrom(allTypes: map<int, SdeType>, index: Index) returns (types: seq<EveType>)
    ensures LoadedFrom(allTypes, index, types)
  {
    types := [];
    ghost var visited: seq<int> := [];
    var keys := allTypes.Keys;
    while keys != {}
      invariant keys <= allTypes.Keys
      invariant forall i :: 0 <= i < |types| ==> LoadedType(allTypes, index, types[i]) && types[i].ID !in keys
      invariant forall i, j :: 0 <= i < j < |types| ==> types[i].ID != types[j].ID
      invariant forall id :: id in allTypes && allTypes[id].Name != "" ==> id in keys || id in visited
      invariant forall id :: id in visited ==> exists i :: 0 <= i < |types| && types[i].ID == id
      decreases keys
    {
      ghost var someKey := Collections.MemberOf(keys);
      var typeID :| typeID in keys;
      var t := allTypes[typeID];
      keys := keys - {typeID};
      if t.Name != "" {
        var eveType := Convert(index, typeID, t);
        CoversStep(types, visited, eveType);
        types := types + [eveType];
        visited := visited + [typeID];
      }
    }
  }

  /**
    `loadtypes` after decoding: blueprints are indexed by product, then
    every named type is converted.
  */
  method LoadTypes(allTypes: map<int, SdeType>, allBlueprints: map<int, Blueprint>)
    returns (types: seq<EveType>, index: Index, order: seq<int>)
    ensures Enumerates(allBlueprints, order) && index == IndexOf(allBlueprints, order)
    ensures LoadedFrom(allTypes, index, types)
  {
    var blueprintsByProductType;
    blueprintsByProductType, order := IndexBlueprints(allBlueprints);
    index := blueprintsByProductType;
    types := LoadTypesFrom(allTypes, blueprintsByProductType);
  }
}
