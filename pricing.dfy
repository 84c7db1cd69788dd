/**
  The pricing pass (appraisal.go:264-462 and 638-648): the compressed-ore
  yield table and the ore-aware price lookup, the blueprint-copy path that
  always prices at zero, the in-place pricing of an item array with its
  running totals, OnlyCompressedOre and priceByComponents.

  The adjectives of an ore sit in a Go map, whose iteration order is not
  specified; the lookup below picks them with `:|`, and its contract
  (AdjustedPrice) allows whichever matching adjective comes first.
*/
module Pricing {
  import opened Wrappers
  import Strs
  import Collections
  import opened PriceAlgebra
  import opened TypeDB
  import opened Items

  // ---- the ore table ----

  datatype OreYield = OreYield(Name: string, Yields: map<string, nat>)

  /** `AllOreYields`, in source order: an ore family, its variant adjectives and their yield bonus in percent. */
  const AllOreYields: seq<OreYield> := [
    OreYield("Arkonor", map["Crimson" := 5, "Prime" := 10, "Flawless" := 15]),
    OreYield("Bistot", map["Triclinic" := 5, "Monoclinic" := 10, "Cubic" := 15]),
    OreYield("Crokite", map["Sharp" := 5, "Crystalline" := 10, "Pellucid" := 15]),
    OreYield("Dark", map["Onyx" := 5, "Obsidian" := 10, "Jet" := 15]),
    OreYield("Gneiss", map["Iridescent" := 5, "Prismatic" := 10, "Brilliant" := 15]),
    OreYield("Hedbergite", map["Vitric" := 5, "Glazed" := 10, "Lustrous" := 15]),
    OreYield("Hemorphite", map["Vivid" := 5, "Radiant" := 10, "Scintillating" := 15]),
    OreYield("Jaspet", map["Pure" := 5, "Pristine" := 10, "Immaculate" := 15]),
    OreYield("Kernite", map["Luminous" := 5, "Fiery" := 10, "Resplendant" := 15]),
    OreYield("Mercoxit", map["Magma" := 5, "Vitreous" := 10]),
    OreYield("Omber", map["Silvery" := 5, "Golden" := 10, "Platinoid" := 15]),
    OreYield("Plagioclase", map["Azure" := 5, "Rich" := 10, "Sparkling" := 15]),
    OreYield("Pyroxeres", map["Solid" := 5, "Viscous" := 10, "Opulent" := 15]),
    OreYield("Scordite", map["Condensed" := 5, "Massive" := 10, "Glossy" := 15]),
    OreYield("Spodumain", map["Bright" := 5, "Gleaming" := 10, "Dazzling" := 15]),
    OreYield("Veldspar", map["Concentrated" := 5, "Dense" := 10, "Stable" := 15]),
    OreYield("Bitumens", map["Brimful" := 15, "Glistening" := 100]),
    OreYield("Carnotite", map["Replete" := 15, "Glowing" := 100]),
    OreYield("Chromite", map["Lavish" := 15, "Shimmering" := 100]),
    OreYield("Cinnabar", map["Replete" := 15, "Glowing" := 100]),
    OreYield("Cobaltite", map["Copious" := 15, "Twinkling" := 100]),
    OreYield("Coesite", map["Brimful" := 15, "Glistening" := 100]),
    OreYield("Euxenite", map["Copious" := 15, "Twinkling" := 100]),
    OreYield("Loparite", map["Bountiful" := 15, "Shining" := 100]),
    OreYield("Monazite", map["Bountiful" := 15, "Shining" := 100]),
    OreYield("Otavite", map["Lavish" := 15, "Shimmering" := 100]),
    OreYield("Pollucite", map["Replete" := 15, "Glowing" := 100]),
    OreYield("Scheelite", map["Copious" := 15, "Twinkling" := 100]),
    OreYield("Sperrylite", map["Lavish" := 15, "Shimmering" := 100]),
    OreYield("Sylvite", map["Brimful" := 15, "Glistening" := 100]),
    OreYield("Titanite", map["Copious" := 15, "Twinkling" := 100]),
    OreYield("Vanadinite", map["Lavish" := 15, "Shimmering" := 100]),
    OreYield("Xenotime", map["Bountiful" := 15, "Shining" := 100]),
    OreYield("Ytterbite", map["Bountiful" := 15, "Shining" := 100]),
    OreYield("Zeolites", map["Brimful" := 15, "Glistening" := 100]),
    OreYield("Zircon", map["Replete" := 15, "Glowing" := 100])
  ]

  // ---- GetAdjustedPriceForItem ----

  /** Names starting with "Compressed" are priced from the compressed base ore. */
  function OrePrefix(name: string): string
  {
    if Strs.HasPrefix(name, "Compressed") then "Compressed " else ""
  }

  /** The name holds one of the ore's adjectives. */
  predicate HasAdjective(name: string, ore: OreYield)
  {
    exists adj :: adj in ore.Yields && Strs.Contains(name, adj)
  }

  /** The ore decides the price: the name ends in the ore, holds one of its adjectives, and the base ore type resolves. */
  predicate OreApplies(app: App, name: string, ore: OreYield)
  {
    Strs.HasSuffix(name, ore.Name) && HasAdjective(name, ore) &&
    GetType(app, OrePrefix(name) + ore.Name).Some?
  }

  /** The first entry of an ore table, from index `from` on, that decides the price. */
  function FirstOre(app: App, ores: seq<OreYield>, name: string, from: nat): (r: Option<nat>)
    ensures r.Some? ==> from <= r.value < |ores| && OreApplies(app, name, ores[r.value])
    ensures r.Some? ==> forall o :: from <= o < r.value ==> !OreApplies(app, name, ores[o])
    ensures r.None? ==> forall o :: from <= o < |ores| ==> !OreApplies(app, name, ores[o])
    decreases |ores| - from
  {
    if from >= |ores| then None
    else if OreApplies(app, name, ores[from]) then Some(from)
    else FirstOre(app, ores, name, from + 1)
  }

  /** The base ore's market price raised by the adjective's bonus, with its basis spelled "<prefix><ore> +<m>%". */
  function OrePrice(app: App, market: string, name: string, ore: OreYield, modifier: nat): Prices
    requires GetType(app, OrePrefix(name) + ore.Name).Some?
  {
    var t := GetType(app, OrePrefix(name) + ore.Name).value;
    Mul(PriceOrZero(app, market, t.ID), 1.0 + modifier as real / 100.0)
      .(Basis := OrePrefix(name) + ore.Name + " +" + Strs.NatToString(modifier) + "%")
  }

  /**
    What the ore-aware lookup over the table `ores` may return: when some
    ore decides the price, the bonus of one of that ore's adjectives found
    in the name (the first the map iteration meets); otherwise the plain
    price of the item's type, zero when the market has none.
  */
  predicate AdjustedPriceIn(app: App, ores: seq<OreYield>, market: string, item: AppraisalItem, r: Prices)
  {
    match FirstOre(app, ores, item.Name, 0)
    case Some(o) =>
      exists adj :: adj in ores[o].Yields && Strs.Contains(item.Name, adj) &&
        r == OrePrice(app, market, item.Name, ores[o], ores[o].Yields[adj])
    case None => r == PriceOrZero(app, market, item.TypeID)
  }

  /** What GetAdjustedPriceForItem may return, with the ore table of the source. */
  predicate AdjustedPrice(app: App, market: string, item: AppraisalItem, r: Prices)
  {
    AdjustedPriceIn(app, AllOreYields, market, item, r)
  }

  method GetAdjustedPriceForItem(app: App, market: string, item: AppraisalItem) returns (prices: Prices)
    ensures AdjustedPrice(app, market, item, prices)
  {
    prices := LookUpWithOres(app, AllOreYields, market, item);
  }

  /** The loops of GetAdjustedPriceForItem, over the ore table they are given. */
  method LookUpWithOres(app: App, ores: seq<OreYield>, market: string, item: AppraisalItem) returns (prices: Prices)
    ensures AdjustedPriceIn(app, ores, market, item, prices)
  {
    var prefix := if Strs.HasPrefix(item.Name, "Compressed") then "Compressed " else "";
    for o := 0 to |ores|
      invariant forall o' :: 0 <= o' < o ==> !OreApplies(app, item.Name, ores[o'])
    {
      var ore := ores[o];
      if Strs.HasSuffix(item.Name, ore.Name) {
        var adjectives := ore.Yields.Keys;
        while adjectives != {}
          invariant adjectives <= ore.Yields.Keys
          invariant GetType(app, prefix + ore.Name).Some? ==>
            forall a :: a in ore.Yields && a !in adjectives ==> !Strs.Contains(item.Name, a)
          decreases adjectives
        {
          ghost var someAdjective := Collections.MemberOf(adjectives);
          var adjective :| adjective in adjectives;
          var modifier := ore.Yields[adjective];
          if Strs.Contains(item.Name, adjective) {
            var t := GetType(app, prefix + ore.Name);
            if t.Some? {
              prices := PriceOrZero(app, market, t.value.ID);
              prices := Mul(prices, 1.0 + modifier as real / 100.0);
              prices := prices.(Basis := prefix + ore.Name + " +" + Strs.NatToString(modifier) + "%");
              assert OreApplies(app, item.Name, ore);
              FirstOreIs(app, ores, item.Name, o);
              return;
            }
          }
          adjectives := adjectives - {adjective};
        }
      }
    }
    prices := PriceOrZero(app, market, item.TypeID);
  }

  lemma FirstOreIs(app: App, ores: seq<OreYield>, name: string, o: nat)
    requires o < |ores| && OreApplies(app, name, ores[o])
    requires forall o' :: 0 <= o' < o ==> !OreApplies(app, name, ores[o'])
    ensures FirstOre(app, ores, name, 0) == Some(o)
  {
  }

  /**
    The iteration order of the adjectives matters only when the name holds
    two adjectives of the deciding ore: with at most one, the price is
    determined.
  */
  lemma AdjustedPriceDetermined(app: App, market: string, item: AppraisalItem, r1: Prices, r2: Prices)
    requires AdjustedPrice(app, market, item, r1) && AdjustedPrice(app, market, item, r2)
    requires forall o, a, b :: 0 <= o < |AllOreYields| && a in AllOreYields[o].Yields && b in AllOreYields[o].Yields ==>
      (Strs.Contains(item.Name, a) && Strs.Contains(item.Name, b) ==> a == b)
    ensures r1 == r2
  {
    var ores := AllOreYields;
    match FirstOre(app, ores, item.Name, 0) {
      case Some(o) =>
        var a :| a in ores[o].Yields && Strs.Contains(item.Name, a) &&
          r1 == OrePrice(app, market, item.Name, ores[o], ores[o].Yields[a]);
        var b :| b in ores[o].Yields && Strs.Contains(item.Name, b) &&
          r2 == OrePrice(app, market, item.Name, ores[o], ores[o].Yields[b]);
      case None =>
    }
  }

  /** A name that ends in no ore family is priced by a plain lookup of its type. */
  lemma NoOreMeansPlainPrice(app: App, market: string, item: AppraisalItem, r: Prices)
    requires forall o :: 0 <= o < |AllOreYields| ==> !Strs.HasSuffix(item.Name, AllOreYields[o].Name)
    ensures AdjustedPrice(app, market, item, r) <==> r == PriceOrZero(app, market, item.TypeID)
  {
  }

  // ---- PricesForItem ----

  /** What PricesForItem returns: zero prices for a blueprint copy, the adjusted market price otherwise. */
  predicate PricesFor(app: App, market: string, item: AppraisalItem, r: Prices)
  {
    if item.Extra.BPC then r == ZeroPrices else AdjustedPrice(app, market, item, r)
  }

  /** How each priced entry enters a running sum. */
  datatype Valuation = AsListed | AtSellMin | AtCheaperSide

  function Valuate(p: Prices, v: Valuation): Prices
  {
    match v
    case AsListed => p
    case AtSellMin => Set(p, p.Sell.Min)
    case AtCheaperSide => Set(p, if p.Sell.Min <= p.Buy.Max then p.Sell.Min else p.Buy.Max)
  }

  /**
    The running sum of the loops in PricesForItem and priceByComponents:
    starting from `start`, each component with a price in `market` adds its
    valuated price times its quantity; components without one are skipped.
  */
  function Valued(app: App, market: string, cs: seq<Component>, start: Prices, v: Valuation): Prices
  {
    if cs == [] then start
    else
      var acc := Valued(app, market, cs[..|cs| - 1], start, v);
      var c := cs[|cs| - 1];
      match GetPrice(app, market, c.TypeID)
      case None => acc
      case Some(p) => Add(acc, Mul(Valuate(p, v), c.Quantity as real))
  }

  /** The sum over a list splits into the sums over its parts. */
  lemma {:induction false} ValuedAppend(app: App, market: string, a: seq<Component>, b: seq<Component>, start: Prices, v: Valuation)
    ensures Valued(app, market, a + b, start, v) == Add(Valued(app, market, a, start, v), Valued(app, market, b, ZeroPrices, v))
    decreases |b|
  {
    if b == [] {
      assert a + b == a;
      AddZero(Valued(app, market, a, start, v));
    } else {
      var b' := b[..|b| - 1];
      assert (a + b)[..|a + b| - 1] == a + b';
      ValuedAppend(app, market, a, b', start, v);
      var c := b[|b| - 1];
      match GetPrice(app, market, c.TypeID) {
        case None =>
        case Some(p) =>
          AddAssoc(Valued(app, market, a, start, v), Valued(app, market, b', ZeroPrices, v), Mul(Valuate(p, v), c.Quantity as real));
      }
    }
  }

  /** The sum keeps the timestamp, strategy and basis it started from. */
  lemma {:induction false} ValuedKeepsMetadata(app: App, market: string, cs: seq<Component>, start: Prices, v: Valuation)
    ensures Valued(app, market, cs, start, v).Strategy == start.Strategy
    ensures Valued(app, market, cs, start, v).Updated == start.Updated
    ensures Valued(app, market, cs, start, v).Basis == start.Basis
  {
    if cs != [] {
      ValuedKeepsMetadata(app, market, cs[..|cs| - 1], start, v);
    }
  }

  /**
    The blueprint-copy estimate of PricesForItem: the products at their
    lowest sell price in the market ("universe" replaced by "jita"), and the
    components at the cheaper of lowest sell and highest buy, less 9%. The
    source only logs the two sums.
  */
  method EstimateBlueprintCopy(app: App, market: string, bpType: EveType) returns (marketPrices: Prices, manufacturedPrices: Prices)
    ensures marketPrices == Valued(app, if market == "universe" then "jita" else market, bpType.BlueprintProducts, ZeroPrices.(Strategy := "bpc"), AtSellMin)
    ensures manufacturedPrices == Mul(Valued(app, market, bpType.Components, ZeroPrices.(Strategy := "pbc"), AtCheaperSide), 0.91)
  {
    var marketMarket := market;
    if marketMarket == "universe" {
      marketMarket := "jita";
    }
    var products := bpType.BlueprintProducts;
    marketPrices := ZeroPrices.(Strategy := "bpc");
    for i := 0 to |products|
      invariant marketPrices == Valued(app, marketMarket, products[..i], ZeroPrices.(Strategy := "bpc"), AtSellMin)
    {
      assert products[..i + 1][..i] == products[..i];
      var p := GetPrice(app, marketMarket, products[i].TypeID);
      if p.None? {
        continue;
      }
      marketPrices := Add(marketPrices, Mul(Set(p.value, p.value.Sell.Min), products[i].Quantity as real));
    }
    assert products[..|products|] == products;
    var components := bpType.Components;
    manufacturedPrices := ZeroPrices.(Strategy := "pbc");
    for i := 0 to |components|
      invariant manufacturedPrices == Valued(app, market, components[..i], ZeroPrices.(Strategy := "pbc"), AtCheaperSide)
    {
      assert components[..i + 1][..i] == components[..i];
      var p := GetPrice(app, market, components[i].TypeID);
      if p.None? {
        continue;
      }
      var cheaper := if p.value.Sell.Min <= p.value.Buy.Max then p.value.Sell.Min else p.value.Buy.Max;
      manufacturedPrices := Add(manufacturedPrices, Mul(Set(p.value, cheaper), components[i].Quantity as real));
    }
    assert components[..|components|] == components;
    manufacturedPrices := Mul(manufacturedPrices, 0.91);
  }

  /**
    `PricesForItem`: a blueprint copy is estimated (the estimate is only
    logged) and priced at zero, also when its blueprint type is unknown;
    anything else gets the adjusted market price. The error result is
    always nil and is not modelled.
  */
  method PricesForItem(app: App, market: string, item: AppraisalItem) returns (prices: Prices)
    ensures PricesFor(app, market, item, prices)
  {
    if item.Extra.BPC {
      var tName := Strs.TrimSuffix(item.TypeName, " Blueprint");
      var bpType := GetType(app, tName);
      if bpType.None? {
        return ZeroPrices;
      }
      var marketPrices, manufacturedPrices := EstimateBlueprintCopy(app, market, bpType.value);
      return ZeroPrices;
    }
    prices := GetAdjustedPriceForItem(app, market, item);
  }

  // ---- priceAppraisalItems ----

  function PackagedOrVolume(t: EveType): real
  {
    if t.PackagedVolume != 0.0 then t.PackagedVolume else t.Volume
  }

  /** The item once its name resolved to `t`: type, display name, volume, and accepted for buyback. */
  function Identified(it: AppraisalItem, t: EveType): AppraisalItem
  {
    it.(TypeID := t.ID, TypeName := t.Name, TypeVolume := PackagedOrVolume(t), Rejected := false)
  }

  /** The adjustment a resolved item ends with: set only when the base adjustment is nonzero, to the type's own entry if it has one. */
  function AdjustmentFor(app: App, adjustments: map<int, real>, t: EveType, current: real): real
  {
    var base := if app.BaseAdjustmentID in adjustments then adjustments[app.BaseAdjustmentID] else 0.0;
    if base != 0.0 then (if t.ID in adjustments then adjustments[t.ID] else base) else current
  }

  /**
    One step of priceAppraisalItems: an item whose name is not a type stays
    as it was; one that resolves is identified, priced (the prices being
    those PricesForItem may return) and gets its adjustment.
  */
  predicate PricedItem(app: App, market: string, adjustments: map<int, real>, before: AppraisalItem, after: AppraisalItem)
  {
    match GetType(app, before.Name)
    case None => after == before
    case Some(t) =>
      PricesFor(app, market, Identified(before, t), after.Prices) &&
      after == Identified(before, t).(Prices := after.Prices, Adjustment := AdjustmentFor(app, adjustments, t, before.Adjustment))
  }

  /** What an item adds to the totals. */
  function Contribution(it: AppraisalItem): Totals
  {
    Totals(BuyTotal(it), SellTotal(it), it.TypeVolume * it.Quantity as real)
  }

  function Plus(a: Totals, b: Totals): Totals
  {
    Totals(a.Buy + b.Buy, a.Sell + b.Sell, a.Volume + b.Volume)
  }

  /** The contributions of the priced items whose names resolved. */
  function AddedTotals(app: App, before: seq<AppraisalItem>, after: seq<AppraisalItem>): Totals
    requires |before| == |after|
  {
    if before == [] then ZeroTotals
    else
      var n := |before| - 1;
      var rest := AddedTotals(app, before[..n], after[..n]);
      if GetType(app, before[n].Name).Some? then Plus(rest, Contribution(after[n])) else rest
  }

  /** The body of the pricing loop for an item whose name resolved to `t`. */
  method PriceItem(app: App, market: string, adjustments: map<int, real>, it: AppraisalItem, t: EveType)
    returns (item: AppraisalItem)
    requires GetType(app, it.Name) == Some(t)
    ensures PricedItem(app, market, adjustments, it, item)
  {
    item := it.(TypeID := t.ID, TypeName := t.Name);
    if t.PackagedVolume != 0.0 {
      item := item.(TypeVolume := t.PackagedVolume);
    } else {
      item := item.(TypeVolume := t.Volume);
    }
    item := item.(Rejected := false);
    var prices := PricesForItem(app, market, item);
    item := item.(Prices := prices);
    var baseAdjustment := if app.BaseAdjustmentID in adjustments then adjustments[app.BaseAdjustmentID] else 0.0;
    if baseAdjustment != 0.0 {
      if t.ID in adjustments {
        item := item.(Adjustment := adjustments[t.ID]);
      } else {
        item := item.(Adjustment := baseAdjustment);
      }
    }
  }

  /**
    `priceAppraisalItems`: prices every item of the array in place and
    returns the totals grown by what the resolved items contribute.
  */
  method PriceAppraisalItems(app: App, items: array<AppraisalItem>, totals: Totals, market: string, adjustments: map<int, real>)
    returns (newTotals: Totals)
    modifies items
    ensures forall i :: 0 <= i < items.Length ==> PricedItem(app, market, adjustments, old(items[i]), items[i])
    ensures newTotals == Plus(totals, AddedTotals(app, old(items[..]), items[..]))
  {
    ghost var before := items[..];
    newTotals := totals;
    for i := 0 to items.Length
      invariant PricedUpTo(app, market, adjustments, before, items[..], i)
      invariant newTotals == Plus(totals, AddedTotals(app, before[..i], items[..i]))
    {
      ghost var current := items[..];
      assert items[i] == before[i] by {
        assert current[i..][0] == before[i..][0];
      }
      var found := GetType(app, items[i].Name);
      if found.None? {
        PricedUpToStep(app, market, adjustments, before, current, i, items[i]);
        assert current[i := items[i]] == current;
        TotalsStep(app, totals, before, current, i, newTotals);
        continue;
      }
      var item := PriceItem(app, market, adjustments, items[i], found.value);
      items[i] := item;
      assert items[..] == current[i := item];
      PricedUpToStep(app, market, adjustments, before, current, i, item);
      assert items[..i] == current[..i];
      TotalsStep(app, totals, before, items[..], i, newTotals);
      // totals.Buy += …; totals.Sell += …; totals.Volume += …
      newTotals := Plus(newTotals, Contribution(item));
    }
    assert before[..items.Length] == before;
    assert items[..items.Length] == items[..];
  }

  /** The first `i` items are priced and the rest are as they were. */
  ghost predicate PricedUpTo(app: App, market: string, adjustments: map<int, real>, before: seq<AppraisalItem>, after: seq<AppraisalItem>, i: nat)
  {
    && |after| == |before| && i <= |before|
    && after[i..] == before[i..]
    && forall j :: 0 <= j < i ==> PricedItem(app, market, adjustments, before[j], after[j])
  }

  lemma PricedUpToStep(app: App, market: string, adjustments: map<int, real>, before: seq<AppraisalItem>, after: seq<AppraisalItem>, i: nat, item: AppraisalItem)
    requires PricedUpTo(app, market, adjustments, before, after, i) && i < |before|
    requires PricedItem(app, market, adjustments, before[i], item)
    ensures PricedUpTo(app, market, adjustments, before, after[i := item], i + 1)
  {
    assert after[i := item][i + 1..] == after[i + 1..];
    assert after[i + 1..] == after[i..][1..];
  }

  /** How the running totals of the pricing loop grow by one item. */
  lemma TotalsStep(app: App, totals: Totals, before: seq<AppraisalItem>, after: seq<AppraisalItem>, i: nat, acc: Totals)
    requires |before| == |after| && i < |before|
    requires acc == Plus(totals, AddedTotals(app, before[..i], after[..i]))
    ensures GetType(app, before[i].Name).None? ==> acc == Plus(totals, AddedTotals(app, before[..i + 1], after[..i + 1]))
    ensures GetType(app, before[i].Name).Some? ==>
      Plus(acc, Contribution(after[i])) == Plus(totals, AddedTotals(app, before[..i + 1], after[..i + 1]))
  {
    assert before[..i + 1] == before[..i] + [before[i]];
    assert after[..i + 1] == after[..i] + [after[i]];
    AddedTotalsSnoc(app, before[..i], after[..i], before[i], after[i]);
    PlusAssoc(totals, AddedTotals(app, before[..i], after[..i]), Contribution(after[i]));
  }

  lemma PlusAssoc(a: Totals, b: Totals, c: Totals)
    ensures Plus(Plus(a, b), c) == Plus(a, Plus(b, c))
  {
  }

  lemma AddedTotalsSnoc(app: App, before: seq<AppraisalItem>, after: seq<AppraisalItem>, b: AppraisalItem, a: AppraisalItem)
    requires |before| == |after|
    ensures AddedTotals(app, before + [b], after + [a]) ==
      if GetType(app, b.Name).Some? then Plus(AddedTotals(app, before, after), Contribution(a)) else AddedTotals(app, before, after)
  {
    assert (before + [b])[..|before|] == before;
    assert (after + [a])[..|after|] == after;
  }

  /** With no adjustments (what an appraisal is priced with), no adjustment changes. */
  lemma EmptyAdjustmentsKeepAdjustment(app: App, market: string, before: AppraisalItem, after: AppraisalItem)
    requires PricedItem(app, market, map[], before, after)
    ensures after.Adjustment == before.Adjustment
  {
  }

  /** A resolved blueprint copy adds nothing to the buy and sell totals. */
  lemma BlueprintCopyAddsNoValue(app: App, market: string, adjustments: map<int, real>, before: AppraisalItem, after: AppraisalItem)
    requires PricedItem(app, market, adjustments, before, after) && before.Extra.BPC
    requires GetType(app, before.Name).Some?
    ensures Contribution(after).Buy == 0.0 && Contribution(after).Sell == 0.0
  {
    UnpricedContributesNothing(after);
  }

  // ---- OnlyCompressedOre and priceByComponents ----

  /** Every item's name starts with "Compressed" (vacuously so for none). */
  predicate CompressedOnly(items: seq<AppraisalItem>)
  {
    forall i :: 0 <= i < |items| ==> Strs.HasPrefix(items[i].Name, "Compressed")
  }

  /** `OnlyCompressedOre`: the scan of the original items for a name without the "Compressed" prefix. */
  method OnlyCompressedOre(appraisal: Appraisal) returns (r: bool)
    ensures r == CompressedOnly(appraisal.Original.Items)
    ensures !r <==> exists i :: 0 <= i < |appraisal.Original.Items| && !Strs.HasPrefix(appraisal.Original.Items[i].Name, "Compressed")
  {
    var items := appraisal.Original.Items;
    for i := 0 to |items|
      invariant forall j :: 0 <= j < i ==> Strs.HasPrefix(items[j].Name, "Compressed")
    {
      if !Strs.HasPrefix(items[i].Name, "Compressed") {
        return false;
      }
    }
    return true;
  }

  /** `priceByComponents`: the sum of the component prices scaled by their quantities, components without a price skipped. */
  method PriceByComponents(t: EveType, app: App, market: string) returns (prices: Prices)
    ensures prices == Valued(app, market, t.Components, ZeroPrices, AsListed)
  {
    prices := ZeroPrices;
    var cs := t.Components;
    for i := 0 to |cs|
      invariant prices == Valued(app, market, cs[..i], ZeroPrices, AsListed)
    {
      assert cs[..i + 1][..i] == cs[..i];
      var p := GetPrice(app, market, cs[i].TypeID);
      if p.None? {
        continue;
      }
      prices := Add(prices, Mul(p.value, cs[i].Quantity as real));
    }
    assert cs[..|cs|] == cs;
  }
}
