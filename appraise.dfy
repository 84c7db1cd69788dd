/**
  `StringToAppraisal` (appraisal.go:397-420): the pipeline from pasted text
  to a priced appraisal. The parser itself and the clock are not part of
  this model: their results arrive as parameters (`result`, `unparsed`,
  `now`).
*/
module Appraise {
  import opened Wrappers
  import opened Parsers
  import opened TypeDB
  import opened Items
  import Normalize
  import Pricing
  import Buyback

  /** The unparsed lines filterUnparsed keeps: those that are not blank. */
  ghost predicate KeptLines(unparsed: map<int, string>, kept: map<int, string>)
  {
    (forall n :: n in kept <==> n in unparsed && !Normalize.Blank(unparsed[n])) &&
    (forall n :: n in kept ==> kept[n] == unparsed[n])
  }

  /** priceAppraisalItems on a fresh slice of `items`, from zero totals and with no adjustments. */
  method PriceItems(app: App, market: string, items: seq<AppraisalItem>) returns (priced: ItemsAndTotals)
    ensures |priced.Items| == |items|
    ensures forall i :: 0 <= i < |items| ==> Pricing.PricedItem(app, market, map[], items[i], priced.Items[i])
    ensures priced.Totals == Pricing.AddedTotals(app, items, priced.Items)
  {
    var slice := new AppraisalItem[|items|](i requires 0 <= i < |items| => items[i]);
    assert slice[..] == items;
    var totals := Pricing.PriceAppraisalItems(app, slice, ZeroTotals, market, map[]);
    priced := ItemsAndTotals(totals, slice[..]);
  }

  /** The items of an accepted result: merged, priced, and bought back. */
  method PriceResult(app: App, ghost rank: map<int, nat>, market: string, result: ParserResult)
    returns (original: ItemsAndTotals, buyback: ItemsAndTotals, merged: seq<AppraisalItem>, unpriced: seq<AppraisalItem>)
    requires Buyback.Acyclic(app, rank)
    ensures Normalize.MergedFrom(Normalize.Flat(result), merged)
    ensures |original.Items| == |merged|
    ensures forall i :: 0 <= i < |merged| ==> Pricing.PricedItem(app, market, map[], merged[i], original.Items[i])
    ensures original.Totals == Pricing.AddedTotals(app, merged, original.Items)
    ensures Buyback.BuybackOf(app, rank, original.Items, buyback, unpriced)
  {
    var parsed := Normalize.ParserResultToAppraisalItems(result);
    merged := parsed;
    original := PriceItems(app, market, parsed);
    buyback, unpriced := Buyback.CalculateBuyback(app, rank, original.Items);
  }

  /**
    On a result findKind rejects, the appraisal carries only its raw text,
    creation time and unparsed lines, and the error is returned. Otherwise
    its kind is the name of the first largest sub-result, its original items
    are the merged items of the result priced in `market` with no
    adjustments, and its buyback is that of the priced items.
  */
  method StringToAppraisal(app: App, ghost rank: map<int, nat>, market: string, s: string, now: int,
                           result: ParserResult, unparsed: map<int, string>)
    returns (appraisal: Appraisal, err: Option<Normalize.KindError>, merged: seq<AppraisalItem>, unpriced: seq<AppraisalItem>)
    requires Buyback.Acyclic(app, rank)
    ensures appraisal.Raw == s && appraisal.Created == now
    ensures KeptLines(unparsed, appraisal.Unparsed)
    ensures err.Some? <==> !(result.MultiParserResult? && result.Results != [])
    ensures err.Some? ==> appraisal == NewAppraisal(s).(Created := now, Unparsed := appraisal.Unparsed)
    ensures err.None? ==>
      && result.MultiParserResult?
      && (exists j :: Normalize.FirstLargest(result.Results, j) && appraisal.Kind == Name(result.Results[j]))
      && appraisal.MarketName == market
      && Normalize.MergedFrom(Normalize.Flat(result), merged)
      && |appraisal.Original.Items| == |merged|
      && (forall i :: 0 <= i < |merged| ==> Pricing.PricedItem(app, market, map[], merged[i], appraisal.Original.Items[i]))
      && appraisal.Original.Totals == Pricing.AddedTotals(app, merged, appraisal.Original.Items)
      && Buyback.BuybackOf(app, rank, appraisal.Original.Items, appraisal.Buyback, unpriced)
  {
    appraisal := NewAppraisal(s).(Created := now);
    var kept := Normalize.FilterUnparsed(unparsed);
    appraisal := appraisal.(Unparsed := kept);
    var kind;
    kind, err := Normalize.FindKind(result);
    if err.Some? {
      merged, unpriced := [], [];
      return;
    }
    appraisal := appraisal.(Kind := kind, MarketName := market);
    var original, buyback;
    original, buyback, merged, unpriced := PriceResult(app, rank, market, result);
    appraisal := appraisal.(Original := original, Buyback := buyback);
  }
}
