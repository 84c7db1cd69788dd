/**
  Appraisal items, totals and the appraisal record (appraisal.go:18-134),
  with the per-item accessors that pricing and contract validation use.
*/
module Items {
  import opened Wrappers
  import opened PriceAlgebra

  /** The `Extra` ("meta") block: format-specific fields carried from the parser. */
  datatype Extra = Extra(
    Fitted: bool, Dropped: bool, Destroyed: bool, Location: string,
    PlayerName: string, Routed: bool, Volume: real, Distance: string,
    BPC: bool, BPCRuns: int)

  const NoExtra := Extra(false, false, false, "", "", false, 0.0, "", false, 0)

  datatype AppraisalItem = AppraisalItem(
    Name: string, TypeID: int, TypeName: string, TypeVolume: real,
    Quantity: int, Prices: Prices, Rejected: bool, Qualifier: string,
    Efficiency: real, Adjustment: real, Extra: Extra)

  /** `AppraisalItem{Name: name, Quantity: quantity}` with every other field zero. */
  function NewItem(name: string, quantity: int): AppraisalItem
  {
    AppraisalItem(name, 0, "", 0.0, quantity, ZeroPrices, false, "", 0.0, 0.0, NoExtra)
  }

  datatype Totals = Totals(Buy: real, Sell: real, Volume: real)

  const ZeroTotals := Totals(0.0, 0.0, 0.0)

  datatype ItemsAndTotals = ItemsAndTotals(Totals: Totals, Items: seq<AppraisalItem>)

  const EmptyItemsAndTotals := ItemsAndTotals(ZeroTotals, [])

  datatype User = User(CharacterID: int, CharacterName: string, CharacterOwnerHash: string)

  datatype Appraisal = Appraisal(
    ID: string, Created: int, Kind: string, MarketName: string,
    Original: ItemsAndTotals, Buyback: ItemsAndTotals, BuybackCap: real,
    Raw: string, Unparsed: map<int, string>, OwnerID: int, User: Option<User>,
    Private: bool, PrivateToken: string, UserName: string)

  /** The appraisal StringToAppraisal starts from: only the raw text is set. */
  function NewAppraisal(raw: string): Appraisal
  {
    Appraisal("", 0, "", "", EmptyItemsAndTotals, EmptyItemsAndTotals, 0.0,
              raw, map[], 0, None, false, "", "")
  }

  /** The resolved type name when there is one, the parsed name otherwise. */
  function DisplayName(i: AppraisalItem): (r: string)
    ensures r == i.TypeName || r == i.Name
    ensures i.TypeName != "" ==> r == i.TypeName
    ensures r == "" <==> i.TypeName == "" && i.Name == ""
  {
    if i.TypeName != "" then i.TypeName else i.Name
  }

  /** An adjustment of 0 means "none"; any other value is a percentage. */
  function EffectiveAdjustment(i: AppraisalItem): (r: real)
    ensures i.Adjustment == 0.0 ==> r == 1.0
    ensures i.Adjustment != 0.0 ==> r * 100.0 == i.Adjustment
  {
    if i.Adjustment == 0.0 then 1.0 else i.Adjustment / 100.0
  }

  function SellTotal(i: AppraisalItem): real
  {
    i.Quantity as real * EffectiveAdjustment(i) * i.Prices.Sell.Min
  }

  function BuyTotal(i: AppraisalItem): real
  {
    i.Quantity as real * EffectiveAdjustment(i) * i.Prices.Buy.Max
  }

  /** The lowest sell price, or the highest buy price when nothing is on sale. */
  function SingleRepresentativePrice(i: AppraisalItem): real
  {
    if i.Prices.Sell.Min != 0.0 then EffectiveAdjustment(i) * i.Prices.Sell.Min
    else EffectiveAdjustment(i) * i.Prices.Buy.Max
  }

  function RepresentativePrice(i: AppraisalItem): real
  {
    i.Quantity as real * SingleRepresentativePrice(i)
  }

  /** An adjustment of 100% prices an item exactly as no adjustment does. */
  lemma HundredPercentIsNoAdjustment(i: AppraisalItem)
    ensures BuyTotal(i.(Adjustment := 100.0)) == BuyTotal(i.(Adjustment := 0.0))
    ensures SellTotal(i.(Adjustment := 100.0)) == SellTotal(i.(Adjustment := 0.0))
  {
  }

  /** The representative price of a stack is its sell total, or its buy total when the sell side is empty. */
  lemma RepresentativeIsSellOrBuyTotal(i: AppraisalItem)
    ensures RepresentativePrice(i) == if i.Prices.Sell.Min != 0.0 then SellTotal(i) else BuyTotal(i)
  {
    var q, e := i.Quantity as real, EffectiveAdjustment(i);
    assert q * (e * i.Prices.Sell.Min) == q * e * i.Prices.Sell.Min;
    assert q * (e * i.Prices.Buy.Max) == q * e * i.Prices.Buy.Max;
  }

  /** An item without prices adds nothing to either total. */
  lemma UnpricedContributesNothing(i: AppraisalItem)
    requires i.Prices == ZeroPrices
    ensures BuyTotal(i) == 0.0 && SellTotal(i) == 0.0 && RepresentativePrice(i) == 0.0
  {
  }
}
