/**
  Buyback contract evaluation (esi/contracts.go:88-288): finding the
  in-game contract whose title names an appraisal, and validating it in
  stages against the appraisal. The ESI calls and lookups (the location of
  a station, the region and alliance of a system, the items of a contract),
  the buyback offer, the configured volume cap and RFC 3339 date parsing
  are not part of this model: their results arrive in `Env`. Dates are
  parsed to whole seconds. Error messages are modelled by the error they
  report rather than by their formatted text.
*/
module Contracts {
  import opened Wrappers
  import opened Strs
  import opened TypeDB
  import opened Items
  import Collections
  import Pricing

  const ValidAssignee := 98497376
  const ValidAlliance := 498125261
  const ValidRegion := 10000039
  const UnrestrictedSystem := 30003144

  /** The contract type and availability a buyback contract must have. */
  const ItemExchange := "item_exchange"
  const Personal := "personal"

  /** Two weeks, the shortest contract duration accepted, in seconds. */
  const MinDuration := 2 * 7 * 24 * 3600

  /** The fields of an ESI contract that the validation reads or writes. */
  datatype Contract = Contract(
    ContractID: int, AssigneeID: int, StartLocationID: int,
    Type: string, Status: string, Title: string, Availability: string,
    DateIssued: string, DateExpired: string, Price: real, Reward: real, Volume: real,
    SystemID: int, LocationName: string)

  datatype ContractItem = ContractItem(RecordID: int, TypeID: int, Quantity: int)

  datatype ContractError =
    | RejectedItem(name: string)
    | TitleMismatch(title: string)
    | NotItemExchange
    | NotPrivate
    | WrongAssignee
    | NonZeroReward
    | PriceNotOffer
    | VolumeMismatch(expectedVolume: real, foundVolume: real)
    | DateError(msg: string)
    | TooShort
    | LocationNotFound
    | NotInRegion
    | NotInAlliance
    | ItemsFetchError(msg: string)
    | QuantityMismatch(expectedQuantity: int, itemName: string, foundQuantity: int)
    | UnexpectedItem(typeName: string)
    | UnknownItem
    | TooLarge(volume: real, max: real)

  datatype ContractStatus = ContractStatus(Title: string, Summary: string, Contract: Option<Contract>, Errors: seq<ContractError>)

  /** The answers of the services and settings the validation consults. */
  datatype Env = Env(
    FindLocation: int -> Option<(int, string)>,
    RegionOf: int -> int,
    AllianceOf: int -> int,
    ItemsOf: (int, int) -> Result<seq<ContractItem>, string>,
    ParseDate: string -> Result<int, string>,
    Offer: real,
    MaxVolume: real,
    Catalog: App)

  // ---- BuybackTitle / findMatchingContract ----

  function BuybackTitle(characterName: string, appraisalID: string): string
  {
    "Buyback for " + characterName + ": " + appraisalID
  }

  lemma {:induction false} ContainsSuffix(pre: string, sub: string)
    ensures Contains(pre + sub, sub)
    decreases |pre|
  {
    if pre == [] {
      assert pre + sub == sub;
      assert HasPrefix(sub, sub);
    } else {
      assert (pre + sub)[1..] == pre[1..] + sub;
      ContainsSuffix(pre[1..], sub);
    }
  }

  /** The generated title ends with the appraisal ID, so a contract titled with it is found by that ID. */
  lemma BuybackTitleNamesAppraisal(characterName: string, appraisalID: string)
    ensures HasSuffix(BuybackTitle(characterName, appraisalID), appraisalID)
    ensures Contains(BuybackTitle(characterName, appraisalID), appraisalID)
  {
    var pre := "Buyback for " + characterName + ": ";
    assert BuybackTitle(characterName, appraisalID) == pre + appraisalID;
    ContainsSuffix(pre, appraisalID);
  }

  /** `findMatchingContract`: the first contract whose title contains the appraisal ID. */
  function FindMatchingContract(appraisalID: string, contracts: seq<Contract>): (r: Option<Contract>)
    ensures r.None? <==> forall i :: 0 <= i < |contracts| ==> !Contains(contracts[i].Title, appraisalID)
    ensures r.Some? ==> exists i ::
      && 0 <= i < |contracts| && contracts[i] == r.value
      && Contains(r.value.Title, appraisalID)
      && forall j :: 0 <= j < i ==> !Contains(contracts[j].Title, appraisalID)
  {
    if contracts == [] then None
    else if Contains(contracts[0].Title, appraisalID) then Some(contracts[0])
    else
      var r := FindMatchingContract(appraisalID, contracts[1..]);
      assert r.Some? ==> exists i ::
        && 0 <= i < |contracts| && contracts[i] == r.value
        && forall j :: 0 <= j < i ==> !Contains(contracts[j].Title, appraisalID) by {
        if r.Some? {
          var k :| 0 <= k < |contracts[1..]| && contracts[1..][k] == r.value &&
            forall j :: 0 <= j < k ==> !Contains(contracts[1..][j].Title, appraisalID);
          assert contracts[k + 1] == r.value;
          forall j | 0 <= j < k + 1 ensures !Contains(contracts[j].Title, appraisalID) {
            if j > 0 {
              assert contracts[j] == contracts[1..][j - 1];
            }
          }
        }
      }
      r
  }

  // ---- validateContractDuration ----

  /**
    `validateContractDuration`: a date that does not parse reports its
    parse error; otherwise a contract shorter than two weeks is reported.
  */
  function DurationErrors(c: Contract, parse: string -> Result<int, string>): (r: seq<ContractError>)
    ensures |r| <= 1
  {
    match parse(c.DateIssued)
    case Err(e) => [DateError(e)]
    case Ok(issued) =>
      match parse(c.DateExpired)
      case Err(e) => [DateError(e)]
      case Ok(expired) => if expired - issued < MinDuration then [TooShort] else []
  }

  lemma DurationAccepted(c: Contract, parse: string -> Result<int, string>)
    ensures DurationErrors(c, parse) == [] <==>
      parse(c.DateIssued).Ok? && parse(c.DateExpired).Ok? &&
      parse(c.DateExpired).value - parse(c.DateIssued).value >= MinDuration
  {
  }

  // ---- the first stage of validateContract ----

  function Abs(x: real): real
  {
    if x < 0.0 then -x else x
  }

  function If(b: bool, e: ContractError): seq<ContractError>
  {
    if b then [e] else []
  }

  /** One check of `validateContract`: a failing check appends its error. */
  function Check(errors: seq<ContractError>, failed: bool, e: ContractError): (r: seq<ContractError>)
    ensures r == [] <==> errors == [] && !failed
  {
    errors + If(failed, e)
  }

  /** The checks whose errors accumulate together, in the order they are made, then the duration check. */
  function BasicErrors(user: User, appraisal: Appraisal, c: Contract, env: Env): seq<ContractError>
  {
    var title := BuybackTitle(user.CharacterName, appraisal.ID);
    var e0 := Check([], c.Title != title, TitleMismatch(title));
    var e1 := Check(e0, c.Type != ItemExchange, NotItemExchange);
    var e2 := Check(e1, c.Availability != Personal, NotPrivate);
    var e3 := Check(e2, c.AssigneeID != ValidAssignee, WrongAssignee);
    var e4 := Check(e3, c.Reward != 0.0, NonZeroReward);
    var e5 := Check(e4, c.Price != env.Offer, PriceNotOffer);
    var e6 := Check(e5, Abs(c.Volume - appraisal.Original.Totals.Volume) >= 0.01,
                    VolumeMismatch(appraisal.Original.Totals.Volume, c.Volume));
    e6 + DurationErrors(c, env.ParseDate)
  }

  /** The first stage passes exactly when every one of its checks does. */
  lemma BasicErrorsEmpty(user: User, appraisal: Appraisal, c: Contract, env: Env)
    ensures BasicErrors(user, appraisal, c, env) == [] <==>
      && c.Title == BuybackTitle(user.CharacterName, appraisal.ID)
      && c.Type == ItemExchange && c.Availability == Personal
      && c.AssigneeID == ValidAssignee && c.Reward == 0.0 && c.Price == env.Offer
      && Abs(c.Volume - appraisal.Original.Totals.Volume) < 0.01
      && DurationErrors(c, env.ParseDate) == []
  {
  }

  // ---- validateContractLocation ----

  /** The errors of `validateContractLocation`: at most one, from the first failing check. */
  function LocationErrors(c: Contract, env: Env): (r: seq<ContractError>)
    ensures |r| <= 1
    ensures r == [] <==>
      && env.FindLocation(c.StartLocationID).Some?
      && env.RegionOf(env.FindLocation(c.StartLocationID).value.0) == ValidRegion
      && env.AllianceOf(env.FindLocation(c.StartLocationID).value.0) == ValidAlliance
  {
    match env.FindLocation(c.StartLocationID)
    case None => [LocationNotFound]
    case Some((systemID, _)) =>
      if env.RegionOf(systemID) != ValidRegion then [NotInRegion]
      else if env.AllianceOf(systemID) != ValidAlliance then [NotInAlliance]
      else []
  }

  /** The contract after `validateContractLocation`: the system and name of a found location, even when it is rejected. */
  function WithLocation(c: Contract, env: Env): (r: Contract)
    ensures env.FindLocation(c.StartLocationID).None? ==> r == c
    ensures env.FindLocation(c.StartLocationID).Some? ==>
      r.SystemID == env.FindLocation(c.StartLocationID).value.0 &&
      r.LocationName == env.FindLocation(c.StartLocationID).value.1
    ensures r.(SystemID := c.SystemID, LocationName := c.LocationName) == c
  {
    match env.FindLocation(c.StartLocationID)
    case None => c
    case Some((systemID, name)) => c.(SystemID := systemID, LocationName := name)
  }

  /** `validateContractLocation`, which writes the location into the contract it is given. */
  method ValidateContractLocation(c: Contract, env: Env) returns (errors: seq<ContractError>, c': Contract)
    ensures errors == LocationErrors(c, env)
    ensures c' == WithLocation(c, env)
  {
    errors := [];
    c' := c;
    var found := env.FindLocation(c.StartLocationID);
    if found.None? {
      errors := errors + [LocationNotFound];
      return;
    }
    var (systemID, name) := found.value;
    c' := c'.(SystemID := systemID, LocationName := name);
    if env.RegionOf(systemID) != ValidRegion {
      errors := errors + [NotInRegion];
      return;
    }
    if env.AllianceOf(systemID) != ValidAlliance {
      errors := errors + [NotInAlliance];
      return;
    }
  }

  // ---- validateContractItems ----

  /** The summed quantity of the contract items of type `typeID`. */
  function ContractQty(cis: seq<ContractItem>, typeID: int): int
  {
    if cis == [] then 0
    else ContractQty(cis[..|cis| - 1], typeID) + (if cis[|cis| - 1].TypeID == typeID then cis[|cis| - 1].Quantity else 0)
  }

  /** One error per expected item, in order, whose quantity the contract does not match. */
  function QuantityErrors(items: seq<AppraisalItem>, cis: seq<ContractItem>): seq<ContractError>
  {
    if items == [] then []
    else
      var it := items[|items| - 1];
      var found := ContractQty(cis, it.TypeID);
      QuantityErrors(items[..|items| - 1], cis) +
      If(found != it.Quantity, QuantityMismatch(it.Quantity, DisplayName(it), found))
  }

  /** No quantity error exactly when every expected item's quantity is matched by the contract's. */
  lemma {:induction false} QuantityErrorsEmpty(items: seq<AppraisalItem>, cis: seq<ContractItem>)
    ensures QuantityErrors(items, cis) == [] <==>
      forall i :: 0 <= i < |items| ==> ContractQty(cis, items[i].TypeID) == items[i].Quantity
    decreases |items|
  {
    if items != [] {
      var init := items[..|items| - 1];
      QuantityErrorsEmpty(init, cis);
      assert forall i :: 0 <= i < |init| ==> init[i] == items[i];
    }
  }

  predicate Expected(items: seq<AppraisalItem>, typeID: int)
  {
    exists i :: 0 <= i < |items| && items[i].TypeID == typeID
  }

  /** The types in the contract that the appraisal does not list (the keys of `unexpectedItems`). */
  function UnexpectedIDs(items: seq<AppraisalItem>, cis: seq<ContractItem>): set<int>
  {
    if cis == [] then {}
    else
      var id := cis[|cis| - 1].TypeID;
      UnexpectedIDs(items, cis[..|cis| - 1]) + (if Expected(items, id) then {} else {id})
  }

  /** A type is unexpected exactly when some contract item has it and no appraisal item does. */
  lemma {:induction false} UnexpectedIDsMembers(items: seq<AppraisalItem>, cis: seq<ContractItem>, x: int)
    ensures x in UnexpectedIDs(items, cis) <==>
      !Expected(items, x) && exists k :: 0 <= k < |cis| && cis[k].TypeID == x
    decreases |cis|
  {
    if cis != [] {
      var init := cis[..|cis| - 1];
      UnexpectedIDsMembers(items, init, x);
      if x in UnexpectedIDs(items, init) {
        var k :| 0 <= k < |init| && init[k].TypeID == x;
        assert cis[k].TypeID == x;
      }
      if !Expected(items, x) && exists k :: 0 <= k < |cis| && cis[k].TypeID == x {
        var k :| 0 <= k < |cis| && cis[k].TypeID == x;
        if k < |init| {
          assert init[k].TypeID == x;
        }
      }
    }
  }

  /** No type is unexpected exactly when every contract item's type is listed by the appraisal. */
  lemma NoUnexpectedIDs(items: seq<AppraisalItem>, cis: seq<ContractItem>)
    ensures UnexpectedIDs(items, cis) == {} <==> forall k :: 0 <= k < |cis| ==> Expected(items, cis[k].TypeID)
  {
    if UnexpectedIDs(items, cis) == {} {
      forall k | 0 <= k < |cis| ensures Expected(items, cis[k].TypeID) {
        UnexpectedIDsMembers(items, cis, cis[k].TypeID);
      }
    } else {
      var x := Collections.MemberOf(UnexpectedIDs(items, cis));
      UnexpectedIDsMembers(items, cis, x);
    }
  }

  /** One error per unexpected type, naming it when the catalog knows it. */
  function UnexpectedErrors(app: App, ids: seq<int>): (r: seq<ContractError>)
    ensures |r| == |ids|
  {
    if ids == [] then []
    else
      var id := ids[|ids| - 1];
      UnexpectedErrors(app, ids[..|ids| - 1]) +
      [match GetTypeByID(app, id) case Some(t) => UnexpectedItem(t.Name) case None => UnknownItem]
  }

  /** `ids` lists the members of `s` once each. */
  ghost predicate ListsOnce(s: set<int>, ids: seq<int>)
  {
    (forall i :: 0 <= i < |ids| ==> ids[i] in s) &&
    (forall x :: x in s ==> x in ids) &&
    (forall i, j :: 0 <= i < j < |ids| ==> ids[i] != ids[j])
  }

  /** The contract quantity loop for one expected item. */
  method ContractQuantity(cis: seq<ContractItem>, typeID: int) returns (q: int)
    ensures q == ContractQty(cis, typeID)
  {
    q := 0;
    for k := 0 to |cis|
      invariant q == ContractQty(cis[..k], typeID)
    {
      assert cis[..k + 1][..k] == cis[..k];
      if cis[k].TypeID == typeID {
        q := q + cis[k].Quantity;
      }
    }
    assert cis[..|cis|] == cis;
  }

  /** The search of the appraisal items for one contract item's type. */
  method IsExpected(items: seq<AppraisalItem>, typeID: int) returns (found: bool)
    ensures found == Expected(items, typeID)
  {
    found := false;
    for k := 0 to |items|
      invariant !found
      invariant forall j :: 0 <= j < k ==> items[j].TypeID != typeID
    {
      if items[k].TypeID == typeID {
        found := true;
        break;
      }
    }
  }

  /** The quantity check over the expected items. */
  method CheckQuantities(items: seq<AppraisalItem>, cis: seq<ContractItem>) returns (errors: seq<ContractError>)
    ensures errors == QuantityErrors(items, cis)
  {
    errors := [];
    for i := 0 to |items|
      invariant errors == QuantityErrors(items[..i], cis)
    {
      assert items[..i + 1][..i] == items[..i];
      var contractQuantity := ContractQuantity(cis, items[i].TypeID);
      if contractQuantity != items[i].Quantity {
        errors := errors + [QuantityMismatch(items[i].Quantity, DisplayName(items[i]), contractQuantity)];
      }
    }
    assert items[..|items|] == items;
  }

  /** The set of unexpected types. */
  method CollectUnexpected(items: seq<AppraisalItem>, cis: seq<ContractItem>) returns (unexpectedItems: set<int>)
    ensures unexpectedItems == UnexpectedIDs(items, cis)
  {
    unexpectedItems := {};
    for i := 0 to |cis|
      invariant unexpectedItems == UnexpectedIDs(items, cis[..i])
    {
      assert cis[..i + 1][..i] == cis[..i];
      var found := IsExpected(items, cis[i].TypeID);
      if !found {
        unexpectedItems := unexpectedItems + {cis[i].TypeID};
      }
    }
    assert cis[..|cis|] == cis;
  }

  /** The report over the unexpected types, in the order the map iteration yields them (`unexpected`). */
  method ReportUnexpected(app: App, unexpectedItems: set<int>) returns (errors: seq<ContractError>, unexpected: seq<int>)
    ensures ListsOnce(unexpectedItems, unexpected)
    ensures errors == UnexpectedErrors(app, unexpected)
  {
    errors := [];
    unexpected := [];
    var keys := unexpectedItems;
    while keys != {}
      invariant keys <= unexpectedItems
      invariant forall i :: 0 <= i < |unexpected| ==> unexpected[i] in unexpectedItems && unexpected[i] !in keys
      invariant forall x :: x in unexpectedItems ==> x in keys || x in unexpected
      invariant forall i, j :: 0 <= i < j < |unexpected| ==> unexpected[i] != unexpected[j]
      invariant errors == UnexpectedErrors(app, unexpected)
      decreases keys
    {
      ghost var someKey := Collections.MemberOf(keys);
      var typeID :| typeID in keys;
      var evetype := GetTypeByID(app, typeID);
      if evetype.Some? {
        errors := errors + [UnexpectedItem(evetype.value.Name)];
      } else {
        errors := errors + [UnknownItem];
      }
      unexpected := unexpected + [typeID];
      assert unexpected[..|unexpected| - 1] == unexpected[..|unexpected| - 1];
      keys := keys - {typeID};
    }
  }

  /** The errors of `validateContractItems`, for a given order of the unexpected types. */
  function ItemErrors(app: App, items: seq<AppraisalItem>, fetched: Result<seq<ContractItem>, string>, unexpected: seq<int>): seq<ContractError>
  {
    match fetched
    case Err(e) => [ItemsFetchError(e)]
    case Ok(cis) => QuantityErrors(items, cis) + UnexpectedErrors(app, unexpected)
  }

  /**
    The items stage passes exactly when the contract's items were fetched,
    every expected quantity is matched and every contract item is of a
    type the appraisal lists.
  */
  lemma {:induction false} ItemsAccepted(app: App, items: seq<AppraisalItem>, fetched: Result<seq<ContractItem>, string>, unexpected: seq<int>)
    requires fetched.Ok? ==> ListsOnce(UnexpectedIDs(items, fetched.value), unexpected)
    ensures ItemErrors(app, items, fetched, unexpected) == [] <==>
      && fetched.Ok?
      && (forall i :: 0 <= i < |items| ==> ContractQty(fetched.value, items[i].TypeID) == items[i].Quantity)
      && (forall k :: 0 <= k < |fetched.value| ==> Expected(items, fetched.value[k].TypeID))
  {
    if fetched.Ok? {
      var cis := fetched.value;
      QuantityErrorsEmpty(items, cis);
      NoUnexpectedIDs(items, cis);
      if unexpected != [] {
        assert unexpected[0] in UnexpectedIDs(items, cis);
      } else if UnexpectedIDs(items, cis) != {} {
        var x := Collections.MemberOf(UnexpectedIDs(items, cis));
        assert false;
      }
      assert |UnexpectedErrors(app, unexpected)| == |unexpected|;
    }
  }

  /** `validateContractItems`: fetch the contract's items, then reconcile them with the appraisal. */
  method ValidateContractItems(user: User, appraisal: Appraisal, c: Contract, env: Env)
    returns (errors: seq<ContractError>, unexpected: seq<int>)
    ensures var fetched := env.ItemsOf(user.CharacterID, c.ContractID);
      && (fetched.Ok? ==> ListsOnce(UnexpectedIDs(appraisal.Original.Items, fetched.value), unexpected))
      && errors == ItemErrors(env.Catalog, appraisal.Original.Items, fetched, unexpected)
  {
    unexpected := [];
    var fetched := env.ItemsOf(user.CharacterID, c.ContractID);
    if fetched.Err? {
      errors := [ItemsFetchError(fetched.error)];
      return;
    }
    var items := appraisal.Original.Items;
    errors := CheckQuantities(items, fetched.value);
    var unexpectedItems := CollectUnexpected(items, fetched.value);
    var more;
    more, unexpected := ReportUnexpected(env.Catalog, unexpectedItems);
    errors := errors + more;
  }

  // ---- validateContract ----

  /** The volume cap, which does not apply in the unrestricted system or to compressed ore alone. */
  function CapErrors(appraisal: Appraisal, c: Contract, env: Env): (r: seq<ContractError>)
    ensures r != [] <==>
      && c.SystemID != UnrestrictedSystem
      && !Pricing.CompressedOnly(appraisal.Original.Items)
      && appraisal.Original.Totals.Volume > env.MaxVolume
  {
    If(c.SystemID != UnrestrictedSystem && !Pricing.CompressedOnly(appraisal.Original.Items) &&
       appraisal.Original.Totals.Volume > env.MaxVolume,
       TooLarge(appraisal.Original.Totals.Volume, env.MaxVolume))
  }

  /**
    What `validateContract` reports and the contract it leaves behind: each
    stage runs only when the ones before it reported nothing, and the
    volume cap reads the system the location stage wrote.
  */
  ghost predicate ValidatedAs(user: User, appraisal: Appraisal, c: Contract, env: Env,
                              errors: seq<ContractError>, c': Contract, unexpected: seq<int>)
  {
    var basic := BasicErrors(user, appraisal, c, env);
    if basic != [] then errors == basic && c' == c
    else LaterStagesAs(user, appraisal, c, env, errors, c', unexpected)
  }

  /** The location, items and volume stages, each run only when the ones before it reported nothing. */
  ghost predicate LaterStagesAs(user: User, appraisal: Appraisal, c: Contract, env: Env,
                                errors: seq<ContractError>, c': Contract, unexpected: seq<int>)
  {
    var location := LocationErrors(c, env);
    c' == WithLocation(c, env) &&
    if location != [] then errors == location
    else
      var fetched := env.ItemsOf(user.CharacterID, c.ContractID);
      var items := ItemErrors(env.Catalog, appraisal.Original.Items, fetched, unexpected);
      (fetched.Ok? ==> ListsOnce(UnexpectedIDs(appraisal.Original.Items, fetched.value), unexpected)) &&
      if items != [] then errors == items
      else errors == CapErrors(appraisal, c', env)
  }

  /** `validateContract`. */
  method ValidateContract(user: User, appraisal: Appraisal, c: Contract, env: Env)
    returns (errors: seq<ContractError>, c': Contract, unexpected: seq<int>)
    ensures ValidatedAs(user, appraisal, c, env, errors, c', unexpected)
  {
    unexpected := [];
    c' := c;
    errors := BasicErrors(user, appraisal, c, env);
    if |errors| > 0 {
      return;
    }
    errors, c', unexpected := ValidateLaterStages(user, appraisal, c, env);
  }

  /** The part of `validateContract` after the first stage passed. */
  method ValidateLaterStages(user: User, appraisal: Appraisal, c: Contract, env: Env)
    returns (errors: seq<ContractError>, c': Contract, unexpected: seq<int>)
    ensures LaterStagesAs(user, appraisal, c, env, errors, c', unexpected)
  {
    unexpected := [];
    errors, c' := ValidateContractLocation(c, env);
    if |errors| > 0 {
      return;
    }

    errors, unexpected := ValidateContractItems(user, appraisal, c', env);
    if |errors| > 0 {
      return;
    }

    var onlyCompressed := Pricing.OnlyCompressedOre(appraisal);
    if c'.SystemID != UnrestrictedSystem && !onlyCompressed {
      if appraisal.Original.Totals.Volume > env.MaxVolume {
        errors := errors + [TooLarge(appraisal.Original.Totals.Volume, env.MaxVolume)];
      }
    }
  }

  /** A contract is accepted exactly when every stage accepts it. */
  lemma ValidatedAccepted(user: User, appraisal: Appraisal, c: Contract, env: Env,
                          errors: seq<ContractError>, c': Contract, unexpected: seq<int>)
    requires ValidatedAs(user, appraisal, c, env, errors, c', unexpected)
    ensures errors == [] <==>
      && BasicErrors(user, appraisal, c, env) == []
      && LocationErrors(c, env) == []
      && ItemErrors(env.Catalog, appraisal.Original.Items, env.ItemsOf(user.CharacterID, c.ContractID), unexpected) == []
      && CapErrors(appraisal, WithLocation(c, env), env) == []
  {
  }

  // ---- EvaluateContract ----

  /** One error per rejected original item, in order. */
  function RejectedErrors(items: seq<AppraisalItem>): seq<ContractError>
  {
    if items == [] then []
    else
      var it := items[|items| - 1];
      RejectedErrors(items[..|items| - 1]) + If(it.Rejected, RejectedItem(DisplayName(it)))
  }

  lemma {:induction false} RejectedErrorsEmpty(items: seq<AppraisalItem>)
    ensures RejectedErrors(items) == [] <==> forall i :: 0 <= i < |items| ==> !items[i].Rejected
    decreases |items|
  {
    if items != [] {
      var init := items[..|items| - 1];
      RejectedErrorsEmpty(init);
      assert forall i :: 0 <= i < |init| ==> init[i] == items[i];
    }
  }

  /** The summary of a matched contract: its own status, except that an outstanding one is judged. */
  function Summary(status: string, errors: seq<ContractError>): (r: string)
    ensures status != "outstanding" ==> r == status
    ensures status == "outstanding" ==> (r == "valid" <==> errors == [])
  {
    if status == "outstanding" then (if errors == [] then "valid" else "invalid") else status
  }

  /**
    `EvaluateContract`: an appraisal with rejected items is invalid without
    a contract being looked for; otherwise the first contract naming the
    appraisal is validated, and none is "not_found".
  */
  method EvaluateContract(user: User, appraisal: Appraisal, contracts: seq<Contract>, env: Env)
    returns (status: ContractStatus, unexpected: seq<int>)
    ensures var rejected := RejectedErrors(appraisal.Original.Items);
      var title := BuybackTitle(user.CharacterName, appraisal.ID);
      var found := FindMatchingContract(appraisal.ID, contracts);
      && (rejected != [] ==> status == ContractStatus(title, "invalid", None, rejected))
      && (rejected == [] && found.None? ==> status == ContractStatus(title, "not_found", None, []))
      && (rejected == [] && found.Some? ==>
            && status.Title == found.value.Title
            && status.Contract.Some?
            && ValidatedAs(user, appraisal, found.value, env, status.Errors, status.Contract.value, unexpected)
            && status.Summary == Summary(found.value.Status, status.Errors))
  {
    unexpected := [];
    var title := BuybackTitle(user.CharacterName, appraisal.ID);
    var summary := "not_found";
    var errors: seq<ContractError> := [];
    var items := appraisal.Original.Items;
    for i := 0 to |items|
      invariant errors == RejectedErrors(items[..i])
      invariant summary == (if errors == [] then "not_found" else "invalid")
    {
      assert items[..i + 1][..i] == items[..i];
      if items[i].Rejected {
        errors := errors + [RejectedItem(DisplayName(items[i]))];
        summary := "invalid";
      }
    }
    assert items[..|items|] == items;

    var contract: Option<Contract> := None;
    if summary != "invalid" {
      contract := FindMatchingContract(appraisal.ID, contracts);
      if contract.Some? {
        summary := contract.value.Status;
        title := contract.value.Title;
        var c';
        errors, c', unexpected := ValidateContract(user, appraisal, contract.value, env);
        contract := Some(c');
        if summary == "outstanding" {
          if |errors| > 0 {
            summary := "invalid";
          } else {
            summary := "valid";
          }
        }
      }
    }
    status := ContractStatus(title, summary, contract, errors);
  }
}
