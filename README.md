# go-evepraisal appraisal core in Dafny

This project models the core of go-evepraisal, an EVE Online appraisal
service. A player pastes text (a cargo scan, a contract, a loot log, a
fitting, ...). The text becomes a list of items. The items are merged by
name and priced against market data. They are broken down into minerals
for a buyback offer. The results are stored in a bolt key/value database.
The model covers:

- the price arithmetic of `Prices` (Set, Add, Sub, Mul) and the item
  totals (`appraisal.go`);
- the normalisation of a parser result into merged appraisal items
  (`findKind`, `parserResultToAppraisalItems`, `filterUnparsed`);
- the pricing pass: the compressed-ore yield table, the ore-aware price
  lookup, blueprint copies priced at zero, the in-place pricing loop with
  its running totals, `OnlyCompressedOre`, `priceByComponents`;
- the buyback decomposition into minerals (`buyback.go`);
- `StringToAppraisal`, which chains the steps above;
- the loot-history parser (`parsers/loot_history.go`), including the
  regular expression it matches with;
- the pure part of the static-data load: the blueprint index, component
  resolution and flattening, named-type filtering (`staticdump/load.go`);
- the type-database path, the packaged-volume overrides and the
  stoppable write loop of the fetcher (`staticdump/fetcher.go`);
- buyback contract validation (`esi/contracts.go`);
- the bolt appraisal store (`bolt/appraisal_db.go`): its big-endian
  keys and their byte order, and the methods that put, delete, list and
  scan appraisals and record notification states. The store is a class
  whose fields are the buckets. `AppraisalDB.Lookup` models
  `getAppraisal`/`GetAppraisal`.

Go maps iterate in an unspecified order. Wherever the source ranges over
a map, the model picks keys with `:|`, and each contract holds for every
order. Services the core calls but does not define are parameters:

- the parser, the clock and the ID codec;
- ESI lookups and the date parser (`Contracts.Env`);
- the stop channel and the result of each type write.

The modules, file by file:

| file | module | models |
|---|---|---|
| wrappers.dfy | Wrappers | Option and Result |
| collections.dfy | Collections | set and multiset helpers |
| strs.dfy | Strs | the Go `strings` functions the core uses |
| prices.dfy | PriceAlgebra | `Prices`, `PriceStats` and their arithmetic |
| typedb.dfy | TypeDB | the type and price catalogs (`typedb/interface.go`) |
| items.dfy | Items | `AppraisalItem`, `Totals`, `Appraisal`, `User` |
| parsers.dfy | Parsers | the parser results (`parsers/parser.go`) |
| loot_history.dfy | LootHistory | `parsers/loot_history.go` |
| normalize.dfy | Normalize | `findKind`, `parserResultToAppraisalItems`, `filterUnparsed` |
| sorting.dfy | Sorting | the in-place `sort.Sort` |
| pricing.dfy | Pricing | the pricing functions of `appraisal.go` |
| buyback.dfy | Buyback | `buyback.go` |
| appraise.dfy | Appraise | `StringToAppraisal` |
| staticdump_load.dfy | StaticDumpLoad | `staticdump/load.go` |
| staticdump_fetcher.dfy | StaticDumpFetcher | `staticdump/fetcher.go` |
| contracts.dfy | Contracts | `esi/contracts.go` |
| db_keys.dfy | DBKeys | big-endian uint64 keys and bolt's byte order |
| appraisal_db.dfy | AppraisalStore | `bolt/appraisal_db.go` |

## Model

| member | source | states |
|---|---|---|
| PriceAlgebra.AddThenSub | appraisal.go:171-223 | Adding q and then subtracting it restores every price field of p. Only the volumes keep twice q's volume, because Sub adds volumes as Add does. |
| PriceAlgebra.SubThenAdd | appraisal.go:171-223 | Subtracting q and then adding it restores p in the same way, again except for twice q's volume. |
| PriceAlgebra.AddSubInverseIffNoVolume | appraisal.go:171-223 | Sub undoes Add exactly when q has zero volume in all, buy and sell. |
| PriceAlgebra.MulByOne | appraisal.go:225-247 | Multiplying by 1 leaves the prices unchanged. |
| PriceAlgebra.MulCompose | appraisal.go:225-247 | Multiplying by a and then by b is multiplying by a*b. |
| PriceAlgebra.MulOverAdd | appraisal.go:171-247 | Mul distributes over Add. |
| PriceAlgebra.SetKeepsSpread | appraisal.go:149-169 | On each of All, Buy and Sell, Set makes Average, Max, Min, Median and Percentile the given price and keeps Stddev, Volume and OrderCount. Updated, Strategy and Basis are kept. A second Set overrides the first. |
| PriceAlgebra.SetThenMul | appraisal.go:149-247 | Setting x and then multiplying by k is multiplying by k and then setting x*k. |
| PriceAlgebra.AddZero | appraisal.go:171-196 | The zero prices are a right identity of Add. |
| PriceAlgebra.AddAssoc | appraisal.go:171-196 | Add is associative. |
| Items.DisplayName | appraisal.go:93-99 | The display name is one of the two names, the type name wins when present, and it is empty only when both names are. |
| Items.EffectiveAdjustment | appraisal.go:117-122 | An adjustment of 0 counts as 100%; otherwise the factor is the adjustment divided by 100. |
| Items.HundredPercentIsNoAdjustment | appraisal.go:101-122 | An item adjusted to 100% has the same buy and sell totals as an unadjusted one. |
| Items.RepresentativeIsSellOrBuyTotal | appraisal.go:101-134 | The representative price is the sell total when there is a sell minimum, and the buy total otherwise. |
| Items.UnpricedContributesNothing | appraisal.go:101-134 | An item with zero prices has zero buy, sell and representative totals. |
| Strs.TrimLeftSpec | appraisal.go:614 | TrimLeft drops exactly the leading spaces and tabs. What remains is a suffix that does not start with either. |
| Strs.TrimRightSpec | appraisal.go:614 | TrimRight drops exactly the trailing spaces and tabs. What remains is a prefix that does not end with either. |
| Strs.TrimIsTrimmed | appraisal.go:614 | The result of Trim has no space or tab at either end. |
| Strs.TrimIdempotent | appraisal.go:614 | Trimming twice is trimming once. |
| Strs.TrimEmptyIffBlank | appraisal.go:631 | Trim yields "" exactly when every character is a space or a tab. |
| Strs.ToUpperSpec | appraisal.go:615 | ToUpper keeps the length and upper-cases each character on its own. |
| Strs.ToLowerSpec | bolt/appraisal_db.go:477 | ToLower keeps the length and lower-cases each character on its own. |
| Strs.ToLowerIdempotent | bolt/appraisal_db.go:477 | Lower-casing twice is lower-casing once. |
| Strs.TrimSuffix | appraisal.go:266 | With the suffix present, the result followed by the suffix is the input. Without it, the input is returned unchanged. |
| Strs.NatToString | appraisal.go:376 | The decimal rendering of a natural number is a non-empty digit string that denotes the number, with no leading zero except for "0". |
| Strs.NatToStringInjective | appraisal.go:376 | Different numbers get different renderings. |
| Strs.LessEqTotal | parsers/loot_history.go:43 | Go's string order is total. |
| Strs.LessEqTransitive | parsers/loot_history.go:43 | Go's string order is transitive. |
| Sorting.SortBy | buyback.go:27 | After the in-place sort the array is sorted by the given total preorder and is a permutation of its old contents. |
| Sorting.InsertLast | parsers/loot_history.go:43 | One insertion step extends the sorted prefix by one element and keeps the array a permutation. |
| LootHistory.QtyEnd | parsers/loot_history.go:28 | Returns the end of the longest run of quantity characters (digits, `,`, `'`, `.`) starting at `from`. |
| LootHistory.FindEnd | parsers/loot_history.go:28 | Returns the greedy match: the longest match of the loot pattern ending at or before e. None means there is no match at all. |
| LootHistory.FindMatch | parsers/loot_history.go:28 | Returns the leftmost start at which the pattern matches, with its greedy end. None means it matches nowhere. |
| LootHistory.MatchAtSound | parsers/loot_history.go:28 | A match splits into well-formed groups (time, player, quantity, name) that compose back to the matched text. |
| LootHistory.MatchLineSound | parsers/loot_history.go:28 | A matched line ends with the composition of its groups, since the pattern is anchored at `$`. |
| LootHistory.MatchLineComplete | parsers/loot_history.go:28 | Any line ending in a well-formed "time player has looted qty x name" matches. |
| LootHistory.MatchedLines | parsers/loot_history.go:33 | There are at most as many matched line numbers as input lines. |
| LootHistory.ItemsMatchLines | parsers/loot_history.go:33-42 | Every matched line yields exactly one loot item. |
| LootHistory.MatchedOrRest | parsers/loot_history.go:32-44 | Each input line number is either matched or left in the rest, never both. |
| LootHistory.NameLeTotalPreorder | parsers/loot_history.go:43 | Ordering loot items by name is a total preorder. |
| LootHistory.ParseLootHistory | parsers/loot_history.go:30-45 | The result lists the matched line numbers, holds exactly the matched items sorted by name, and returns the unmatched lines as the rest. |
| Normalize.FirstLargestUnique | appraisal.go:474-479 | At most one sub-result is the first among those with the most lines. |
| Normalize.FindKind | appraisal.go:464-482 | A result that is not a multi-parser result is an unexpected-type error. An empty multi-parser result means no valid lines were found. Otherwise the kind is the name of the first sub-result with the most lines. |
| Normalize.Plain | appraisal.go:493-608 | The plain result kinds (asset list, fitting, industry, listing, wallet, heuristic) give one appraisal item per entry. |
| Normalize.FromCargo | appraisal.go:497-508 | A cargo scan gives one appraisal item per entry. |
| Normalize.FromContract | appraisal.go:509-519 | A contract gives one appraisal item per entry. |
| Normalize.FromDScan | appraisal.go:520-523 | A d-scan gives one appraisal item per entry. |
| Normalize.FromKillmail | appraisal.go:537-555 | A killmail gives one appraisal item per dropped or destroyed entry. |
| Normalize.FromLoot | appraisal.go:560-568 | A loot history gives one appraisal item per loot entry. |
| Normalize.FromPI | appraisal.go:569-578 | A planetary-interaction result gives one appraisal item per entry. |
| Normalize.FromSurvey | appraisal.go:579-587 | A survey scan gives one appraisal item per entry. |
| Normalize.FromViewContents | appraisal.go:588-596 | A view-contents result gives one appraisal item per entry. |
| Normalize.KeyOfNormalized | appraisal.go:614-615 | Trimming a name does not change its merge key, and trimming twice is trimming once. |
| Normalize.SumsKeys | appraisal.go:611-618 | The quantity table and the item table have the same keys. |
| Normalize.ShapesKeyed | appraisal.go:611-618 | Each entry of the item table sits under its own key, with a trimmed name and zero quantity. |
| Normalize.AppendShapes | appraisal.go:611-618 | The item table of a concatenation is the first's updated by the second's, so the last item of a key wins. |
| Normalize.AppendSumsAt | appraisal.go:611-618 | Per key, the quantity of a concatenation is the sum of the two quantities. |
| Normalize.AppendSums | appraisal.go:611-618 | The quantity table of a concatenation is the key-wise sum of the two tables. |
| Normalize.ShapesFromItems | appraisal.go:611-618 | Every key of the item table comes from some input item. |
| Normalize.DistinctShapes | appraisal.go:611-618 | When no two items share a key, each item's table entry is the item itself, trimmed, with zero quantity. |
| Normalize.DistinctSums | appraisal.go:611-618 | When no two items share a key, each item's quantity is its own. |
| Normalize.MergedItem | appraisal.go:611-626 | Each merged item agrees with the raw items' tables on its key. |
| Normalize.MergedKeys | appraisal.go:611-626 | Merging keeps the set of keys. |
| Normalize.MergedEquivalent | appraisal.go:611-626 | A merge has the same item and quantity tables as its input. |
| Normalize.MergedShapes | appraisal.go:611-626 | A merge has the same item table as its input. |
| Normalize.MergedSums | appraisal.go:611-626 | A merge has the same quantity table as its input. |
| Normalize.MergeOfMerges | appraisal.go:489-626 | Merging the merges of two lists is a merge of their concatenation, as the multi-parser case relies on. |
| Normalize.SumsTotal | appraisal.go:617 | The quantities in the table add up to the total quantity of the items. |
| Normalize.Merge | appraisal.go:611-626 | The output has one item per trimmed, upper-cased name. Each is the last input item with that name, trimmed, carrying the name's summed quantity. The total quantity is kept. |
| Normalize.ParserResultToAppraisalItems | appraisal.go:484-627 | The output is a merge of all the items of the result, in the sense of Merge. The total quantity is kept. |
| Normalize.FilterUnparsed | appraisal.go:629-636 | A line number is kept exactly when its text is not blank. Kept text is unchanged. |
| Pricing.FirstOre | appraisal.go:368-382 | Returns the first ore family, in table order, whose name ends the item name and whose prefixed type exists. None means no family applies. |
| Pricing.GetAdjustedPriceForItem | appraisal.go:361-386 | When an ore family applies, returns the base ore's price raised by the bonus of an adjective found in the name. Otherwise returns the plain price, or zero when the market has none. |
| Pricing.LookUpWithOres | appraisal.go:361-386 | The same lookup over any ore table. |
| Pricing.FirstOreIs | appraisal.go:368-382 | The first applicable family in table order is the one found. |
| Pricing.AdjustedPriceDetermined | appraisal.go:361-386 | When at most one adjective of each family occurs in the name, the adjusted price is unique. |
| Pricing.NoOreMeansPlainPrice | appraisal.go:384 | A name that ends in no ore family gets exactly the plain market price. |
| Pricing.ValuedAppend | appraisal.go:282-303 | The running component sum over a concatenation is the sum over the first part plus the sum over the second. |
| Pricing.ValuedKeepsMetadata | appraisal.go:282-303 | The running sum keeps the strategy, update time and basis of its start. |
| Pricing.EstimateBlueprintCopy | appraisal.go:273-303 | Market prices value the blueprint's products at sell minimum, in Jita when the market is "universe". Manufactured prices value its components at the cheaper side, times 0.91. |
| Pricing.PricesForItem | appraisal.go:264-315 | A blueprint copy is priced at zero. Any other item gets the adjusted market price. |
| Pricing.PriceItem | appraisal.go:424-460 | A resolved item takes the type's ID, name and packaged volume and is accepted. It is priced as PricesForItem allows and gets its adjustment. |
| Pricing.PriceAppraisalItems | appraisal.go:422-462 | Each array item is priced in place, and an unresolved name stays as it was. The totals grow by the contributions of exactly the resolved items. |
| Pricing.EmptyAdjustmentsKeepAdjustment | appraisal.go:449-456 | With no adjustments, pricing keeps an item's adjustment. |
| Pricing.BlueprintCopyAddsNoValue | appraisal.go:264-311 | A priced blueprint copy adds zero buy and sell value. |
| Pricing.OnlyCompressedOre | appraisal.go:388-395 | The answer is false exactly when some item's name does not start with "Compressed". |
| Pricing.PriceByComponents | appraisal.go:638-648 | The price is the quantity-weighted sum of the components' prices, skipping unpriced ones. |
| Buyback.MaterialsAreLower | buyback.go:33-44 | In an acyclic catalog, the known materials of a non-mineral rank strictly below it. |
| Buyback.InsertAllAt | buyback.go:46-53 | After a series of contributions, a key's entry is the old entry with the added quantity, or a new entry from the first contribution carrying the total. |
| Buyback.InsertAllNamed | buyback.go:46-53 | Every entry stays under its own name. |
| Buyback.LeavesScale | buyback.go:33-44 | Decomposing q units gives the contributions of one unit, each times q. |
| Buyback.MaterialLeavesScale | buyback.go:33-44 | The same holds for a list of materials. |
| Buyback.QtyForScale | buyback.go:33-44 | Scaling the contributions scales each key's total. |
| Buyback.FirstForScale | buyback.go:33-44 | Scaling keeps which contribution comes first for each key. |
| Buyback.CollectLinear | buyback.go:33-44 | Collecting q1 and then q2 units of a type gives the same map as collecting q1+q2 units at once. |
| Buyback.UnknownContributesNothing | buyback.go:33-44 | An unknown type ID contributes nothing. |
| Buyback.MaterialsLowerIfNotMineral | buyback.go:57-67 | The known materials of a known non-mineral rank below it. |
| Buyback.AbleToBuyback | buyback.go:57-70 | A type can be bought back when it is a mineral, or has materials that are all known types able to be bought back. |
| Buyback.AbleContributes | buyback.go:57-70 | A type able to be bought back always contributes something to the buyback map. |
| Buyback.UpdateBuybackItems | buyback.go:46-53 | Adds the quantity to the entry under name plus qualifier, or creates that entry with the type ID and adjustment. |
| Buyback.CollectBuybackItems | buyback.go:33-44 | A mineral is added as itself. Anything else adds its materials recursively, each with its quantity multiplied in, refined at 85%. |
| Buyback.RejectedAddsNothing | buyback.go:16-20 | A rejected item leaves the buyback map unchanged. |
| Buyback.ByQuantityTotalPreorder | buyback.go:72-76 | Ordering by descending quantity is a total preorder. |
| Buyback.ListEntries | buyback.go:22-25 | The list holds every entry of the map exactly once. |
| Buyback.MapEntries | buyback.go:22-25 | The fresh array holds every entry of the map exactly once. |
| Buyback.ListsEntriesPermutation | buyback.go:22-27 | Any permutation of such a listing is again a listing, so sorting keeps it. |
| Buyback.PricedKeepsNameAndQuantity | appraisal.go:422-461 | Pricing keeps an item's name and quantity. |
| Buyback.CollectAll | buyback.go:14-20 | The map is the collection of every accepted item with no qualifier at 100%. |
| Buyback.CalculateBuyback | buyback.go:14-31 | The map's entries are listed once each in non-increasing quantity, then priced in Jita with no adjustments, in that order. The totals are the priced entries' contributions. |
| Buyback.PriceSorted | buyback.go:27-30 | Pricing keeps the sorted order, the names and the count. The totals are the contributions. |
| Appraise.PriceItems | appraisal.go:414-415 | Pricing with no adjustments gives one priced item per input item, with totals from the resolved ones. |
| Appraise.PriceResult | appraisal.go:414-417 | The items are the merge of the result, priced. The buyback is their buyback. |
| Appraise.StringToAppraisal | appraisal.go:397-420 | Raw text and creation time are recorded, and blank unparsed lines are dropped. A kind error returns the bare appraisal with the error. Otherwise the kind and market are set and the items are merged and priced, with their buyback. |
| StaticDumpLoad.IndexBlueprints | staticdump/load.go:127-137 | The index is built by visiting every blueprint once, in some order. |
| StaticDumpLoad.AddProductsSound | staticdump/load.go:129-136 | Indexing a blueprint under its products lists only real blueprints under types they make. |
| StaticDumpLoad.AddProductsGrows | staticdump/load.go:129-136 | Indexing keeps old entries and lists the blueprint under each product. |
| StaticDumpLoad.IndexSound | staticdump/load.go:127-137 | The index lists only real blueprints under types they make. |
| StaticDumpLoad.IndexComplete | staticdump/load.go:127-137 | Every blueprint is listed under each of its products. |
| StaticDumpLoad.FirstBlueprintExists | staticdump/load.go:127-170 | A type has a first blueprint exactly when some blueprint makes it, and that blueprint makes it. |
| StaticDumpLoad.CopyComponents | staticdump/load.go:171-174 | The copy equals the source list. |
| StaticDumpLoad.ResolveBlueprintProducts | staticdump/load.go:164-176 | The result is the products of the type's first blueprint, or empty without one. |
| StaticDumpLoad.ResolveComponents | staticdump/load.go:178-190 | The result is the materials of the type's first blueprint, or empty without one. |
| StaticDumpLoad.ExpandNonEmpty | staticdump/load.go:218-228 | The expansion of a material list is empty exactly when the list is. |
| StaticDumpLoad.ResolveBaseEmpty | staticdump/load.go:208-229 | No base components means the depth ran out, there is no blueprint, or the blueprint has no materials. |
| StaticDumpLoad.ResolveBaseScale | staticdump/load.go:208-229 | Resolving with multiplier m*k gives the result for m, each quantity times k. |
| StaticDumpLoad.ExpandScale | staticdump/load.go:220-226 | Expanding with multiplier m*k gives the result for m, each quantity times k. |
| StaticDumpLoad.FlattenComponents | staticdump/load.go:192-206 | There is one entry per type ID, carrying that type's summed quantity. |
| StaticDumpLoad.FlattenPreservesTotal | staticdump/load.go:192-206 | Flattening keeps the total quantity. |
| StaticDumpLoad.Convert | staticdump/load.go:147-157 | The type takes its group, market group, name, volume and base price from the dump. It takes products and components from its first blueprint, and base components flattened from a depth-5 resolution. |
| StaticDumpLoad.LoadTypesFrom | staticdump/load.go:139-161 | One type per named entry, each converted, no ID twice. |
| StaticDumpLoad.LoadTypes | staticdump/load.go:127-161 | The blueprint index covers every blueprint once, and the types are loaded from it. |
| StaticDumpFetcher.LastSlash | staticdump/fetcher.go:72 | Returns the position of the last `/`, or -1. |
| StaticDumpFetcher.Base | staticdump/fetcher.go:72 | The base name is never empty. |
| StaticDumpFetcher.LastDot | staticdump/fetcher.go:73 | Returns the position of the last dot after the last slash, or -1. |
| StaticDumpFetcher.ExtIsSuffix | staticdump/fetcher.go:73 | The extension is empty or a dot with no further dot or slash. It is a suffix, so TrimSuffix removes exactly it. |
| StaticDumpFetcher.BaseNoSlash | staticdump/fetcher.go:72 | For a path not ending in `/`, the base is the text after the last slash and holds no slash. |
| StaticDumpFetcher.TypeDBPathShape | staticdump/fetcher.go:72-73 | The type database path plus the dump's extension is dbPath joined with "types-" and the dump's file name. The join is a plain "/" join; see "Left out". |
| StaticDumpFetcher.RunOnceStep | staticdump/fetcher.go:66-81 | Types are loaded exactly when the path does not exist. Another stat error aborts. Both other outcomes use that path. |
| StaticDumpFetcher.ApplyVolumeOverrides | staticdump/fetcher.go:153-168 | The packaged volume becomes the most specific override, and nothing else changes. |
| StaticDumpFetcher.OverridePrecedence | staticdump/fetcher.go:153-168 | An item override beats a market-group override, which beats a group override. With none, the volume is kept. |
| StaticDumpFetcher.OverrideIdempotent | staticdump/fetcher.go:153-168 | Applying the overrides twice is applying them once. |
| StaticDumpFetcher.Overridden | staticdump/fetcher.go:144-168 | Each type in the list gets its overrides and keeps its position. |
| StaticDumpFetcher.TypeStore.constructor | staticdump/fetcher.go:127 | A new type database is open and empty. |
| StaticDumpFetcher.TypeStore.PutType | staticdump/fetcher.go:170-173 | A successful write appends the type. A failed one writes nothing. |
| StaticDumpFetcher.TypeStore.Close | staticdump/fetcher.go:130-133 | Closing keeps the written types. |
| StaticDumpFetcher.TypeStore.Delete | staticdump/fetcher.go:134-140 | Deleting empties the database. |
| StaticDumpFetcher.LoadTypesInto | staticdump/fetcher.go:129-177 | The stop is polled every 1000 types, and a write error aborts. A full pass closes the database holding every type with its overrides. A stopped or failed pass deletes it. |
| Contracts.BuybackTitleNamesAppraisal | esi/contracts.go:122-133 | A buyback title contains and ends with the appraisal ID, so the matching search finds it. |
| Contracts.FindMatchingContract | esi/contracts.go:122-129 | Returns the first contract whose title contains the ID. None means no title contains it. |
| Contracts.DurationErrors | esi/contracts.go:263-279 | The duration check reports at most one error. |
| Contracts.DurationAccepted | esi/contracts.go:263-288 | No duration error exactly when both dates parse and the contract lasts at least two weeks. |
| Contracts.Check | esi/contracts.go:139-160 | A check leaves the error list empty exactly when it was empty and the condition did not fail. |
| Contracts.BasicErrorsEmpty | esi/contracts.go:135-161 | The basic stage passes exactly when: the title is the buyback title; it is a personal item exchange to the valid assignee; there is no reward; the price is the offer; the volume is within 0.01; and the duration is accepted. |
| Contracts.LocationErrors | esi/contracts.go:240-261 | At most one error. None exactly when the start location is found in the valid region and alliance. |
| Contracts.WithLocation | esi/contracts.go:240-248 | A found location sets the system ID and location name, and nothing else changes. |
| Contracts.ValidateContractLocation | esi/contracts.go:240-261 | Reports the location errors and updates the contract's location. |
| Contracts.QuantityErrorsEmpty | esi/contracts.go:192-203 | No quantity errors exactly when each appraised type's contract quantity equals its appraised quantity. |
| Contracts.UnexpectedIDsMembers | esi/contracts.go:205-218 | A type is unexpected exactly when the contract has it and the appraisal does not. |
| Contracts.NoUnexpectedIDs | esi/contracts.go:205-218 | There is no unexpected type exactly when every contract item is appraised. |
| Contracts.UnexpectedErrors | esi/contracts.go:220-227 | One error per unexpected type. |
| Contracts.ContractQuantity | esi/contracts.go:193-198 | The loop sums the contract's quantity of the type. |
| Contracts.IsExpected | esi/contracts.go:207-213 | The loop finds whether the appraisal has the type. |
| Contracts.CheckQuantities | esi/contracts.go:192-203 | Reports the quantity mismatches. |
| Contracts.CollectUnexpected | esi/contracts.go:205-218 | Collects exactly the unexpected types. |
| Contracts.ReportUnexpected | esi/contracts.go:220-227 | Reports each unexpected type once. |
| Contracts.ItemsAccepted | esi/contracts.go:186-228 | The items stage passes exactly when the items were fetched, all quantities match, and nothing unexpected is in the contract. |
| Contracts.ValidateContractItems | esi/contracts.go:186-238 | Reports the item errors of the fetched contract items. |
| Contracts.CapErrors | esi/contracts.go:176-181 | Reports an error exactly when the system is restricted, the items are not all compressed ore, and the volume is over the cap. |
| Contracts.ValidateContract | esi/contracts.go:135-184 | Each stage runs only when the earlier ones reported nothing. The cap uses the location the location stage set. |
| Contracts.ValidateLaterStages | esi/contracts.go:166-183 | The location, items and cap stages run in that order, each only after the earlier ones pass. |
| Contracts.ValidatedAccepted | esi/contracts.go:135-184 | A contract is valid exactly when all four stages pass. |
| Contracts.RejectedErrorsEmpty | esi/contracts.go:93-98 | No rejection errors exactly when no item is rejected. |
| Contracts.Summary | esi/contracts.go:104-115 | A contract that is not outstanding is summarised by its status. An outstanding one is "valid" exactly when there are no errors. |
| Contracts.EvaluateContract | esi/contracts.go:88-120 | Rejected items make the status "invalid". No matching contract means "not_found". Otherwise the first matching contract is validated and summarised. |
| DBKeys.ToBytes | bolt/appraisal_db.go:470-474 | An n-byte big-endian encoding is n bytes long. |
| DBKeys.FromBytes | bolt/appraisal_db.go:476-478 | A decoded value fits in the number of bytes read. |
| DBKeys.FromToBytes | bolt/appraisal_db.go:470-478 | Decoding an encoding gives the number back. |
| DBKeys.ToFromBytes | bolt/appraisal_db.go:470-478 | Encoding a decoded key gives the key back. |
| DBKeys.EncodeUint64 | bolt/appraisal_db.go:470-474 | A uint64 key is 8 bytes. |
| DBKeys.Uint64RoundTrip | bolt/appraisal_db.go:470-478 | uint64 keys round-trip in both directions. |
| DBKeys.LessIrreflexive | bolt/appraisal_db.go:240 | No key is below itself in byte order. |
| DBKeys.LessTransitive | bolt/appraisal_db.go:240 | Byte order is transitive. |
| DBKeys.LessTotal | bolt/appraisal_db.go:240 | Any two distinct keys are ordered. |
| DBKeys.LessAsymmetric | bolt/appraisal_db.go:240 | Byte order is asymmetric. |
| DBKeys.LessCommonPrefix | bolt/appraisal_db.go:298-300 | A shared prefix does not change the order. |
| DBKeys.ToBytesOrder | bolt/appraisal_db.go:470-474 | The big-endian encoding preserves and reflects numeric order. |
| DBKeys.EncodeUint64Order | bolt/appraisal_db.go:240 | uint64 keys sort by number, so the newest appraisal has the largest key. |
| DBKeys.MaxExists | bolt/appraisal_db.go:240 | A non-empty key set has a largest key. |
| DBKeys.Max | bolt/appraisal_db.go:240 | Returns the largest key, where a cursor walking backwards starts. |
| DBKeys.DescendingMembers | bolt/appraisal_db.go:240 | The backward cursor walk visits exactly the keys of the set. |
| DBKeys.DescendingSorted | bolt/appraisal_db.go:240 | The backward walk is strictly decreasing. |
| DBKeys.DescendingStep | bolt/appraisal_db.go:240 | The walk starts at the largest key and goes on with the rest. |
| AppraisalStore.EncodeDBID | bolt/appraisal_db.go:466-468 | The key of an appraisal ID is the 8-byte encoding of its number. |
| AppraisalStore.NewIDKey | bolt/appraisal_db.go:87-103 | An ID made from a sequence number maps back to the same key. Later sequence numbers give larger keys. |
| AppraisalStore.ToInt64 | bolt/appraisal_db.go:338 | The uint64-to-int64 conversion wraps: the result fits int64 and agrees with the input modulo 2^64. |
| AppraisalStore.TimestampRoundTrip | bolt/appraisal_db.go:187-216 | A notification time stored as 8 bytes reads back as the same int64 seconds. |
| AppraisalStore.StrBytes | bolt/appraisal_db.go:123 | The byte form of a string has one byte per character. |
| AppraisalStore.Limit | bolt/appraisal_db.go:264-266 | Listing stops at reqCount entries, or after one when reqCount is 0. |
| AppraisalStore.Take | bolt/appraisal_db.go:262-266 | Returns the first n elements, or all of them when there are fewer. |
| AppraisalStore.Kept | bolt/appraisal_db.go:254-262 | Filtering keeps at most the listed keys. |
| AppraisalStore.KeptSpec | bolt/appraisal_db.go:254-262 | Only appraisals of the requested kind that are not private are kept, and all such appraisals are kept. |
| AppraisalStore.LatestStep | bolt/appraisal_db.go:240-270 | One cursor step keeps the loop invariant, or completes the result at the limit. |
| AppraisalStore.LatestDone | bolt/appraisal_db.go:240-270 | An exhausted cursor has produced the whole result. |
| AppraisalStore.ScanUser | bolt/appraisal_db.go:300-326 | The user scan collects at most the limit and extends what it had collected. |
| AppraisalStore.ScanUserKinds | bolt/appraisal_db.go:313-317 | Everything the scan adds is of the requested kind. |
| AppraisalStore.Run | bolt/appraisal_db.go:300 | Returns the longest prefix of the key walk that stays under the user's prefix. |
| AppraisalStore.ScanUserMeaning | bolt/appraisal_db.go:298-326 | The scan returns the first limit appraisals of the requested kind in the user's run of keys. |
| AppraisalStore.ScanUserStep | bolt/appraisal_db.go:300-326 | One cursor step does one of these: it stops outside the prefix, fails on a missing appraisal, skips another kind, or collects, possibly up to the limit. |
| AppraisalStore.ScanUserDone | bolt/appraisal_db.go:300-326 | An exhausted cursor ends the scan, failing only when the owner hash is empty. |
| AppraisalStore.SeekBounds | bolt/appraisal_db.go:287-298 | Without `after`, the seek key is above every user key. With it, exactly the older IDs lie below. |
| AppraisalStore.OwnEntriesOnly | bolt/appraisal_db.go:123 | A same-length owner hash matches another's prefix only when the hashes are equal. |
| AppraisalStore.NotifiedState | bolt/appraisal_db.go:176-204 | A state is found when both a time and a status are stored. A time is reported whenever one is stored. A missing state has an empty status. |
| AppraisalStore.NotifiedAfterSet | bolt/appraisal_db.go:206-232 | After a set, the state reads back with the new status and time. |
| AppraisalStore.AppraisalDB.constructor | bolt/appraisal_db.go:26-66 | A new store has empty buckets and the initial sequence. |
| AppraisalStore.AppraisalDB.Lookup | bolt/appraisal_db.go:148-174 | An ID finds an appraisal exactly when its encoded key is in the appraisals bucket, and then finds the one stored there. No entry means AppraisalNotFound. |
| AppraisalStore.AppraisalDB.LookupStoredKey | bolt/appraisal_db.go:87-103 | Every appraisal stored under a sequence-number key is found by the ID that key decodes to. |
| AppraisalStore.AppraisalDB.TotalAppraisals | bolt/appraisal_db.go:334-343 | Returns the bucket sequence as an int64, negative past 2^63. |
| AppraisalStore.AppraisalDB.PutNewAppraisal | bolt/appraisal_db.go:82-131 | A new appraisal gets the next sequence number as its ID, and one with an ID keeps it. The owner is taken from the user. The appraisal is stored and indexed under the user's hash. It can be looked up again. |
| AppraisalStore.AppraisalDB.GetNotifiedState | bolt/appraisal_db.go:176-204 | Reads the stored state of the ID. |
| AppraisalStore.AppraisalDB.SetNotifiedState | bolt/appraisal_db.go:206-232 | Writes the status and time only when the status changed, and reports whether it did. Nothing else changes. |
| AppraisalStore.AppraisalDB.DeleteAppraisal | bolt/appraisal_db.go:345-393 | Removes the appraisal, its last-used time, its notification state and its user index entry. |
| AppraisalStore.AppraisalDB.LatestAppraisals | bolt/appraisal_db.go:234-277 | Returns the newest appraisals of the kind that are not private, up to the limit. |
| AppraisalStore.AppraisalDB.LatestAppraisalsByUser | bolt/appraisal_db.go:279-332 | Returns the user's newest appraisals of the kind below the seek point, up to the limit. |

## Left out

- The appraisal reaper (`startReaper`, bolt/appraisal_db.go:414-464) and `setLastUsedTime` are not part of this model. They are background goroutines on a timer.
- Because of that, `GetAppraisal` does not record a last-used time here. `PutNewAppraisal` leaves the last-used times unchanged, which is what a successful call does. The source starts `setLastUsedTime` only when the put failed (bolt/appraisal_db.go:127-129).
- Bolt transactions, gob and snappy encoding, and I/O errors are not modelled. A decode error is modelled only as a missing value.
- AppraisalStore.StrBytes: exact only for characters that fit in one byte, because strings are sequences of characters here, not UTF-8.
- StaticDumpFetcher.TypeDBPathShape and StaticDumpFetcher.Join: the join is a plain "/" join without `filepath.Clean`. A dbPath with trailing or repeated slashes, `.` or `..` gives a different string than Go for the same file. The lemma holds for the plain join only.
- AppraisalStore.AppraisalDB.LatestAppraisals and AppraisalStore.AppraisalDB.LatestAppraisalsByUser require reqCount >= 0. A negative count makes the source's `make` panic.
- The `queriedCount` cap at bolt/appraisal_db.go:268 and 323 is kept as written in LatestAppraisals and LatestAppraisalsByUser. It never fires first, because the source never increments `queriedCount` (bolt/appraisal_db.go:236-325). The model proves nothing about it.
- The appraisal ID codec is a parameter (`IDCodec`).
- ESI fetches are inputs (`Contracts.Env`), as are the location and region lookups and the contract items. So are the buyback offer and the maximum buyback volume from the configuration.
- Dates are whole seconds. The two-week minimum duration is stated in seconds, not hours.
- Error messages are datatype variants, not formatted strings. Logging is left out.
- Pricing.GetAdjustedPriceForItem: the adjective map of an ore family is iterated in Go's unspecified order. The contract allows any adjective found in the name, and the method takes one with `:|`.
- Strs.ToUpperSpec and Strs.ToLowerSpec: case mapping covers ASCII letters only, not Unicode.
- Integer overflow of int64 quantities is not modelled. Integers are unbounded, except for the sequence, key and timestamp conversions, where the wrap-around is explicit.
- Prices use exact reals instead of float64, so rounding is not modelled.
- `SellISKVolume`, `BuyISKVolume`, `Appraisal.String` and `CreatedTime` are not modelled. They are display helpers.
- Where the source does not type-check, the model takes the evident meaning:
  - `calculateBuyback` returns one value;
  - the pricing call with four arguments means empty adjustments;
  - `PriceAdjustment` means the item's `Adjustment` field;
  - the unexported loot fields are read as the parser's items.
- Downloading and reading the static dump are not modelled: the zip cache, the YAML decoding, `FindLastStaticDumpURL`, `NewTypeDB`, the `RunOnce` callback and the six-hour refresh loop. The decoded maps are inputs.
- The parser (`app.Parser`), `regexParseLines` and `ToInt` are parameters. The format parsers other than the loot history are not part of this model. Their results arrive as `Parsers.ParserResult` values.
- Buyback.CollectBuybackItems: the materials graph is assumed acyclic, witnessed by a rank map. The source recurses without a bound and would not terminate on a cycle.
- Normalize.FilterUnparsed: returns a new map instead of deleting from the caller's map in place. The caller only uses the returned map.
- Normalize.FromCargo, Normalize.FromContract, Normalize.FromDScan, Normalize.FromKillmail, Normalize.FromLoot, Normalize.FromPI, Normalize.FromSurvey, Normalize.FromViewContents and Normalize.Plain: their contracts state only that there is one item per entry. The field mapping is in their bodies.
- The web layer and the user-history handlers are not part of this model.
