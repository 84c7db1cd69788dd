/**
  The results the format parsers hand to the appraisal code, as one closed
  datatype (parsers/parser.go:6-11): one variant per result type that
  parserResultToAppraisalItems distinguishes, the multi-parser aggregate, and
  `OtherResult` for a result of any other type (the mining-ledger parser's,
  for one), which that switch ignores. Every variant records the input line
  numbers it consumed.
*/
module Parsers {
  import LootHistory

  datatype Entry = Entry(Name: string, Quantity: int)
  datatype DScanItem = DScanItem(Name: string)
  datatype CargoScanItem = CargoScanItem(Name: string, Quantity: int, BPC: bool)
  datatype ContractItem = ContractItem(Name: string, Quantity: int, Fitted: bool, BPC: bool, BPCRuns: int)
  datatype KillmailItem = KillmailItem(Name: string, Quantity: int, Location: string)
  datatype PIItem = PIItem(Name: string, Quantity: int, Routed: bool, Volume: real)
  datatype SurveyScanItem = SurveyScanItem(Name: string, Quantity: int, Distance: string)
  datatype ViewContentsItem = ViewContentsItem(Name: string, Quantity: int, Location: string)

  datatype ParserResult =
    | AssetList(Items: seq<Entry>, lines: seq<int>)
    | CargoScan(CargoItems: seq<CargoScanItem>, lines: seq<int>)
    | Contract(ContractItems: seq<ContractItem>, lines: seq<int>)
    | DScan(DScanItems: seq<DScanItem>, lines: seq<int>)
    | EFT(Ship: string, Items: seq<Entry>, lines: seq<int>)
    | Fitting(Items: seq<Entry>, lines: seq<int>)
    | Industry(Items: seq<Entry>, lines: seq<int>)
    | Killmail(Dropped: seq<KillmailItem>, Destroyed: seq<KillmailItem>, lines: seq<int>)
    | Listing(Items: seq<Entry>, lines: seq<int>)
    | LootHistoryResult(Loot: LootHistory.LootHistory)
    | PI(PIItems: seq<PIItem>, lines: seq<int>)
    | SurveyScan(SurveyItems: seq<SurveyScanItem>, lines: seq<int>)
    | ViewContents(ViewItems: seq<ViewContentsItem>, lines: seq<int>)
    | Wallet(ItemizedTransactions: seq<Entry>, lines: seq<int>)
    | HeuristicResult(Items: seq<Entry>, lines: seq<int>)
    | MultiParserResult(Results: seq<ParserResult>, lines: seq<int>)
    | OtherResult(name: string, lines: seq<int>)

  /**
    `ParserResult.Name()`: the name of the parser that produced the result.
    Only the loot-history parser's is part of this model; the others are
    the upstream parsers' names.
  */
  function Name(r: ParserResult): string
  {
    match r
    case AssetList(_, _) => "assets"
    case CargoScan(_, _) => "cargo_scan"
    case Contract(_, _) => "contract"
    case DScan(_, _) => "dscan"
    case EFT(_, _, _) => "eft"
    case Fitting(_, _) => "fitting"
    case Industry(_, _) => "industry"
    case Killmail(_, _, _) => "killmail"
    case Listing(_, _) => "listing"
    case LootHistoryResult(loot) => LootHistory.Name(loot)
    case PI(_, _) => "pi"
    case SurveyScan(_, _) => "survey_scan"
    case ViewContents(_, _) => "view_contents"
    case Wallet(_, _) => "wallet"
    case HeuristicResult(_, _) => "heuristic"
    case MultiParserResult(_, _) => "multi"
    case OtherResult(name, _) => name
  }

  /** `ParserResult.Lines()`: the input line numbers the result consumed. */
  function Lines(r: ParserResult): seq<int>
  {
    match r
    case LootHistoryResult(loot) => LootHistory.Lines(loot)
    case _ => r.lines
  }

  /** The default parsers, in priority order (parsers/parser.go:13-30). */
  datatype ParserKind =
    | KillmailParser | EFTParser | FittingParser | LootHistoryParser | PIParser
    | ViewContentsParser | MiningLedgerParser | WalletParser | SurveyScanParser
    | ContractParser | AssetsParser | IndustryParser | CargoScanParser
    | DScanParser | ListingParser

  const AllParsers: seq<ParserKind> := [
    KillmailParser, EFTParser, FittingParser, LootHistoryParser, PIParser,
    ViewContentsParser, MiningLedgerParser, WalletParser, SurveyScanParser,
    ContractParser, AssetsParser, IndustryParser, CargoScanParser,
    DScanParser, ListingParser]
}
