/**
  The read-only catalogs an appraisal consults (typedb/interface.go:3-32 and
  the PriceDB lookups of appraisal.go): types by name and by ID, prices by
  market and type ID. They are immutable maps here; the bolt-backed stores
  behind them are not part of this model.
*/
module TypeDB {
  import opened Wrappers
  import opened PriceAlgebra

  datatype Component = Component(Quantity: int, TypeID: int)

  datatype EveType = EveType(
    ID: int, GroupID: int, MarketGroupID: int, CategoryID: int, Name: string,
    Volume: real, PackagedVolume: real, BasePrice: real, PortionSize: int,
    BlueprintProducts: seq<Component>, Components: seq<Component>,
    BaseComponents: seq<Component>, Materials: seq<Component>)

  /** Go's zero `EveType{}`: what a failed GetTypeByID hands back. */
  const ZeroType := EveType(0, 0, 0, 0, "", 0.0, 0.0, 0.0, 0, [], [], [], [])

  /**
    The application state an appraisal reads: the TypeDB (by name and by ID),
    the PriceDB, and the unseen constant `BaseAdjustmentID` under which the
    base price adjustment is stored in an adjustments map.
  */
  datatype App = App(
    TypesByName: map<string, EveType>,
    TypesByID: map<int, EveType>,
    PriceDB: map<(string, int), Prices>,
    BaseAdjustmentID: int)

  function GetType(app: App, name: string): Option<EveType>
  {
    if name in app.TypesByName then Some(app.TypesByName[name]) else None
  }

  function GetTypeByID(app: App, id: int): Option<EveType>
  {
    if id in app.TypesByID then Some(app.TypesByID[id]) else None
  }

  /** `GetTypeByID` with the found flag ignored: the zero type when missing. */
  function TypeByIDOrZero(app: App, id: int): EveType
  {
    if id in app.TypesByID then app.TypesByID[id] else ZeroType
  }

  function GetPrice(app: App, market: string, id: int): Option<Prices>
  {
    if (market, id) in app.PriceDB then Some(app.PriceDB[(market, id)]) else None
  }

  /** `GetPrice` with the found flag ignored: zero prices when missing. */
  function PriceOrZero(app: App, market: string, id: int): Prices
  {
    if (market, id) in app.PriceDB then app.PriceDB[(market, id)] else ZeroPrices
  }
}
