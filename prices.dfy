/**
  The price statistics of one type in one market (appraisal.go:136-258) and
  their pointwise algebra. Prices and statistics are `real`; float64
  rounding is not modelled. `Updated` is an abstract timestamp.
*/
module PriceAlgebra {

  datatype PriceStats = PriceStats(
    Average: real, Max: real, Median: real, Min: real,
    Percentile: real, Stddev: real, Volume: int, OrderCount: int)

  datatype Prices = Prices(
    All: PriceStats, Buy: PriceStats, Sell: PriceStats,
    Updated: int, Strategy: string, Basis: string)

  const ZeroStats := PriceStats(0.0, 0.0, 0.0, 0.0, 0.0, 0.0, 0, 0)

  /** Go's zero value `Prices{}`. */
  const ZeroPrices := Prices(ZeroStats, ZeroStats, ZeroStats, 0, "", "")

  // ---- one side at a time ----

  function SetStats(s: PriceStats, price: real): PriceStats
  {
    s.(Average := price, Max := price, Min := price, Median := price, Percentile := price)
  }

  function AddStats(s: PriceStats, t: PriceStats): PriceStats
  {
    s.(Average := s.Average + t.Average, Max := s.Max + t.Max, Min := s.Min + t.Min,
       Median := s.Median + t.Median, Percentile := s.Percentile + t.Percentile,
       Stddev := s.Stddev + t.Stddev, Volume := s.Volume + t.Volume)
  }

  /** Subtracts every price field but ADDS the volume, as the source does. */
  function SubStats(s: PriceStats, t: PriceStats): PriceStats
  {
    s.(Average := s.Average - t.Average, Max := s.Max - t.Max, Min := s.Min - t.Min,
       Median := s.Median - t.Median, Percentile := s.Percentile - t.Percentile,
       Stddev := s.Stddev - t.Stddev, Volume := s.Volume + t.Volume)
  }

  function MulStats(s: PriceStats, k: real): PriceStats
  {
    s.(Average := s.Average * k, Max := s.Max * k, Min := s.Min * k,
       Median := s.Median * k, Percentile := s.Percentile * k, Stddev := s.Stddev * k)
  }

  // ---- Prices.Set / Add / Sub / Mul ----

  /** `Prices.Set`: the five price fields of every side become `price`. */
  function Set(p: Prices, price: real): Prices
  {
    p.(All := SetStats(p.All, price), Buy := SetStats(p.Buy, price), Sell := SetStats(p.Sell, price))
  }

  /** `Prices.Add`: pointwise sum; metadata and order counts stay those of `p`. */
  function Add(p: Prices, q: Prices): Prices
  {
    p.(All := AddStats(p.All, q.All), Buy := AddStats(p.Buy, q.Buy), Sell := AddStats(p.Sell, q.Sell))
  }

  /** `Prices.Sub`: pointwise difference of prices, sum of volumes. */
  function Sub(p: Prices, q: Prices): Prices
  {
    p.(All := SubStats(p.All, q.All), Buy := SubStats(p.Buy, q.Buy), Sell := SubStats(p.Sell, q.Sell))
  }

  /** `Prices.Mul`: scales the price fields and Stddev, never Volume or OrderCount. */
  function Mul(p: Prices, k: real): Prices
  {
    p.(All := MulStats(p.All, k), Buy := MulStats(p.Buy, k), Sell := MulStats(p.Sell, k))
  }

  // ---- the algebra ----

  /** `p` with `times` times q's volume added to the volume of each side. */
  function WithExtraVolume(p: Prices, q: Prices, times: int): Prices
  {
    p.(All := p.All.(Volume := p.All.Volume + times * q.All.Volume),
       Buy := p.Buy.(Volume := p.Buy.Volume + times * q.Buy.Volume),
       Sell := p.Sell.(Volume := p.Sell.Volume + times * q.Sell.Volume))
  }

  /**
    Adding and then subtracting `q` restores every price field of `p`, but
    each volume ends up grown by twice q's volume, because Sub adds volumes.
  */
  lemma AddThenSub(p: Prices, q: Prices)
    ensures Sub(Add(p, q), q) == WithExtraVolume(p, q, 2)
  {
  }

  /** Subtracting and then adding also restores prices and doubles q's volume. */
  lemma SubThenAdd(p: Prices, q: Prices)
    ensures Add(Sub(p, q), q) == WithExtraVolume(p, q, 2)
  {
  }

  /** So Add and Sub are inverse exactly when q carries no volume. */
  lemma AddSubInverseIffNoVolume(p: Prices, q: Prices)
    ensures Sub(Add(p, q), q) == p <==> (q.All.Volume == 0 && q.Buy.Volume == 0 && q.Sell.Volume == 0)
  {
    AddThenSub(p, q);
    if Sub(Add(p, q), q) == p {
      assert Sub(Add(p, q), q).All.Volume == p.All.Volume;
      assert Sub(Add(p, q), q).Buy.Volume == p.Buy.Volume;
      assert Sub(Add(p, q), q).Sell.Volume == p.Sell.Volume;
    }
  }

  lemma MulByOne(p: Prices)
    ensures Mul(p, 1.0) == p
  {
  }

  lemma MulStatsCompose(s: PriceStats, a: real, b: real)
    ensures MulStats(MulStats(s, a), b) == MulStats(s, a * b)
  {
    MulAssoc(s.Average, a, b);
    MulAssoc(s.Max, a, b);
    MulAssoc(s.Min, a, b);
    MulAssoc(s.Median, a, b);
    MulAssoc(s.Percentile, a, b);
    MulAssoc(s.Stddev, a, b);
  }

  lemma MulAssoc(x: real, a: real, b: real)
    ensures x * a * b == x * (a * b)
  {
  }

  lemma MulCompose(p: Prices, a: real, b: real)
    ensures Mul(Mul(p, a), b) == Mul(p, a * b)
  {
    MulStatsCompose(p.All, a, b);
    MulStatsCompose(p.Buy, a, b);
    MulStatsCompose(p.Sell, a, b);
  }

  /** Mul distributes over Add: volumes are untouched by Mul and summed by Add on both sides. */
  lemma MulStatsOverAdd(s: PriceStats, t: PriceStats, k: real)
    ensures MulStats(AddStats(s, t), k) == AddStats(MulStats(s, k), MulStats(t, k))
  {
    assert (s.Average + t.Average) * k == s.Average * k + t.Average * k;
    assert (s.Max + t.Max) * k == s.Max * k + t.Max * k;
    assert (s.Min + t.Min) * k == s.Min * k + t.Min * k;
    assert (s.Median + t.Median) * k == s.Median * k + t.Median * k;
    assert (s.Percentile + t.Percentile) * k == s.Percentile * k + t.Percentile * k;
    assert (s.Stddev + t.Stddev) * k == s.Stddev * k + t.Stddev * k;
  }

  lemma MulOverAdd(p: Prices, q: Prices, k: real)
    ensures Mul(Add(p, q), k) == Add(Mul(p, k), Mul(q, k))
  {
    MulStatsOverAdd(p.All, q.All, k);
    MulStatsOverAdd(p.Buy, q.Buy, k);
    MulStatsOverAdd(p.Sell, q.Sell, k);
  }

  /** On one side, Set makes the five price fields `x` and keeps the spread and the counts. */
  predicate SetSide(r: PriceStats, s: PriceStats, x: real)
  {
    r.Average == x && r.Max == x && r.Min == x && r.Median == x && r.Percentile == x &&
    r.Stddev == s.Stddev && r.Volume == s.Volume && r.OrderCount == s.OrderCount
  }

  /**
    Set makes the five price fields of All, Buy and Sell equal to `x`, keeps
    their Stddev, Volume and OrderCount and the metadata, and a later Set
    overrides an earlier one.
  */
  lemma SetKeepsSpread(p: Prices, x: real, y: real)
    ensures SetSide(Set(p, x).All, p.All, x)
    ensures SetSide(Set(p, x).Buy, p.Buy, x)
    ensures SetSide(Set(p, x).Sell, p.Sell, x)
    ensures Set(p, x).Updated == p.Updated && Set(p, x).Strategy == p.Strategy
    ensures Set(p, x).Basis == p.Basis
    ensures Set(Set(p, x), y) == Set(p, y)
  {
  }

  /** Setting then scaling equals scaling then setting to the scaled price. */
  lemma SetThenMul(p: Prices, x: real, k: real)
    ensures Mul(Set(p, x), k) == Set(Mul(p, k), x * k)
  {
    SetStatsThenMul(p.All, x, k);
    SetStatsThenMul(p.Buy, x, k);
    SetStatsThenMul(p.Sell, x, k);
  }

  lemma SetStatsThenMul(s: PriceStats, x: real, k: real)
    ensures MulStats(SetStats(s, x), k) == SetStats(MulStats(s, k), x * k)
  {
  }

  /** Adding the zero statistics changes nothing. */
  lemma AddZero(p: Prices)
    ensures Add(p, ZeroPrices) == p
  {
  }

  /** Add is associative: running sums can be regrouped. */
  lemma AddAssoc(p: Prices, q: Prices, r: Prices)
    ensures Add(Add(p, q), r) == Add(p, Add(q, r))
  {
  }
}
