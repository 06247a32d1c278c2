/** The older simulate_hedge of src/hedge_simulator.py: a caller-chosen
    price range and number of points, a contract size parameter, and both
    the position values and the P&L in the returned frame. The premium is
    paid once, outside the payoff's `max`. */
module LegacyHedgeSimulator {
  import opened Common

  const DefaultContracts: int := 1
  const DefaultContractSize: int := 100
  const DefaultPriceLow: real := 100.0
  const DefaultPriceHigh: real := 400.0
  const DefaultNumPoints: int := 100

  /** One row of the returned frame, in its column order. */
  datatype LegacyRow = LegacyRow(
    price: real,
    unhedgedValue: real,
    hedgedValue: real,
    unhedgedPnl: real,
    hedgedPnl: real)

  /** Decimal digits of a natural number. */
  function NatToString(n: nat): (s: string)
    ensures |s| >= 1
    ensures forall i :: 0 <= i < |s| ==> '0' <= s[i] <= '9'
    decreases n
  {
    var digit := ['0' + (n % 10) as char];
    if n < 10 then digit else NatToString(n / 10) + digit
  }

  /** The message of the error `np.linspace` raises for a negative number
      of samples. */
  function NegativeSamplesText(numPoints: int): string
    requires numPoints < 0
  {
    "Number of samples, -" + NatToString(-numPoints) + ", must be non-negative."
  }

  /** The put payoff at `futurePrice` over all contracts. */
  function PutPayoff(strike: real, futurePrice: real, contracts: int, contractSize: int): (r: real)
    ensures contracts as real * contractSize as real >= 0.0 ==> r >= 0.0
    ensures futurePrice >= strike ==> r == 0.0
    ensures futurePrice < strike ==>
      r == (strike - futurePrice) * (contracts as real) * (contractSize as real)
  {
    Max(strike - futurePrice, 0.0) * (contracts as real) * (contractSize as real)
  }

  function LegacyRowAt(currentPrice: real, numShares: real, strike: real, premium: real, contracts: int,
                       contractSize: int, futurePrice: real): LegacyRow
  {
    var unhedgedValue := futurePrice * numShares;
    var putPayoff := PutPayoff(strike, futurePrice, contracts, contractSize);
    var totalPremium := premium * (contracts as real) * (contractSize as real);
    var hedgedValue := unhedgedValue + (putPayoff - totalPremium);
    var initialValue := currentPrice * numShares;
    LegacyRow(futurePrice, unhedgedValue, hedgedValue, unhedgedValue - initialValue, hedgedValue - initialValue)
  }

  /** simulate_hedge: fails only when the number of points is negative;
      otherwise one row per grid price, in grid order, with the values and
      P&L of the position with and without the puts. */
  function SimulateHedge(currentPrice: real, numShares: real, strike: real, premium: real, contracts: int,
                         contractSize: int, priceLow: real, priceHigh: real, numPoints: int)
    : (r: Result<seq<LegacyRow>>)
    ensures r.Err? <==> numPoints < 0
    ensures r.Err? ==> r.message == NegativeSamplesText(numPoints)
    ensures r.Ok? ==> |r.value| == numPoints
    ensures r.Ok? ==> forall i :: 0 <= i < |r.value| ==>
      var row := r.value[i];
      && row.price == LinspaceAt(priceLow, priceHigh, numPoints as nat, i)
      && row.unhedgedValue == row.price * numShares
      && row.unhedgedPnl == row.unhedgedValue - currentPrice * numShares
      && row.hedgedValue == row.unhedgedValue + PutPayoff(strike, row.price, contracts, contractSize)
                            - premium * (contracts as real) * (contractSize as real)
      && row.hedgedPnl == row.hedgedValue - currentPrice * numShares
  {
    if numPoints < 0 then Err(NegativeSamplesText(numPoints))
    else
      var grid := Linspace(priceLow, priceHigh, numPoints as nat);
      Ok(seq(|grid|, i requires 0 <= i < |grid| =>
        LegacyRowAt(currentPrice, numShares, strike, premium, contracts, contractSize, grid[i])))
  }

  /** With a non-negative contract count and size, the hedged P&L is never
      below the unhedged P&L less the total premium, and equals exactly
      that at or above the strike. */
  lemma HedgedPnlFloor(currentPrice: real, numShares: real, strike: real, premium: real, contracts: int,
                       contractSize: int, priceLow: real, priceHigh: real, numPoints: int)
    requires contracts >= 0 && contractSize >= 0
    ensures var r := SimulateHedge(currentPrice, numShares, strike, premium, contracts, contractSize,
                                   priceLow, priceHigh, numPoints);
      var totalPremium := premium * (contracts as real) * (contractSize as real);
      r.Ok? ==>
        && (forall i :: 0 <= i < |r.value| ==> r.value[i].hedgedPnl >= r.value[i].unhedgedPnl - totalPremium)
        && (forall i :: 0 <= i < |r.value| && r.value[i].price >= strike ==>
              r.value[i].hedgedPnl == r.value[i].unhedgedPnl - totalPremium)
  {
    MulLeftMono(0.0, contracts as real, contractSize as real);
  }

  /** For an increasing price range the rows run in price order from the
      low end to the high end, both included once there are two points. */
  lemma RowsInPriceOrder(currentPrice: real, numShares: real, strike: real, premium: real, contracts: int,
                         contractSize: int, priceLow: real, priceHigh: real, numPoints: int)
    requires priceLow <= priceHigh
    ensures var r := SimulateHedge(currentPrice, numShares, strike, premium, contracts, contractSize,
                                   priceLow, priceHigh, numPoints);
      r.Ok? ==>
        && (forall i, j :: 0 <= i <= j < |r.value| ==> r.value[i].price <= r.value[j].price)
        && (forall i :: 0 <= i < |r.value| ==> priceLow <= r.value[i].price <= priceHigh)
        && (numPoints >= 2 ==> r.value[0].price == priceLow && r.value[numPoints - 1].price == priceHigh)
  {
    if numPoints >= 0 {
      LinspaceAscending(priceLow, priceHigh, numPoints as nat);
      LinspaceEnds(priceLow, priceHigh, numPoints as nat);
    }
  }

  /** The defaults: 100 rows from 100 to 400. */
  lemma DefaultGrid(currentPrice: real, numShares: real, strike: real, premium: real)
    ensures var r := SimulateHedge(currentPrice, numShares, strike, premium, DefaultContracts, DefaultContractSize,
                                   DefaultPriceLow, DefaultPriceHigh, DefaultNumPoints);
      && r.Ok? && |r.value| == 100
      && r.value[0].price == 100.0 && r.value[99].price == 400.0
  {
    LinspaceEnds(DefaultPriceLow, DefaultPriceHigh, 100);
  }
}
