/** The basket P&L simulator of src/sim/put_pnl_simulator.py. The hedge
    cost is checked against the budget before anything is simulated; the
    payoff of each leg keeps the premium inside the `max`; in "sell" mode
    the shares sold are fixed once at the current price; in "cash" mode the
    unspent budget stays as cash. */
module PutPnlSimulator {
  import opened Common
  import BreakevenLogic

  const OverBudgetText := "Hedge cost exceeds hedge budget"

  /** No selected row holds a negative contract count. */
  predicate CountsNonNegative(puts: seq<SelectedPut>)
  {
    forall i :: 0 <= i < |puts| ==> puts[i].contracts >= 0
  }

  /** No selected row holds a negative mid or contract count. */
  predicate CostsNonNegative(puts: seq<SelectedPut>)
  {
    forall i :: 0 <= i < |puts| ==> puts[i].midPrice >= 0.0 && puts[i].contracts >= 0
  }

  /** `Σ mid_price * 100 * contracts` over the selected rows. */
  function HedgeCost(puts: seq<SelectedPut>): real
  {
    if puts == [] then 0.0
    else HedgeCost(puts[..|puts| - 1])
         + puts[|puts| - 1].midPrice * SharesPerContract * (puts[|puts| - 1].contracts as real)
  }

  /** Payoff of one leg at `futurePrice`. */
  function LegPayoff(p: SelectedPut, futurePrice: real): real
  {
    Max(0.0, p.strike - futurePrice - p.midPrice) * (p.contracts as real) * SharesPerContract
  }

  /** Sum of the leg payoffs, accumulated in row order. */
  function TotalPayoff(puts: seq<SelectedPut>, futurePrice: real): real
  {
    if puts == [] then 0.0
    else TotalPayoff(puts[..|puts| - 1], futurePrice) + LegPayoff(puts[|puts| - 1], futurePrice)
  }

  /** Capital at `futurePrice` given the basket payoff there and the
      precomputed hedge cost. */
  function StrictNowCapital(basketPayoff: real, futurePrice: real, currentPrice: real, shares: real,
                            hedgeBudget: real, budgetSource: string, hedgeCost: real): real
    requires budgetSource == "sell" ==> currentPrice != 0.0
  {
    if budgetSource == "sell" then
      basketPayoff + (shares - hedgeCost / currentPrice) * futurePrice
    else
      basketPayoff + shares * futurePrice + (hedgeBudget - hedgeCost)
  }

  /** The initial capital of the simulation (the same rule as the capital
      model, with no contract involved). */
  function StrictInitialCapital(currentPrice: real, shares: real, avgPrice: real, hedgeBudget: real,
                                budgetSource: string, useMarketPrice: bool): real
  {
    BreakevenLogic.InitialCapital(currentPrice, shares, avgPrice, hedgeBudget, 0.0, 0, budgetSource, useMarketPrice)
  }

  /** The row for one scenario price, given the basket payoff there and
      the hedge cost. */
  function StrictRowFrom(basketPayoff: real, hedgeCost: real, futurePrice: real, currentPrice: real, shares: real,
                         avgPrice: real, hedgeBudget: real, budgetSource: string, useMarketPrice: bool): PnlRow
    requires budgetSource == "sell" ==> currentPrice != 0.0
  {
    var initial := StrictInitialCapital(currentPrice, shares, avgPrice, hedgeBudget, budgetSource, useMarketPrice);
    var now := StrictNowCapital(basketPayoff, futurePrice, currentPrice, shares, hedgeBudget, budgetSource, hedgeCost);
    PnlRow(futurePrice, initial, now, now - initial)
  }

  function StrictRow(puts: seq<SelectedPut>, futurePrice: real, currentPrice: real, shares: real, avgPrice: real,
                     hedgeBudget: real, budgetSource: string, useMarketPrice: bool): PnlRow
    requires budgetSource == "sell" ==> currentPrice != 0.0
  {
    StrictRowFrom(TotalPayoff(puts, futurePrice), HedgeCost(puts), futurePrice, currentPrice, shares, avgPrice,
                  hedgeBudget, budgetSource, useMarketPrice)
  }

  /** The returned table and the hedge cost. */
  datatype StrictOutcome = StrictOutcome(rows: seq<PnlRow>, hedgeCost: real)

  /** The inner loop of simulate_put_pnl_strict: the payoff of every leg at
      one future price, summed in row order. */
  method BasketPayoff(puts: seq<SelectedPut>, futurePrice: real) returns (total: real)
    ensures total == TotalPayoff(puts, futurePrice)
  {
    total := 0.0;
    var j := 0;
    while j < |puts|
      invariant 0 <= j <= |puts|
      invariant total == TotalPayoff(puts[..j], futurePrice)
    {
      var payoff := Max(0.0, puts[j].strike - futurePrice - puts[j].midPrice)
                    * (puts[j].contracts as real) * SharesPerContract;
      assert puts[..j + 1][..j] == puts[..j];
      total := total + payoff;
      j := j + 1;
    }
    assert puts[..|puts|] == puts;
  }

  /** simulate_put_pnl_strict. Fails, with no rows at all, exactly when the
      basket costs more than the budget; otherwise one row per grid price,
      in grid order, each with the same initial capital and
      `net_pnl = now_capital - initial_capital`. */
  method SimulatePutPnlStrict(puts: seq<SelectedPut>, priceRange: seq<real>, currentPrice: real, shares: real,
                              avgPrice: real, hedgeBudget: real, budgetSource: string, useMarketPrice: bool)
    returns (r: Result<StrictOutcome>)
    requires budgetSource == "sell" && |priceRange| > 0 && HedgeCost(puts) <= hedgeBudget ==> currentPrice != 0.0
    ensures r.Err? <==> HedgeCost(puts) > hedgeBudget
    ensures r.Err? ==> r.message == OverBudgetText
    ensures r.Ok? ==> r.value.hedgeCost == HedgeCost(puts) && |r.value.rows| == |priceRange|
    ensures r.Ok? ==> forall i :: 0 <= i < |priceRange| ==>
      r.value.rows[i] == StrictRow(puts, priceRange[i], currentPrice, shares, avgPrice, hedgeBudget,
                                   budgetSource, useMarketPrice)
  {
    var hedgeCost := HedgeCost(puts);
    if hedgeCost > hedgeBudget {
      return Err(OverBudgetText);
    }

    var stockValueInitial := if useMarketPrice then shares * currentPrice else shares * avgPrice;
    var initialCapital := if budgetSource == "cash" then stockValueInitial + hedgeBudget else stockValueInitial;
    assert initialCapital == StrictInitialCapital(currentPrice, shares, avgPrice, hedgeBudget, budgetSource,
                                                  useMarketPrice);

    var rows: seq<PnlRow> := [];
    var k := 0;
    while k < |priceRange|
      invariant 0 <= k <= |priceRange|
      invariant |rows| == k
      invariant forall i :: 0 <= i < k ==>
        rows[i] == StrictRow(puts, priceRange[i], currentPrice, shares, avgPrice, hedgeBudget,
                             budgetSource, useMarketPrice)
    {
      var futurePrice := priceRange[k];
      var totalPutPayoff := BasketPayoff(puts, futurePrice);
      var nowCapital := ScenarioCapital(totalPutPayoff, futurePrice, currentPrice, shares, hedgeBudget,
                                        budgetSource, hedgeCost);
      rows := rows + [PnlRow(futurePrice, initialCapital, nowCapital, nowCapital - initialCapital)];
      k := k + 1;
    }
    return Ok(StrictOutcome(rows, hedgeCost));
  }

  /** The capital held at one scenario price. In "sell" mode the shares
      sold at the current price cost exactly the hedge there, and with
      prices and cost non-negative the holding is worth no more than
      unhedged; in any other mode the unspent budget is held as cash, so a
      hedge within budget never leaves less than payoff plus stock. */
  method ScenarioCapital(totalPutPayoff: real, futurePrice: real, currentPrice: real, shares: real,
                         hedgeBudget: real, budgetSource: string, hedgeCost: real)
    returns (nowCapital: real)
    requires budgetSource == "sell" ==> currentPrice != 0.0
    ensures nowCapital == StrictNowCapital(totalPutPayoff, futurePrice, currentPrice, shares, hedgeBudget,
                                           budgetSource, hedgeCost)
    ensures budgetSource == "sell" && futurePrice == currentPrice ==>
      nowCapital == totalPutPayoff + shares * currentPrice - hedgeCost
    ensures budgetSource == "sell" && currentPrice > 0.0 && futurePrice >= 0.0 && hedgeCost >= 0.0 ==>
      nowCapital <= totalPutPayoff + shares * futurePrice
    ensures budgetSource != "sell" ==>
      nowCapital - (totalPutPayoff + shares * futurePrice) == hedgeBudget - hedgeCost
    ensures budgetSource != "sell" && hedgeCost <= hedgeBudget ==>
      nowCapital >= totalPutPayoff + shares * futurePrice
  {
    if budgetSource == "sell" {
      var sharesSold := hedgeCost / currentPrice;
      var sharesRemaining := shares - sharesSold;
      var stockValue := sharesRemaining * futurePrice;
      nowCapital := totalPutPayoff + stockValue;
      SharesSoldValue(shares, hedgeCost, currentPrice, futurePrice);
    } else {
      var stockValue := shares * futurePrice;
      var leftoverCash := hedgeBudget - hedgeCost;
      nowCapital := totalPutPayoff + stockValue + leftoverCash;
    }
  }

  /** With no negative mid and no negative contract count the basket
      never costs less than nothing. */
  lemma {:induction false} HedgeCostNonNegative(puts: seq<SelectedPut>)
    requires CostsNonNegative(puts)
    ensures HedgeCost(puts) >= 0.0
  {
    if puts != [] {
      HedgeCostNonNegative(puts[..|puts| - 1]);
      var p := puts[|puts| - 1];
      assert p.midPrice * SharesPerContract * (p.contracts as real) >= 0.0;
    }
  }

  /** With non-negative contract counts the basket payoff is never
      negative. */
  lemma {:induction false} TotalPayoffNonNegative(puts: seq<SelectedPut>, futurePrice: real)
    requires CountsNonNegative(puts)
    ensures TotalPayoff(puts, futurePrice) >= 0.0
  {
    if puts != [] {
      TotalPayoffNonNegative(puts[..|puts| - 1], futurePrice);
      var p := puts[|puts| - 1];
      assert Max(0.0, p.strike - futurePrice - p.midPrice) * (p.contracts as real) >= 0.0;
    }
  }

  /** Above every leg's `strike - premium` the basket pays nothing. */
  lemma {:induction false} TotalPayoffVanishes(puts: seq<SelectedPut>, futurePrice: real)
    requires forall i :: 0 <= i < |puts| ==> futurePrice >= puts[i].strike - puts[i].midPrice
    ensures TotalPayoff(puts, futurePrice) == 0.0
  {
    if puts != [] {
      TotalPayoffVanishes(puts[..|puts| - 1], futurePrice);
    }
  }

  /** With the market-price basis in "sell" mode, the net P&L is the stock
      move plus the basket payoff less the hedge cost scaled by
      `fp / current_price`: the shares sold would have been worth that much
      at `fp`. */
  lemma {:induction false} SellMarketBasisNetPnl(puts: seq<SelectedPut>, futurePrice: real, currentPrice: real, shares: real,
                              avgPrice: real, hedgeBudget: real)
    requires currentPrice != 0.0
    ensures StrictRow(puts, futurePrice, currentPrice, shares, avgPrice, hedgeBudget, "sell", true).netPnl
         == shares * (futurePrice - currentPrice) + TotalPayoff(puts, futurePrice)
            - HedgeCost(puts) * futurePrice / currentPrice
  {
    SellRowNetPnl(TotalPayoff(puts, futurePrice), HedgeCost(puts), futurePrice, currentPrice, shares, avgPrice,
                  hedgeBudget);
  }

  /** With the market-price basis in "cash" mode, the net P&L is the stock
      move plus the basket payoff less the hedge cost in full. */
  lemma CashMarketBasisNetPnl(puts: seq<SelectedPut>, futurePrice: real, currentPrice: real, shares: real,
                              avgPrice: real, hedgeBudget: real)
    ensures StrictRow(puts, futurePrice, currentPrice, shares, avgPrice, hedgeBudget, "cash", true).netPnl
         == shares * (futurePrice - currentPrice) + TotalPayoff(puts, futurePrice) - HedgeCost(puts)
  {
    CashRowNetPnl(TotalPayoff(puts, futurePrice), HedgeCost(puts), futurePrice, currentPrice, shares, avgPrice,
                  hedgeBudget);
  }

  /** "sell" mode's net P&L for any basket payoff and hedge cost. */
  lemma SellRowNetPnl(payoff: real, cost: real, futurePrice: real, currentPrice: real, shares: real, avgPrice: real,
                      hedgeBudget: real)
    requires currentPrice != 0.0
    ensures StrictRowFrom(payoff, cost, futurePrice, currentPrice, shares, avgPrice, hedgeBudget, "sell", true).netPnl
         == shares * (futurePrice - currentPrice) + payoff - cost * futurePrice / currentPrice
  {
    var row := StrictRowFrom(payoff, cost, futurePrice, currentPrice, shares, avgPrice, hedgeBudget, "sell", true);
    assert row.netPnl == payoff + (shares - cost / currentPrice) * futurePrice - shares * currentPrice;
    SharesSoldValue(shares, cost, currentPrice, futurePrice);
  }

  /** "cash" mode's net P&L for any basket payoff and hedge cost. */
  lemma CashRowNetPnl(payoff: real, cost: real, futurePrice: real, currentPrice: real, shares: real, avgPrice: real,
                      hedgeBudget: real)
    ensures StrictRowFrom(payoff, cost, futurePrice, currentPrice, shares, avgPrice, hedgeBudget, "cash", true).netPnl
         == shares * (futurePrice - currentPrice) + payoff - cost
  {
    var row := StrictRowFrom(payoff, cost, futurePrice, currentPrice, shares, avgPrice, hedgeBudget, "cash", true);
    assert row.netPnl == payoff + shares * futurePrice + (hedgeBudget - cost) - (shares * currentPrice + hedgeBudget);
  }

  lemma SharesSoldValue(shares: real, cost: real, soldAt: real, price: real)
    requires soldAt != 0.0
    ensures (shares - cost / soldAt) * price == shares * price - cost * price / soldAt
  {
  }

  /** With the market-price basis and the puts out of the money, "cash"
      mode's net P&L is the stock move less the hedge cost. */
  lemma CashNetPnlWithoutPayoff(puts: seq<SelectedPut>, futurePrice: real, currentPrice: real, shares: real,
                                avgPrice: real, hedgeBudget: real)
    requires forall i :: 0 <= i < |puts| ==> futurePrice >= puts[i].strike - puts[i].midPrice
    ensures StrictRow(puts, futurePrice, currentPrice, shares, avgPrice, hedgeBudget, "cash", true).netPnl
         == shares * (futurePrice - currentPrice) - HedgeCost(puts)
  {
    TotalPayoffVanishes(puts, futurePrice);
    CashMarketBasisNetPnl(puts, futurePrice, currentPrice, shares, avgPrice, hedgeBudget);
  }

  /** At the current price, with the market-price basis, both funding modes
      report the same net P&L: the basket payoff less the hedge cost. */
  lemma ModesAgreeAtCurrentPrice(puts: seq<SelectedPut>, currentPrice: real, shares: real, avgPrice: real,
                                 hedgeBudget: real)
    requires currentPrice != 0.0
    ensures StrictRow(puts, currentPrice, currentPrice, shares, avgPrice, hedgeBudget, "sell", true).netPnl
         == TotalPayoff(puts, currentPrice) - HedgeCost(puts)
    ensures StrictRow(puts, currentPrice, currentPrice, shares, avgPrice, hedgeBudget, "cash", true).netPnl
         == TotalPayoff(puts, currentPrice) - HedgeCost(puts)
  {
    SellMarketBasisNetPnl(puts, currentPrice, currentPrice, shares, avgPrice, hedgeBudget);
    CashMarketBasisNetPnl(puts, currentPrice, currentPrice, shares, avgPrice, hedgeBudget);
  }
}
