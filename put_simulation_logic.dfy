/** The basket net P&L sweep of src/sim/put_simulation_logic.py. It calls
    the single-contract capital model of src/sim/put_breakeven_logic.py
    once per selected row and adds the results, so the shares held are
    valued once per row; there is no budget check. */
module PutSimulationLogic {
  import opened Common
  import BreakevenLogic
  import PutPnlSimulator

  /** Only the first statement's sum, the contract total, reaches the
      initial capital, which ignores it. */
  function ContractsTotal(puts: seq<SelectedPut>): int
  {
    if puts == [] then 0 else ContractsTotal(puts[..|puts| - 1]) + puts[|puts| - 1].contracts
  }

  /** In "sell" mode every row's capital divides by the scenario price. */
  predicate PriceUsable(puts: seq<SelectedPut>, futurePrice: real, budgetSource: string)
  {
    budgetSource == "sell" && puts != [] ==> futurePrice != 0.0
  }

  /** `Σ calculate_now_capital(fp, strike, mid, contracts, shares, source)`
      over the selected rows, in row order. Outside "sell" mode nothing is
      paid out of the holding, so with non-negative shares, price and
      contract counts the sum is never negative. */
  function TotalNowCapital(puts: seq<SelectedPut>, futurePrice: real, shares: real, budgetSource: string): (r: real)
    requires PriceUsable(puts, futurePrice, budgetSource)
    ensures (budgetSource != "sell" && shares >= 0.0 && futurePrice >= 0.0
             && PutPnlSimulator.CountsNonNegative(puts)) ==> r >= 0.0
  {
    if puts == [] then 0.0
    else
      var last := puts[|puts| - 1];
      assert shares >= 0.0 && futurePrice >= 0.0 ==> shares * futurePrice >= 0.0;
      TotalNowCapital(puts[..|puts| - 1], futurePrice, shares, budgetSource)
      + BreakevenLogic.NowCapital(futurePrice, last.strike, last.midPrice, last.contracts, shares, budgetSource)
  }

  /** The initial capital of the sweep: the capital model with no premium
      and the contract total. */
  function SweepInitialCapital(puts: seq<SelectedPut>, currentPrice: real, shares: real, avgPrice: real,
                               hedgeBudget: real, budgetSource: string, useMarketPrice: bool): real
  {
    BreakevenLogic.InitialCapital(currentPrice, shares, avgPrice, hedgeBudget, 0.0, ContractsTotal(puts),
                                  budgetSource, useMarketPrice)
  }

  /** The row the sweep emits for one grid price. */
  function SweepRow(puts: seq<SelectedPut>, futurePrice: real, currentPrice: real, shares: real, avgPrice: real,
                    hedgeBudget: real, budgetSource: string, useMarketPrice: bool): PnlRow
    requires PriceUsable(puts, futurePrice, budgetSource)
  {
    var initial := SweepInitialCapital(puts, currentPrice, shares, avgPrice, hedgeBudget, budgetSource,
                                       useMarketPrice);
    var now := TotalNowCapital(puts, futurePrice, shares, budgetSource);
    PnlRow(futurePrice, initial, now, now - initial)
  }

  /** The inner loop: every selected row's capital at one scenario price,
      summed in row order. */
  method SumNowCapital(puts: seq<SelectedPut>, futurePrice: real, shares: real, budgetSource: string)
    returns (totalNow: real)
    requires PriceUsable(puts, futurePrice, budgetSource)
    ensures totalNow == TotalNowCapital(puts, futurePrice, shares, budgetSource)
  {
    totalNow := 0.0;
    var j := 0;
    while j < |puts|
      invariant 0 <= j <= |puts|
      invariant PriceUsable(puts[..j], futurePrice, budgetSource)
      invariant totalNow == TotalNowCapital(puts[..j], futurePrice, shares, budgetSource)
    {
      var row := puts[j];
      assert puts[..j + 1][..j] == puts[..j];
      totalNow := totalNow + BreakevenLogic.NowCapital(futurePrice, row.strike, row.midPrice, row.contracts,
                                                        shares, budgetSource);
      j := j + 1;
    }
    assert puts[..|puts|] == puts;
  }

  /** simulate_put_net_pnl: one row per grid price, in grid order, all with
      the same initial capital, each with the summed capital of the
      selected rows at that price and `net_pnl = now - initial`. */
  method SimulatePutNetPnl(puts: seq<SelectedPut>, priceRange: seq<real>, currentPrice: real, shares: real,
                           avgPrice: real, hedgeBudget: real, budgetSource: string, useMarketPrice: bool)
    returns (rows: seq<PnlRow>)
    requires forall i :: 0 <= i < |priceRange| ==> PriceUsable(puts, priceRange[i], budgetSource)
    ensures |rows| == |priceRange|
    ensures forall i :: 0 <= i < |rows| ==>
      rows[i] == SweepRow(puts, priceRange[i], currentPrice, shares, avgPrice, hedgeBudget, budgetSource,
                          useMarketPrice)
  {
    var contractsTotal := 0;
    var j := 0;
    while j < |puts|
      invariant 0 <= j <= |puts|
      invariant contractsTotal == ContractsTotal(puts[..j])
    {
      assert puts[..j + 1][..j] == puts[..j];
      contractsTotal := contractsTotal + puts[j].contracts;
      j := j + 1;
    }
    assert puts[..|puts|] == puts;
    var initialCapital := BreakevenLogic.InitialCapital(currentPrice, shares, avgPrice, hedgeBudget, 0.0,
                                                        contractsTotal, budgetSource, useMarketPrice);

    rows := [];
    var k := 0;
    while k < |priceRange|
      invariant 0 <= k <= |priceRange|
      invariant |rows| == k
      invariant forall i :: 0 <= i < k ==>
        rows[i] == PnlRow(priceRange[i], initialCapital, TotalNowCapital(puts, priceRange[i], shares, budgetSource),
                          TotalNowCapital(puts, priceRange[i], shares, budgetSource) - initialCapital)
    {
      var futurePrice := priceRange[k];
      var totalNow := SumNowCapital(puts, futurePrice, shares, budgetSource);
      var netPnl := totalNow - initialCapital;
      rows := rows + [PnlRow(futurePrice, initialCapital, totalNow, netPnl)];
      k := k + 1;
    }
  }

  /** `v` added up `n` times. */
  function Repeated(n: nat, v: real): real
  {
    if n == 0 then 0.0 else Repeated(n - 1, v) + v
  }

  /** Adding `v` up `n` times multiplies it by `n`: with `n` rows the sum
      holds the stock `n` times over. */
  lemma {:induction false} RepeatedIsProduct(n: nat, v: real)
    ensures Repeated(n, v) == (n as real) * v
  {
    if n > 0 {
      RepeatedIsProduct(n - 1, v);
    }
  }

  /** The summed capital splits into the basket payoff (premium inside the
      `max`, as in the strict simulator), the whole stock value added once
      PER ROW, and in "sell" mode the hedge cost of the basket. */
  lemma {:induction false} StockCountedPerRow(puts: seq<SelectedPut>, futurePrice: real, shares: real,
                                              budgetSource: string)
    requires PriceUsable(puts, futurePrice, budgetSource)
    ensures TotalNowCapital(puts, futurePrice, shares, budgetSource)
         == PutPnlSimulator.TotalPayoff(puts, futurePrice) + Repeated(|puts|, shares * futurePrice)
            - (if budgetSource == "sell" then PutPnlSimulator.HedgeCost(puts) else 0.0)
  {
    if puts != [] {
      var init := puts[..|puts| - 1];
      var last := puts[|puts| - 1];
      assert PriceUsable(init, futurePrice, budgetSource);
      StockCountedPerRow(init, futurePrice, shares, budgetSource);
      RowCapital(last, futurePrice, shares, budgetSource);
    }
  }

  /** One row's capital: its leg payoff, the whole stock position, and in
      "sell" mode the leg's cost. */
  lemma RowCapital(p: SelectedPut, futurePrice: real, shares: real, budgetSource: string)
    requires budgetSource == "sell" ==> futurePrice != 0.0
    ensures BreakevenLogic.NowCapital(futurePrice, p.strike, p.midPrice, p.contracts, shares, budgetSource)
         == PutPnlSimulator.LegPayoff(p, futurePrice) + shares * futurePrice
            - (if budgetSource == "sell" then p.midPrice * SharesPerContract * (p.contracts as real) else 0.0)
  {
    assert BreakevenLogic.PutPayoff(futurePrice, p.strike, p.midPrice, p.contracts)
        == PutPnlSimulator.LegPayoff(p, futurePrice);
    SwapLastFactors(p.midPrice, p.contracts as real, SharesPerContract);
  }

  lemma SwapLastFactors(a: real, b: real, c: real)
    ensures a * b * c == a * c * b
  {
  }

  /** With nothing selected every row's capital is zero, so its net P&L
      is the initial capital (stock at the chosen basis, plus the budget in
      "cash" mode) with its sign flipped. */
  lemma NoSelectionLosesEverything(futurePrice: real, currentPrice: real, shares: real, avgPrice: real,
                                   hedgeBudget: real, budgetSource: string, useMarketPrice: bool)
    ensures var row := SweepRow([], futurePrice, currentPrice, shares, avgPrice, hedgeBudget, budgetSource,
                                useMarketPrice);
      && row.nowCapital == 0.0
      && row.netPnl == -((if useMarketPrice then shares * currentPrice else shares * avgPrice)
                         + (if budgetSource == "cash" then hedgeBudget else 0.0))
  {
  }

  /** The initial capital does not depend on which rows were selected. */
  lemma InitialCapitalIndependentOfSelection(puts1: seq<SelectedPut>, puts2: seq<SelectedPut>, currentPrice: real,
                                             shares: real, avgPrice: real, hedgeBudget: real,
                                             budgetSource: string, useMarketPrice: bool)
    ensures SweepInitialCapital(puts1, currentPrice, shares, avgPrice, hedgeBudget, budgetSource, useMarketPrice)
         == SweepInitialCapital(puts2, currentPrice, shares, avgPrice, hedgeBudget, budgetSource, useMarketPrice)
  {
    BreakevenLogic.InitialCapitalIgnoresContract(currentPrice, shares, avgPrice, hedgeBudget, 0.0,
      ContractsTotal(puts1), 0.0, ContractsTotal(puts2), budgetSource, useMarketPrice);
  }

  /** For a single selected row the sweep agrees with the strict simulator
      in "sell" mode at the current price: the shares sold are priced the
      same way there. Elsewhere the two differ. */
  lemma SingleRowSellAgreesAtCurrentPrice(p: SelectedPut, currentPrice: real, shares: real, avgPrice: real,
                                          hedgeBudget: real, useMarketPrice: bool)
    requires currentPrice != 0.0
    ensures TotalNowCapital([p], currentPrice, shares, "sell")
         == PutPnlSimulator.StrictNowCapital(PutPnlSimulator.TotalPayoff([p], currentPrice), currentPrice, currentPrice, shares, hedgeBudget, "sell",
                                             PutPnlSimulator.HedgeCost([p]))
  {
    StockCountedPerRow([p], currentPrice, shares, "sell");
    assert [p][..0] == [];
    PutPnlSimulator.SharesSoldValue(shares, PutPnlSimulator.HedgeCost([p]), currentPrice, currentPrice);
  }
}
