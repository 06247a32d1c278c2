/** The single-put simulators of src/sim/hedge_simulator.py: the hedged and
    unhedged P&L curves of simulate_hedge, and the budget-driven decision
    of simulate_decision (the same function appears, line for line, in
    src/hedge_decision_simulator.py). In both the premium is paid once,
    outside the payoff's `max`. */
module HedgeSimulator {
  import opened Common

  // ---------------------------------------------------------------------
  // simulate_hedge

  /** One row of the returned frame. */
  datatype HedgeRow = HedgeRow(price: real, unhedgedPnl: real, hedgedPnl: real)

  const HedgeGridPoints: nat := 300

  /** The scenario grid: 300 prices from `0.4 * cp` to `1.6 * cp`. */
  function HedgeGrid(currentPrice: real): seq<real>
  {
    Linspace(currentPrice * 0.4, currentPrice * 1.6, HedgeGridPoints)
  }

  function HedgeRowAt(currentPrice: real, numShares: real, strike: real, premium: real, contracts: int,
                      price: real): HedgeRow
  {
    var optionCost := (contracts as real) * SharesPerContract * premium;
    var unhedgedValue := price * numShares;
    var hedgePayout := Max(strike - price, 0.0) * (contracts as real) * SharesPerContract;
    var hedgedValue := unhedgedValue + hedgePayout - optionCost;
    var initialValue := currentPrice * numShares;
    HedgeRow(price, unhedgedValue - initialValue, hedgedValue - initialValue)
  }

  /** simulate_hedge: one row per grid price, in grid order; the unhedged
      P&L is the stock move, and the hedge adds the put payout less the
      premium paid. */
  function SimulateHedge(currentPrice: real, numShares: real, strike: real, premium: real, contracts: int)
    : (r: seq<HedgeRow>)
    ensures |r| == HedgeGridPoints
    ensures forall i :: 0 <= i < |r| ==> r[i].price == HedgeGrid(currentPrice)[i]
    ensures forall i :: 0 <= i < |r| ==> r[i].unhedgedPnl == (r[i].price - currentPrice) * numShares
    ensures forall i :: 0 <= i < |r| ==>
      r[i].hedgedPnl - r[i].unhedgedPnl
      == Max(strike - r[i].price, 0.0) * (contracts as real) * SharesPerContract
         - (contracts as real) * SharesPerContract * premium
  {
    var grid := HedgeGrid(currentPrice);
    seq(|grid|, i requires 0 <= i < |grid| => HedgeRowAt(currentPrice, numShares, strike, premium, contracts, grid[i]))
  }

  /** The grid runs from `0.4 * cp` up to `1.6 * cp`, both included, and
      rises for a non-negative current price. */
  lemma HedgeGridSpan(currentPrice: real)
    ensures HedgeGrid(currentPrice)[0] == currentPrice * 0.4
    ensures HedgeGrid(currentPrice)[HedgeGridPoints - 1] == currentPrice * 1.6
    ensures currentPrice >= 0.0 ==> forall i, j :: 0 <= i <= j < HedgeGridPoints ==>
      HedgeGrid(currentPrice)[i] <= HedgeGrid(currentPrice)[j]
  {
    LinspaceEnds(currentPrice * 0.4, currentPrice * 1.6, HedgeGridPoints);
    if currentPrice >= 0.0 {
      LinspaceAscending(currentPrice * 0.4, currentPrice * 1.6, HedgeGridPoints);
    }
  }

  /** With a non-negative number of contracts the hedge never costs more
      than the premium paid, and above the strike it costs exactly that. */
  lemma HedgeCostsAtMostPremium(currentPrice: real, numShares: real, strike: real, premium: real, contracts: int)
    requires contracts >= 0
    ensures var r := SimulateHedge(currentPrice, numShares, strike, premium, contracts);
      var optionCost := (contracts as real) * SharesPerContract * premium;
      && (forall i :: 0 <= i < |r| ==> r[i].hedgedPnl >= r[i].unhedgedPnl - optionCost)
      && (forall i :: 0 <= i < |r| && r[i].price >= strike ==> r[i].hedgedPnl == r[i].unhedgedPnl - optionCost)
  {
    var r := SimulateHedge(currentPrice, numShares, strike, premium, contracts);
    forall i | 0 <= i < |r|
      ensures Max(strike - r[i].price, 0.0) * (contracts as real) * SharesPerContract >= 0.0
    {
      MulLeftMono(0.0, Max(strike - r[i].price, 0.0), contracts as real);
    }
  }

  // ---------------------------------------------------------------------
  // simulate_decision

  const DecisionGridPoints: nat := 100

  const FloorDivisionByZeroText := "float floor division by zero"
  const DivisionByZeroText := "float division by zero"
  const BudgetTooSmallText := "Hedge budget too small to buy even one contract."
  const NotEnoughSharesText := "Not enough shares remaining after funding hedge from sales."

  /** `str.lower()` on the ASCII letters. */
  function LowerChar(c: char): char
  {
    if 'A' <= c <= 'Z' then (c as int + 32) as char else c
  }

  function AsciiLower(s: string): (r: string)
    ensures |r| == |s|
    ensures forall i :: 0 <= i < |s| ==> r[i] == LowerChar(s[i])
  {
    seq(|s|, i requires 0 <= i < |s| => LowerChar(s[i]))
  }

  /** `budget_source.lower() == "sell"`. */
  predicate IsSellMode(budgetSource: string)
    ensures IsSellMode(budgetSource) ==> |budgetSource| == 4
  {
    AsciiLower(budgetSource) == "sell"
  }

  /** Sell mode is chosen by exactly the four-letter spellings of "sell"
      with each letter in either case. */
  lemma SellModeSpellings(budgetSource: string)
    ensures IsSellMode(budgetSource) <==>
      |budgetSource| == 4 && forall i :: 0 <= i < 4 ==> budgetSource[i] == "sell"[i] || budgetSource[i] == "SELL"[i]
  {
    if IsSellMode(budgetSource) {
      forall i | 0 <= i < 4 ensures budgetSource[i] == "sell"[i] || budgetSource[i] == "SELL"[i] {
        assert LowerChar(budgetSource[i]) == "sell"[i];
      }
    } else if |budgetSource| == 4 {
      var k :| 0 <= k < 4 && AsciiLower(budgetSource)[k] != "sell"[k];
      assert budgetSource[k] != "sell"[k] && budgetSource[k] != "SELL"[k];
    }
  }

  lemma SellModeIgnoresCase()
    ensures IsSellMode("sell") && IsSellMode("SELL") && IsSellMode("Sell")
    ensures !IsSellMode("cash") && !IsSellMode("sells")
  {
    assert AsciiLower("SELL") == "sell";
    assert AsciiLower("Sell") == "sell";
    assert AsciiLower("sell") == "sell";
    assert AsciiLower("cash")[0] == 'c';
  }

  /** One row of the returned frame. */
  datatype DecisionRow = DecisionRow(price: real, netPnl: real)

  /** The returned frame and metadata dictionary. */
  datatype Decision = Decision(
    rows: seq<DecisionRow>,
    contractsPurchased: int,
    totalPutCost: real,
    roiOnHedge: real,
    sharesSold: real,
    remainingShares: real,
    breakevenLow: real,
    breakevenHigh: real,
    hedgeProfit: real)

  /** The scenario grid: 100 prices from `0.8 * cp` to `1.2 * cp`. */
  function DecisionGrid(currentPrice: real): seq<real>
  {
    Linspace(currentPrice * 0.8, currentPrice * 1.2, DecisionGridPoints)
  }

  /** The put payout at `price` for `contracts` contracts. */
  function DecisionPayout(strike: real, price: real, contracts: int): real
  {
    Max(strike - price, 0.0) * SharesPerContract * (contracts as real)
  }

  /** Net P&L at `price`: the move of the remaining shares from their
      average cost, plus the payout, less the whole put cost. */
  function DecisionNetPnl(price: real, avgPrice: real, remainingShares: real, strike: real, contracts: int,
                          totalPutCost: real): real
  {
    (price - avgPrice) * remainingShares + DecisionPayout(strike, price, contracts) - totalPutCost
  }

  /** The frame and metadata once every guard has passed. */
  function DecisionOf(currentPrice: real, avgPrice: real, strike: real, premium: real, maxContracts: int,
                      totalPutCost: real, sharesSold: real, remainingShares: real): (d: Decision)
    requires totalPutCost != 0.0 && remainingShares != 0.0
    ensures d.contractsPurchased == maxContracts && d.totalPutCost == totalPutCost
    ensures d.sharesSold == sharesSold && d.remainingShares == remainingShares
    ensures d.breakevenLow == strike - premium
    ensures (d.breakevenHigh - avgPrice) * remainingShares == totalPutCost
    ensures d.hedgeProfit == DecisionPayout(strike, currentPrice * 0.8, maxContracts) - totalPutCost
    ensures d.roiOnHedge * totalPutCost == d.hedgeProfit * 100.0
    ensures |d.rows| == DecisionGridPoints
    ensures forall i :: 0 <= i < |d.rows| ==>
      d.rows[i] == DecisionRow(DecisionGrid(currentPrice)[i],
                               DecisionNetPnl(DecisionGrid(currentPrice)[i], avgPrice, remainingShares,
                                              strike, maxContracts, totalPutCost))
  {
    var grid := DecisionGrid(currentPrice);
    var rows := seq(|grid|, i requires 0 <= i < |grid| =>
      DecisionRow(grid[i], DecisionNetPnl(grid[i], avgPrice, remainingShares, strike, maxContracts, totalPutCost)));
    LinspaceEnds(currentPrice * 0.8, currentPrice * 1.2, DecisionGridPoints);
    var hedgeProfit := DecisionPayout(strike, grid[0], maxContracts) - totalPutCost;
    var roiOnHedge := hedgeProfit / totalPutCost * 100.0;
    RatioTimes(hedgeProfit, totalPutCost, 100.0);
    var breakevenHigh := avgPrice + totalPutCost / remainingShares;
    DivTimes(totalPutCost, remainingShares);
    Decision(rows, maxContracts, totalPutCost, roiOnHedge, sharesSold, remainingShares,
             strike - premium, breakevenHigh, hedgeProfit)
  }

  lemma RatioTimes(x: real, y: real, c: real)
    requires y != 0.0
    ensures (x / y * c) * y == x * c
  {
    DivTimes(x, y);
  }

  /** How many shares "sell" mode sells: the budget's worth at the current
      price; none in any other mode. */
  function SharesSold(currentPrice: real, hedgeBudget: real, budgetSource: string): (n: real)
    requires IsSellMode(budgetSource) ==> currentPrice != 0.0
    ensures IsSellMode(budgetSource) ==> n * currentPrice == hedgeBudget
    ensures !IsSellMode(budgetSource) ==> n == 0.0
  {
    if IsSellMode(budgetSource) then DivTimes(hedgeBudget, currentPrice); hedgeBudget / currentPrice else 0.0
  }

  /** simulate_decision. It fails, in this order, when the option costs
      nothing (Python's float floor division by zero), when the budget buys
      no contract, when "sell" mode divides by a zero current price, when
      selling leaves no shares, and when the breakeven divides by zero
      remaining shares. "sell" mode sells shares worth the whole BUDGET at
      the current price, not the put cost. */
  function SimulateDecision(currentPrice: real, avgPrice: real, numShares: real, strike: real, premium: real,
                            hedgeBudget: real, budgetSource: string): (r: Result<Decision>)
    ensures premium * SharesPerContract == 0.0 ==> r == Err(FloorDivisionByZeroText)
    ensures premium * SharesPerContract != 0.0 && FloorDiv(hedgeBudget, premium * SharesPerContract) == 0 ==>
      r == Err(BudgetTooSmallText)
    ensures premium * SharesPerContract != 0.0 && FloorDiv(hedgeBudget, premium * SharesPerContract) != 0
            && IsSellMode(budgetSource) ==>
      && (currentPrice == 0.0 ==> r == Err(DivisionByZeroText))
      && (currentPrice != 0.0 ==> (r == Err(NotEnoughSharesText) <==> numShares - hedgeBudget / currentPrice <= 0.0))
      && (r.Ok? <==> currentPrice != 0.0 && numShares - hedgeBudget / currentPrice > 0.0)
    ensures premium * SharesPerContract != 0.0 && FloorDiv(hedgeBudget, premium * SharesPerContract) != 0
            && !IsSellMode(budgetSource) ==>
      && (numShares == 0.0 ==> r == Err(DivisionByZeroText))
      && (r.Ok? <==> numShares != 0.0)
    ensures r.Ok? ==>
      var d := r.value;
      && d.contractsPurchased != 0
      && d.contractsPurchased == FloorDiv(hedgeBudget, premium * SharesPerContract)
      && d.totalPutCost == (d.contractsPurchased as real) * premium * SharesPerContract
      && d.remainingShares != 0.0
      && d.sharesSold + d.remainingShares == numShares
      && (IsSellMode(budgetSource) ==> d.sharesSold * currentPrice == hedgeBudget && d.remainingShares > 0.0)
      && (!IsSellMode(budgetSource) ==> d.sharesSold == 0.0)
      && d == DecisionOf(currentPrice, avgPrice, strike, premium, d.contractsPurchased, d.totalPutCost,
                         d.sharesSold, d.remainingShares)
  {
    var optionCost := premium * SharesPerContract;
    if optionCost == 0.0 then Err(FloorDivisionByZeroText)
    else
      var maxContracts := FloorDiv(hedgeBudget, optionCost);
      if maxContracts == 0 then Err(BudgetTooSmallText)
      else
        var totalPutCost := (maxContracts as real) * optionCost;
        if IsSellMode(budgetSource) && currentPrice == 0.0 then Err(DivisionByZeroText)
        else
          var sharesSold := SharesSold(currentPrice, hedgeBudget, budgetSource);
          var remainingShares := numShares - sharesSold;
          if IsSellMode(budgetSource) && remainingShares <= 0.0 then Err(NotEnoughSharesText)
          else if remainingShares == 0.0 then Err(DivisionByZeroText)
          else
            assert totalPutCost != 0.0;
            Ok(DecisionOf(currentPrice, avgPrice, strike, premium, maxContracts, totalPutCost, sharesSold,
                          remainingShares))
  }

  /** For a positive premium the contracts bought are the largest whole
      number the budget pays for: the put cost is within the budget and one
      more contract would exceed it. */
  lemma TotalCostWithinBudget(currentPrice: real, avgPrice: real, numShares: real, strike: real, premium: real,
                              hedgeBudget: real, budgetSource: string)
    requires premium > 0.0
    ensures var r := SimulateDecision(currentPrice, avgPrice, numShares, strike, premium, hedgeBudget, budgetSource);
      r.Ok? ==>
        && r.value.totalPutCost <= hedgeBudget < r.value.totalPutCost + premium * SharesPerContract
        && (hedgeBudget >= 0.0 ==> r.value.contractsPurchased >= 1)
  {
    var r := SimulateDecision(currentPrice, avgPrice, numShares, strike, premium, hedgeBudget, budgetSource);
    FloorDivBounds(hedgeBudget, premium * SharesPerContract);
    if r.Ok? {
      var n := r.value.contractsPurchased as real;
      assert n * (premium * SharesPerContract) == r.value.totalPutCost;
      assert (n + 1.0) * (premium * SharesPerContract) == r.value.totalPutCost + premium * SharesPerContract;
    }
  }

  /** Only a count of exactly zero is rejected: with a positive premium a
      negative budget comes back as a negative number of contracts. */
  lemma NegativeBudgetBuysNegativeContracts(currentPrice: real, avgPrice: real, numShares: real, strike: real,
                                            premium: real, hedgeBudget: real, budgetSource: string)
    requires premium > 0.0 && hedgeBudget < 0.0
    ensures var r := SimulateDecision(currentPrice, avgPrice, numShares, strike, premium, hedgeBudget, budgetSource);
      r.Ok? ==> r.value.contractsPurchased < 0
  {
    FloorDivBounds(hedgeBudget, premium * SharesPerContract);
    var k := FloorDiv(hedgeBudget, premium * SharesPerContract);
    if k >= 0 {
      MulLeftMono(0.0, k as real, premium * SharesPerContract);
    }
  }

  /** The upper breakeven is a root of the net P&L curve whenever it lies
      at or above the strike, where the put pays nothing. */
  lemma BreakevenHighIsRoot(currentPrice: real, avgPrice: real, numShares: real, strike: real, premium: real,
                            hedgeBudget: real, budgetSource: string)
    ensures var r := SimulateDecision(currentPrice, avgPrice, numShares, strike, premium, hedgeBudget, budgetSource);
      r.Ok? && r.value.breakevenHigh >= strike ==>
        DecisionNetPnl(r.value.breakevenHigh, avgPrice, r.value.remainingShares, strike,
                       r.value.contractsPurchased, r.value.totalPutCost) == 0.0
  {
  }

  /** At the lower breakeven `strike - premium` (for a non-negative
      premium) the put payout exactly repays the put cost. */
  lemma BreakevenLowRepaysCost(currentPrice: real, avgPrice: real, numShares: real, strike: real, premium: real,
                               hedgeBudget: real, budgetSource: string)
    requires premium >= 0.0
    ensures var r := SimulateDecision(currentPrice, avgPrice, numShares, strike, premium, hedgeBudget, budgetSource);
      r.Ok? ==> DecisionPayout(strike, r.value.breakevenLow, r.value.contractsPurchased) == r.value.totalPutCost
  {
  }

  /** With a positive premium and a non-negative budget the hedge can lose
      at most what it cost (ROI of -100%), and loses exactly that when the
      strike is at or below the lowest grid price. */
  lemma RoiAtLeastMinusHundred(currentPrice: real, avgPrice: real, numShares: real, strike: real, premium: real,
                               hedgeBudget: real, budgetSource: string)
    requires premium > 0.0 && hedgeBudget >= 0.0
    ensures var r := SimulateDecision(currentPrice, avgPrice, numShares, strike, premium, hedgeBudget, budgetSource);
      r.Ok? ==>
        && r.value.roiOnHedge >= -100.0
        && (strike <= currentPrice * 0.8 ==> r.value.roiOnHedge == -100.0)
  {
    var r := SimulateDecision(currentPrice, avgPrice, numShares, strike, premium, hedgeBudget, budgetSource);
    TotalCostWithinBudget(currentPrice, avgPrice, numShares, strike, premium, hedgeBudget, budgetSource);
    if r.Ok? {
      var d := r.value;
      var payout := DecisionPayout(strike, currentPrice * 0.8, d.contractsPurchased);
      MulLeftMono(0.0, Max(strike - currentPrice * 0.8, 0.0) * SharesPerContract, d.contractsPurchased as real);
      MulLeftStrict(0.0, premium * SharesPerContract, d.contractsPurchased as real);
      assert d.totalPutCost > 0.0;
      assert payout >= 0.0;
      RoiBound(d.roiOnHedge, d.totalPutCost, payout);
    }
  }

  /** `roi * cost == (payout - cost) * 100` with a positive cost and a
      non-negative payout puts the ROI at -100 or above. */
  lemma RoiBound(roi: real, cost: real, payout: real)
    requires cost > 0.0 && payout >= 0.0 && roi * cost == (payout - cost) * 100.0
    ensures roi >= -100.0
    ensures payout == 0.0 ==> roi == -100.0
  {
    if roi < -100.0 {
      MulLeftStrict(roi, -100.0, cost);
    }
    if payout == 0.0 {
      assert (roi + 100.0) * cost == 0.0;
    }
  }

  /** In "sell" mode the shares sold are worth the whole budget at the
      current price, which for a positive premium is at least the put cost
      actually paid. */
  lemma SellModeSellsTheBudget(currentPrice: real, avgPrice: real, numShares: real, strike: real, premium: real,
                               hedgeBudget: real, budgetSource: string)
    requires premium > 0.0 && IsSellMode(budgetSource)
    ensures var r := SimulateDecision(currentPrice, avgPrice, numShares, strike, premium, hedgeBudget, budgetSource);
      r.Ok? ==> r.value.sharesSold * currentPrice >= r.value.totalPutCost
  {
    TotalCostWithinBudget(currentPrice, avgPrice, numShares, strike, premium, hedgeBudget, budgetSource);
  }
}
