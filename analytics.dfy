/** Breakeven zones of src/sim/analytics.py: for each screened contract,
    the whole contracts the budget buys, their cost, and the breakeven
    tuple of solve_breakeven, attached as new columns of a copy. */
module Analytics {
  import opened Common
  import opened BreakevenLogic
  import OptionFilters

  /** One output row: the input row untouched plus the five added columns. */
  datatype ZoneRow = ZoneRow(
    put: OptionFilters.Candidate,
    contracts: int,
    totalCost: real,
    lowerBreakeven: Option<real>,
    upperBreakeven: Option<real>,
    explanation: string)

  /** `hedge_budget // (mid_price * 100)`, cast to an integer. */
  function AffordableContracts(hedgeBudget: real, midPrice: real): (r: int)
    requires midPrice != 0.0
    ensures (r as real) <= hedgeBudget / (midPrice * SharesPerContract) < (r as real) + 1.0
  {
    FloorDiv(hedgeBudget, midPrice * SharesPerContract)
  }

  /** For a positive mid price the count is the largest whole number of
      contracts the budget pays for: never negative for a non-negative
      budget, its cost within budget, and one more would overspend. */
  lemma AffordableIsLargestWithinBudget(hedgeBudget: real, midPrice: real)
    requires midPrice > 0.0
    ensures var n := AffordableContracts(hedgeBudget, midPrice);
      && (hedgeBudget >= 0.0 ==> n >= 0)
      && (n as real) * midPrice * SharesPerContract <= hedgeBudget
      && hedgeBudget < ((n + 1) as real) * midPrice * SharesPerContract
  {
    FloorDivBounds(hedgeBudget, midPrice * SharesPerContract);
    var n := AffordableContracts(hedgeBudget, midPrice);
    assert (n as real) * (midPrice * SharesPerContract) == (n as real) * midPrice * SharesPerContract;
    assert ((n as real) + 1.0) * (midPrice * SharesPerContract) == ((n + 1) as real) * midPrice * SharesPerContract;
  }

  /** Every row the zone step can price has a mid price to divide by. */
  predicate Priced(rows: seq<OptionFilters.Candidate>)
  {
    forall i :: 0 <= i < |rows| ==> rows[i].midPrice.Some? && rows[i].midPrice.value != 0.0
  }

  function ZoneRowFor(put: OptionFilters.Candidate, currentPrice: real, numShares: real, avgPrice: real,
                      hedgeBudget: real, budgetSource: string, useMarketPrice: bool, fsolve: Fsolve): ZoneRow
    requires put.midPrice.Some? && put.midPrice.value != 0.0
  {
    var mid := put.midPrice.value;
    var contracts := AffordableContracts(hedgeBudget, mid);
    var b := SolveBreakeven(currentPrice, put.quote.strike, mid, contracts, numShares, avgPrice,
                            hedgeBudget, budgetSource, "both", useMarketPrice, fsolve);
    ZoneRow(put, contracts, (contracts as real) * mid * SharesPerContract, b.lower, b.upper, b.explanation)
  }

  /** compute_breakeven_zones: one row per input row, in input order; each
      row's breakeven columns are solve_breakeven's answer for that row's
      strike, mid and affordable count and the shared position. */
  function ComputeBreakevenZones(rows: seq<OptionFilters.Candidate>, currentPrice: real, numShares: real,
                                 avgPrice: real, hedgeBudget: real, budgetSource: string,
                                 useMarketPrice: bool, fsolve: Fsolve): (r: seq<ZoneRow>)
    requires Priced(rows)
    ensures |r| == |rows|
    ensures forall i :: 0 <= i < |r| ==> r[i].put == rows[i]
    ensures forall i :: 0 <= i < |r| ==>
      r[i].contracts == AffordableContracts(hedgeBudget, rows[i].midPrice.value)
      && r[i].totalCost == (r[i].contracts as real) * rows[i].midPrice.value * SharesPerContract
    ensures forall i :: 0 <= i < |r| ==>
      Breakeven(r[i].lowerBreakeven, r[i].upperBreakeven, r[i].explanation)
      == SolveBreakeven(currentPrice, rows[i].quote.strike, rows[i].midPrice.value, r[i].contracts,
                        numShares, avgPrice, hedgeBudget, budgetSource, "both", useMarketPrice, fsolve)
  {
    seq(|rows|, i requires 0 <= i < |rows| =>
      ZoneRowFor(rows[i], currentPrice, numShares, avgPrice, hedgeBudget, budgetSource, useMarketPrice, fsolve))
  }

  /** On screened rows (positive mids) every row's total cost is within the
      budget, and its breakevens, when present, lie in the sanity window. */
  lemma ZonesWithinBudget(rows: seq<OptionFilters.Candidate>, currentPrice: real, numShares: real,
                          avgPrice: real, hedgeBudget: real, budgetSource: string,
                          useMarketPrice: bool, fsolve: Fsolve)
    requires forall i :: 0 <= i < |rows| ==> rows[i].midPrice.Some? && rows[i].midPrice.value > 0.0
    ensures var r := ComputeBreakevenZones(rows, currentPrice, numShares, avgPrice, hedgeBudget,
                                           budgetSource, useMarketPrice, fsolve);
      forall i :: 0 <= i < |r| ==>
        && r[i].totalCost <= hedgeBudget
        && (hedgeBudget >= 0.0 ==> r[i].contracts >= 0)
        && (r[i].lowerBreakeven.Some? ==> InWindow(r[i].lowerBreakeven.value))
        && (r[i].upperBreakeven.Some? ==> InWindow(r[i].upperBreakeven.value))
  {
    var r := ComputeBreakevenZones(rows, currentPrice, numShares, avgPrice, hedgeBudget,
                                   budgetSource, useMarketPrice, fsolve);
    forall i | 0 <= i < |r|
      ensures r[i].totalCost <= hedgeBudget
      ensures hedgeBudget >= 0.0 ==> r[i].contracts >= 0
    {
      AffordableIsLargestWithinBudget(hedgeBudget, rows[i].midPrice.value);
    }
  }

  /** A row the budget cannot pay for even once gets the "no contracts"
      answer and no breakeven. */
  lemma UnaffordableRowsHaveNoBreakeven(rows: seq<OptionFilters.Candidate>, currentPrice: real, numShares: real,
                                        avgPrice: real, hedgeBudget: real, budgetSource: string,
                                        useMarketPrice: bool, fsolve: Fsolve)
    requires Priced(rows)
    ensures var r := ComputeBreakevenZones(rows, currentPrice, numShares, avgPrice, hedgeBudget,
                                           budgetSource, useMarketPrice, fsolve);
      forall i :: 0 <= i < |r| && r[i].contracts <= 0 ==>
        r[i].lowerBreakeven.None? && r[i].upperBreakeven.None? && r[i].explanation == NoContractsText
  {
  }

  /** The screen of src/sim/option_filters.py always yields rows the zone
      step can price, so the two compose without a precondition. */
  lemma ScreenThenZones(chain: OptionFilters.PutChain, currentPrice: real, minVolume: int, low: real, high: real,
                        numShares: real, avgPrice: real, hedgeBudget: real, budgetSource: string,
                        useMarketPrice: bool, fsolve: Fsolve)
    ensures Priced(OptionFilters.FilterPuts(chain, currentPrice, minVolume, low, high))
    ensures var r := ComputeBreakevenZones(OptionFilters.FilterPuts(chain, currentPrice, minVolume, low, high),
                                           currentPrice, numShares, avgPrice, hedgeBudget,
                                           budgetSource, useMarketPrice, fsolve);
      forall i :: 0 <= i < |r| ==> r[i].totalCost <= hedgeBudget
  {
    var rows := OptionFilters.FilterPuts(chain, currentPrice, minVolume, low, high);
    OptionFilters.FilteredMidsPositive(chain, currentPrice, minVolume, low, high);
    ZonesWithinBudget(rows, currentPrice, numShares, avgPrice, hedgeBudget, budgetSource, useMarketPrice, fsolve);
  }
}
