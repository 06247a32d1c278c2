# Protective-put hedge accounting, in Dafny

This project models the hedge accounting engine of the stock-hedging
repository. An investor holds shares and buys put contracts (100 shares
each) as protection. The hedge is paid either from external cash
("cash") or by selling shares ("sell"). The engine:

- values the position before and after the hedge;
- looks for the breakeven prices of a single put position;
- attaches those breakevens to every contract of a screened option chain;
- sweeps grids of future prices to produce P&L tables;
- screens and ranks option chains.

Every file of the engine is modelled on its own, with its own payoff
convention:
- `src/sim/put_breakeven_logic.py` and `src/sim/put_pnl_simulator.py` keep
  the premium inside the `max`;
- `src/sim/hedge_simulator.py`, `src/hedge_decision_simulator.py` and
  `src/hedge_simulator.py` subtract it once.

The code's quirks are kept as written:
- the remaining shares of "sell" mode are never clamped at zero;
- `simulate_put_net_pnl` counts the stock once per selected contract row;
- `simulate_decision` sells shares worth the whole budget, not the put
  cost it actually pays.

| file | module | form |
|---|---|---|
| `common.dfy` | `Common` | shared values: `Option`, `Result`, the 100-share contract, `//`, `np.linspace`, `head`, boolean masks, quote records |
| `sorting.dfy` | `Sorting` | `sort_values` as an insertion sort over a total preorder |
| `breakeven.dfy` | `BreakevenLogic` | capital functions and the `solve_breakeven` ladder |
| `analytics.dfy` | `Analytics` | `compute_breakeven_zones`, a row-wise map |
| `pnl_strict.dfy` | `PutPnlSimulator` | `simulate_put_pnl_strict`: methods with loops, proved against prefix-sum functions |
| `put_simulation_logic.dfy` | `PutSimulationLogic` | `simulate_put_net_pnl`: methods with loops, proved against prefix-sum functions |
| `hedge_simulator.dfy` | `HedgeSimulator` | `simulate_hedge` and `simulate_decision` (both copies) |
| `legacy_hedge.dfy` | `LegacyHedgeSimulator` | the older `simulate_hedge` |
| `option_filters.dfy` | `OptionFilters` | `filter_puts` and `suggest_put` of `src/sim/option_filters.py` |
| `option_analyzer.dfy` | `OptionAnalyzer` | the older screen: a class for the caller's frame, which `filter_puts` changes in place |
| `put_values.dfy` | `PutValues` | `calculate_put_values` |

Modelling conventions:
- Money, prices and share counts are `real`. Contract counts are `int`.
- NaN, an infinite quotient and `None` are `Option.None`.
- An exception is a `Result.Err` carrying the message the source raises.
- `fsolve` is a parameter: a function from the captured problem and the
  starting guess to an estimate, a NaN or a raised exception. Nothing is
  assumed about the values it returns.
- The funding mode and `mode` stay strings, as in the source, so a
  misspelled mode takes the same branches it takes there.

Two facts about the code shape the model:
- `calculate_now_capital` does not clamp the remaining shares of "sell"
  mode at zero (`src/sim/put_breakeven_logic.py:13-15`). Neither does
  `BreakevenLogic.NowCapital`.
- `solve_breakeven` finds the breakevens by calling `fsolve` from the
  guesses `strike - 50` and `strike + 50`
  (`src/sim/put_breakeven_logic.py:47-66`), not in closed form. The model
  keeps those calls.

## Model

| member | source | states |
|---|---|---|
| BreakevenLogic.InitialCapitalByMode | src/sim/put_breakeven_logic.py:4-7 | the share value is taken at the market or the average price as `use_market_price` says; "cash" adds exactly the hedge budget; every other mode adds nothing |
| BreakevenLogic.InitialCapital | src/sim/put_breakeven_logic.py:4-7 | calculate_initial_capital: with non-negative shares, share price at the chosen basis and (in "cash" mode) budget, the initial capital is never negative |
| BreakevenLogic.InitialCapitalIgnoresContract | src/sim/put_breakeven_logic.py:4-7 | the premium and the contract count have no effect on the initial capital |
| BreakevenLogic.PutPayoff | src/sim/put_breakeven_logic.py:11 | the payoff is never negative for non-negative contracts; it is zero at or above `strike - premium` and linear below it |
| BreakevenLogic.NowCapital | src/sim/put_breakeven_logic.py:9-20 | in "sell" mode, capital is payoff plus stock value less the hedge cost; in any other mode, payoff plus stock value |
| BreakevenLogic.SellCapitalBelowBreakpoint | src/sim/put_breakeven_logic.py:9-20 | below `strike - premium`, "sell"-mode capital is linear, with slope `shares - 100 * contracts` |
| BreakevenLogic.Difference | src/sim/put_breakeven_logic.py:38-42 | for a positive price, the closure handed to fsolve is zero exactly when capital now equals the initial capital |
| BreakevenLogic.Accept | src/sim/put_breakeven_logic.py:56-66 | an estimate fills its slot iff it lies strictly inside `(0, 10000)`, and then the slot holds that estimate |
| BreakevenLogic.SolveBreakeven | src/sim/put_breakeven_logic.py:22-79 | no contracts or no premium gives the first message; reported breakevens lie in the window; the PUT-only branch never reports an upper; "lower" mode never reports an upper and "upper" mode never a lower |
| BreakevenLogic.InfeasibleLadder | src/sim/put_breakeven_logic.py:27-32 | past the contract check, a "sell" shortfall gives the sell message and a "cash" shortfall gives the cash message, without calling fsolve |
| BreakevenLogic.PutOnlyBranch | src/sim/put_breakeven_logic.py:47-54 | with no shares or no average price, upper is absent whatever the mode; lower is fsolve's estimate iff it lies in the window; otherwise the unsolved text or the exception comes back |
| BreakevenLogic.StandardExplanation | src/sim/put_breakeven_logic.py:56-76 | in the standard branch, "Standard hedge" iff both slots are filled, "Could not solve" iff neither, otherwise the "Only ... exists" text of the filled slot; filled slots hold fsolve's estimates |
| BreakevenLogic.ExplainDistinct | src/sim/put_breakeven_logic.py:68-74 | each explanation text corresponds to exactly one pattern of filled slots |
| BreakevenLogic.ExceptionReturned | src/sim/put_breakeven_logic.py:78-79 | an exception raised by the lower-guess call (PUT-only branch, or mode "both" or "lower") is returned as the explanation with both slots empty, never raised |
| BreakevenLogic.UpperExceptionReturned | src/sim/put_breakeven_logic.py:62-79 | an exception raised by the upper-guess call (mode "upper", or "both" after the lower call returned) is returned as the explanation with both slots empty, never raised |
| BreakevenLogic.ReportedRootBalancesCapital | src/sim/put_breakeven_logic.py:38-66 | a reported breakeven that is a zero of the `difference` closure is a price where capital now equals the initial capital |
| BreakevenLogic.InsufficientSellExample | src/sim/test_put_breakeven.py:49-59 | the "Insufficient Budget - SELL" parameters (shares worth 12500 against a 15000 cost) return the sell-side message in both modes |
| BreakevenLogic.NoSharesSellExample | src/sim/test_put_breakeven.py:38-48 | the "No Shares - SELL" parameters return the sell-side message before the PUT-only branch |
| BreakevenLogic.NoSharesCashExample | src/sim/test_put_breakeven.py:27-37 | the "No Shares - CASH" parameters reach the PUT-only branch: never an upper breakeven, and a PUT-only text or an exception message |
| Analytics.AffordableContracts | src/sim/analytics.py:9 | the contract count is `hedge_budget // (mid_price * 100)`: the whole number at most the quotient and more than the quotient less one, for a mid of either sign |
| Analytics.AffordableIsLargestWithinBudget | src/sim/analytics.py:9-10 | for a positive mid, the contract count is the largest whole number whose cost fits the budget, and it is non-negative for a non-negative budget |
| Analytics.ComputeBreakevenZones | src/sim/analytics.py:5-31 | one row per input row, in order, with the input row unchanged; the affordable count and its total cost; and the three components of solve_breakeven for that row's strike, mid and count |
| Analytics.ZonesWithinBudget | src/sim/analytics.py:9-29 | on rows with positive mids, every total cost is within the budget and every reported breakeven lies in `(0, 10000)` |
| Analytics.UnaffordableRowsHaveNoBreakeven | src/sim/analytics.py:9-29 | a row whose count is not positive gets the "no contracts" explanation and no breakevens |
| Analytics.ScreenThenZones | src/sim/analytics.py:9-10 | the rows filter_puts returns can always be priced, and every total cost is then within the budget |
| OptionFilters.DerivedMid | src/sim/option_filters.py:18-21 | the bid/ask midpoint when both are quoted and it is non-zero; otherwise the last trade price |
| OptionFilters.Enrich | src/sim/option_filters.py:18-38 | intrinsic value is `strike - cp`, not clamped; time value is `mid - intrinsic`, present iff the mid is; `abs_diff` is `abs(strike - cp)` |
| OptionFilters.FilterPuts | src/sim/option_filters.py:3-41 | filter_puts returns the screened rows reordered: nearest the money first, and a permutation of what the three masks keep |
| OptionFilters.ScreenedSpec | src/sim/option_filters.py:26-35 | the three masks keep exactly the enriched rows inside the strike window (both ends) with enough volume and a positive mid, each as often as it occurs |
| OptionFilters.FilterPutsSpec | src/sim/option_filters.py:3-41 | every returned row passes all filters and carries its derived columns; rows are sorted ascending by `abs_diff`; the result is a permutation of the passing input rows |
| OptionFilters.FilteredMidsPositive | src/sim/option_filters.py:35 | every returned row has a positive mid price |
| OptionFilters.DefaultScreen | src/sim/option_filters.py:3-51 | with the default arguments, every row has a strike within 80%-130% of the current price and a volume of at least 100, and at most 5 suggestions come back |
| OptionFilters.SuggestPut | src/sim/option_filters.py:43-51 | the first `top_n` rows (pandas `head`, including negative `top_n`), each projected onto the fixed columns |
| OptionAnalyzer.FilteredView | src/option_analyzer.py:19-35 | the returned frame is a permutation of the annotated rows the mask keeps, ordered by mid ascending, then strike descending |
| OptionAnalyzer.MetricsOf | src/option_analyzer.py:20-22 | mid is the bid/ask average and spread is `ask - bid`, both present iff bid and ask are; moneyness times cp is the strike, present iff cp is non-zero |
| OptionAnalyzer.FilteredViewSpec | src/option_analyzer.py:25-35 | every returned row passes the volume, spread and moneyness mask; mids ascend, and among equal mids strikes descend; the result is a permutation of the annotated rows that pass |
| OptionAnalyzer.ExpiryIgnored | src/option_analyzer.py:4-35 | `max_days_to_expiry` has no effect on the result |
| OptionAnalyzer.FilterPuts | src/option_analyzer.py:4-35 | the caller's frame keeps its rows and gains mid, spread and moneyness on every row; the return value is the filtered, sorted view of the quotes |
| OptionAnalyzer.DefaultView | src/option_analyzer.py:4-44 | with the default arguments, every row has a volume of at least 10, a spread of at most 10 and moneyness within `[0.8, 1.0]`, and at most 3 suggestions come back |
| OptionAnalyzer.SuggestPut | src/option_analyzer.py:38-44 | the first `top_n` rows, projected onto the fixed columns |
| PutPnlSimulator.BasketPayoff | src/sim/put_pnl_simulator.py:36-43 | the inner loop accumulates the basket payoff, `Σ max(0, strike - fp - premium) * contracts * 100` |
| PutPnlSimulator.ScenarioCapital | src/sim/put_pnl_simulator.py:45-54 | "sell": at fp = cp the capital is payoff plus stock less exactly the hedge cost, and for non-negative prices and cost it never exceeds payoff plus stock; other modes: capital exceeds payoff plus stock by exactly the unspent budget, so never falls below it when the hedge is within budget |
| PutPnlSimulator.SimulatePutPnlStrict | src/sim/put_pnl_simulator.py:5-65 | fails with the budget message iff the hedge cost exceeds the budget; otherwise returns the hedge cost and one row per grid price in grid order, each with the same initial capital and `net = now - initial` |
| PutPnlSimulator.HedgeCostNonNegative | src/sim/put_pnl_simulator.py:15 | `HedgeCost`, the summed `mid_price * 100 * contracts`, is never negative when no mid and no count is |
| PutPnlSimulator.TotalPayoffNonNegative | src/sim/put_pnl_simulator.py:36-43 | `TotalPayoff`, the per-price sum of leg payoffs, is never negative with non-negative contract counts |
| PutPnlSimulator.TotalPayoffVanishes | src/sim/put_pnl_simulator.py:42 | at or above every leg's `strike - premium` the basket pays nothing |
| PutPnlSimulator.SellMarketBasisNetPnl | src/sim/put_pnl_simulator.py:45-56 | with the market basis in "sell" mode, net P&L is the stock move plus payoff, less the hedge cost scaled by `fp / current_price` |
| PutPnlSimulator.CashMarketBasisNetPnl | src/sim/put_pnl_simulator.py:51-56 | with the market basis in "cash" mode, net P&L is the stock move plus payoff less the whole hedge cost |
| PutPnlSimulator.CashNetPnlWithoutPayoff | src/sim/put_pnl_simulator.py:23-56 | with the market basis, "cash" mode and zero payoff, net P&L is `shares * (fp - cp) - hedge_cost` |
| PutPnlSimulator.ModesAgreeAtCurrentPrice | src/sim/put_pnl_simulator.py:23-56 | at the current price, with the market basis, both funding modes report payoff minus hedge cost |
| PutSimulationLogic.SumNowCapital | src/sim/put_simulation_logic.py:34-43 | the inner loop sums calculate_now_capital over the selected rows at one price |
| PutSimulationLogic.SimulatePutNetPnl | src/sim/put_simulation_logic.py:5-53 | one row per grid price, in grid order, with no budget check; every row has the same initial capital, the summed capital, and `net = now - initial` |
| PutSimulationLogic.TotalNowCapital | src/sim/put_simulation_logic.py:34-43 | outside "sell" mode, with non-negative shares, price and contract counts, the summed capital is never negative |
| PutSimulationLogic.StockCountedPerRow | src/sim/put_simulation_logic.py:35-43 | the summed capital is the basket payoff, plus the whole stock value added once per selected row, minus the basket's hedge cost in "sell" mode |
| PutSimulationLogic.NoSelectionLosesEverything | src/sim/put_simulation_logic.py:22-45 | with nothing selected, every sweep row has capital now zero and net P&L equal to minus the stock value at the chosen basis, less the budget in "cash" mode |
| PutSimulationLogic.InitialCapitalIndependentOfSelection | src/sim/put_simulation_logic.py:23-30 | the initial capital does not depend on which rows are selected |
| PutSimulationLogic.SingleRowSellAgreesAtCurrentPrice | src/sim/put_simulation_logic.py:35-43 | for one selected row in "sell" mode at the current price, the sweep's capital equals the strict simulator's |
| HedgeSimulator.SimulateHedge | src/sim/hedge_simulator.py:5-29 | 300 rows on the grid; unhedged P&L is `(p - cp) * shares`; hedged minus unhedged is the put payout less `contracts * 100 * premium` |
| HedgeSimulator.HedgeGridSpan | src/sim/hedge_simulator.py:13 | the grid runs from `0.4 * cp` to `1.6 * cp`, both included, ascending for `cp >= 0` |
| HedgeSimulator.HedgeCostsAtMostPremium | src/sim/hedge_simulator.py:15-26 | with non-negative contracts, hedged P&L is at least unhedged P&L less the option cost, and equal to that at or above the strike |
| HedgeSimulator.IsSellMode | src/sim/hedge_simulator.py:49 | only a four-character funding mode can select sell mode |
| HedgeSimulator.SellModeSpellings | src/sim/hedge_simulator.py:49 | sell mode is chosen exactly by the four-letter spellings of "sell" with each letter in either case |
| HedgeSimulator.SellModeIgnoresCase | src/sim/hedge_simulator.py:49 | examples: "SELL" and "Sell" select sell mode; "cash" and "sells" do not |
| HedgeSimulator.SharesSold | src/sim/hedge_simulator.py:49-56 | sell mode sells shares worth the budget at the current price; other modes sell none |
| HedgeSimulator.DecisionOf | src/sim/hedge_simulator.py:58-86 | 100 rows of net P&L on the grid; `breakeven_low = strike - premium`; `(breakeven_high - avg) * remaining = total_put_cost`; hedge profit is the payout at the lowest grid price less the cost; `roi * cost = profit * 100` |
| HedgeSimulator.SimulateDecision | src/sim/hedge_simulator.py:31-88 | errors, in order: zero option cost; zero affordable contracts; zero current price in sell mode; no shares left after selling; zero remaining shares. On success, the contract count, the cost, the shares sold and the metadata |
| HedgeSimulator.TotalCostWithinBudget | src/hedge_decision_simulator.py:13-20 | for a positive premium, the put cost is within the budget and one more contract would exceed it; a non-negative budget buys at least one |
| HedgeSimulator.NegativeBudgetBuysNegativeContracts | src/hedge_decision_simulator.py:15-18 | only a count of exactly zero is rejected, so a negative budget succeeds with a negative count |
| HedgeSimulator.BreakevenHighIsRoot | src/hedge_decision_simulator.py:31-48 | at or above the strike, the upper breakeven is a root of the net P&L curve |
| HedgeSimulator.BreakevenLowRepaysCost | src/hedge_decision_simulator.py:32-47 | at the lower breakeven, the payout equals the put cost |
| HedgeSimulator.RoiAtLeastMinusHundred | src/hedge_decision_simulator.py:42-44 | with a positive premium and a non-negative budget, ROI is at least -100, and exactly -100 when the strike is at or below the lowest grid price |
| HedgeSimulator.SellModeSellsTheBudget | src/hedge_decision_simulator.py:22-24 | in sell mode, the shares sold are worth at least the put cost actually paid |
| LegacyHedgeSimulator.PutPayoff | src/hedge_simulator.py:25 | the payoff is zero at or above the strike, linear below it, and non-negative when contracts times contract size is non-negative |
| LegacyHedgeSimulator.SimulateHedge | src/hedge_simulator.py:6-41 | fails (linspace's message) iff the number of points is negative; otherwise `num_points` rows at the linspace prices, with both values and both P&L columns |
| LegacyHedgeSimulator.HedgedPnlFloor | src/hedge_simulator.py:25-38 | hedged P&L is at least unhedged P&L less the total premium, and equal to that at or above the strike |
| LegacyHedgeSimulator.RowsInPriceOrder | src/hedge_simulator.py:19 | for an increasing range, prices ascend within the range, and with two or more points both ends are included |
| LegacyHedgeSimulator.DefaultGrid | src/hedge_simulator.py:6-19 | the defaults give 100 rows from 100 to 400 |
| PutValues.CalculatePutValues | src/utils.py:1-15 | intrinsic value is never negative; intrinsic plus time value is the premium; intrinsic is zero at or below the market price and `strike - market` at or above it |
| PutValues.TimeValueNegativeBelowIntrinsic | src/utils.py:13-14 | a premium below the intrinsic value gives a negative time value, which is not clamped |
| PutValues.OutOfTheMoneyIsAllTimeValue | src/utils.py:13-14 | out of the money, the whole premium is time value |
| Common.LinspaceEnds | src/hedge_simulator.py:19 | the grid starts at `start`, and with two or more points ends exactly at `stop` |
| Common.LinspaceAscending | src/hedge_simulator.py:19 | for `start <= stop` the grid never descends and stays within `[start, stop]` |
| Common.Head | src/sim/option_filters.py:51 | the first `n` rows, or for negative `n` all but the last `-n`, as a prefix of the input |
| Common.Filter | src/sim/option_filters.py:29-35 | a boolean mask keeps exactly the rows that pass it, each as often as it occurs |
| Sorting.SortBy | src/sim/option_filters.py:39 | the sort returns an ordered permutation of its input |

## Left out

- `scipy.optimize.fsolve` is a parameter of `BreakevenLogic.SolveBreakeven`. Its convergence, its iteration and the estimates it returns are not modelled.
- IEEE floating point: rounding, overflow and signed zeros are not modelled; all quantities are exact reals. NaN and `None` are both `Option.None`, although the source returns NaN in some paths and `None` in others. The moneyness column that the older screen writes into the caller's frame holds ±inf or NaN for a zero current price (`src/option_analyzer.py:22`); the model writes `None` there, and the mask drops such rows either way.
- PutPnlSimulator.SimulatePutPnlStrict: requires a non-zero current price in "sell" mode when the grid is non-empty and the basket fits the budget. numpy would yield inf or NaN there instead of failing. The over-budget error is modelled at every current price.
- PutSimulationLogic.SimulatePutNetPnl: requires non-zero grid prices in "sell" mode when rows are selected. `calculate_now_capital` would divide by zero there.
- Analytics.ComputeBreakevenZones: requires a present, non-zero mid on every row. On any other row the source raises: the floor division gives inf (zero mid) or NaN (missing mid, or zero mid and zero budget), and pandas' `astype(int)` refuses a non-finite value. That error path is not modelled. `Analytics.ScreenThenZones` shows that the rows filter_puts returns always meet the requirement.
- Sorting.SortBy: returns one ordered permutation; the order of rows with equal keys is not modelled. For the single-key sort of `src/sim/option_filters.py:39`, pandas' default sort is not stable. The two-key sort of `src/option_analyzer.py:33` is stable, keeping input order among rows with equal mid and strike; `OptionAnalyzer.FilteredViewSpec` does not state that order either.
- HedgeSimulator.IsSellMode lower-cases the ASCII letters only; Python's `str.lower` also folds other alphabets.
- HedgeSimulator.SimulateDecision: assumes Python-float arguments throughout, so every division by zero raises Python's float error. With numpy arguments (`src/main.py:191-198` passes the premium as a numpy float), numpy yields inf or NaN instead. Outside "sell" mode, zero remaining shares then gives an infinite `breakeven_high` rather than the modelled `Err("float division by zero")`, and a zero premium reaches `int(...)` of an infinite quotient. Neither case is modelled.
- BreakevenLogic.SolveBreakeven: a reported breakeven is fsolve's estimate checked only against the window, as in the source. It is not proved to be a root of `difference`; `BreakevenLogic.ReportedRootBalancesCapital` states what follows when it is one.
- Contract counts are integers; a fractional `contracts` column in the selected rows is not modelled.
- pandas and numpy plumbing is not modelled: frame construction, column names, `copy`, `reset_index`, the index. Rows are records and tables are sequences.
- The Streamlit UI, matplotlib plotting, yfinance market-data fetches, logging, session and file I/O, and the interactive CLI in `src/main.py` (including its inline breakeven formulas) are not part of this model. These are interactive, presentation or network code.
- The print-only scripts are not modelled as programs; their parameter sets appear only as the example lemmas.
