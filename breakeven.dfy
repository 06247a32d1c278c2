/** Capital accounting and the breakeven decision ladder of
    src/sim/put_breakeven_logic.py.

    Funding modes are the source's own strings: "cash" adds the hedge
    budget to the capital base, "sell" pays the hedge by selling shares,
    and any other string takes neither branch. The put payoff of this file
    keeps the premium INSIDE the `max`, unlike the single-put simulators. */
module BreakevenLogic {
  import opened Common

  /** The sanity window `(0, 10000)` a root must fall in to be reported. */
  predicate InWindow(x: real)
  {
    0.0 < x < 10000.0
  }

  /** Capital at the start: the shares at the market or at their average
      price, plus the hedge budget when it is external cash. The premium
      and the contract count are accepted and ignored, as in the source. */
  function InitialCapital(price: real, shares: real, avgPrice: real, hedgeBudget: real,
                          premium: real, contracts: int, budgetSource: string,
                          useMarketPrice: bool): (r: real)
    ensures (shares >= 0.0 && (if useMarketPrice then price else avgPrice) >= 0.0
             && (budgetSource == "cash" ==> hedgeBudget >= 0.0)) ==> r >= 0.0
  {
    var shareValue := if useMarketPrice then shares * price else shares * avgPrice;
    if budgetSource == "cash" then shareValue + hedgeBudget else shareValue
  }

  /** Payoff of the puts at `price`, net of premium per share. */
  function PutPayoff(price: real, strike: real, premium: real, contracts: int): (r: real)
    ensures contracts >= 0 ==> r >= 0.0
    ensures price >= strike - premium ==> r == 0.0
    ensures price < strike - premium ==> r == (strike - premium - price) * (contracts as real) * SharesPerContract
  {
    Max(0.0, strike - premium - price) * (contracts as real) * SharesPerContract
  }

  /** Capital at a hypothetical `price`: the put payoff plus the shares
      still held. In "sell" mode the hedge cost is raised by selling shares
      at `price` itself, so the shares sold change with the price; the
      remaining count is never clamped at zero. */
  function NowCapital(price: real, strike: real, premium: real, contracts: int,
                      shares: real, budgetSource: string): (r: real)
    requires budgetSource == "sell" ==> price != 0.0
    ensures budgetSource == "sell" ==>
      r == PutPayoff(price, strike, premium, contracts) + shares * price
           - premium * (contracts as real) * SharesPerContract
    ensures budgetSource != "sell" ==>
      r == PutPayoff(price, strike, premium, contracts) + shares * price
  {
    var hedgeCost := premium * (contracts as real) * SharesPerContract;
    var remainingShares := if budgetSource == "sell" then shares - hedgeCost / price else shares;
    assert budgetSource == "sell" ==>
      (shares - hedgeCost / price) * price == shares * price - hedgeCost;
    PutPayoff(price, strike, premium, contracts) + remainingShares * price
  }

  lemma InitialCapitalIgnoresContract(price: real, shares: real, avgPrice: real, hedgeBudget: real,
                                      premium1: real, contracts1: int, premium2: real, contracts2: int,
                                      budgetSource: string, useMarketPrice: bool)
    ensures InitialCapital(price, shares, avgPrice, hedgeBudget, premium1, contracts1, budgetSource, useMarketPrice)
         == InitialCapital(price, shares, avgPrice, hedgeBudget, premium2, contracts2, budgetSource, useMarketPrice)
  {
  }

  /** Cash funding adds exactly the hedge budget to the capital base; every
      other mode values the shares alone, at the basis `useMarketPrice`
      selects. */
  lemma InitialCapitalByMode(price: real, shares: real, avgPrice: real, hedgeBudget: real,
                             premium: real, contracts: int, budgetSource: string,
                             useMarketPrice: bool)
    ensures budgetSource == "cash" ==>
      InitialCapital(price, shares, avgPrice, hedgeBudget, premium, contracts, budgetSource, useMarketPrice)
      == InitialCapital(price, shares, avgPrice, hedgeBudget, premium, contracts, "sell", useMarketPrice) + hedgeBudget
    ensures budgetSource != "cash" ==>
      InitialCapital(price, shares, avgPrice, hedgeBudget, premium, contracts, budgetSource, useMarketPrice)
      == (if useMarketPrice then shares * price else shares * avgPrice)
  {
  }

  // ---------------------------------------------------------------------
  // solve_breakeven

  /** What `scipy.optimize.fsolve` hands back for one starting guess: the
      estimate it stopped at (which may be any real), a NaN, or an
      exception with its message. */
  datatype FsolveOutcome = Estimate(x: real) | NotANumber | Raised(message: string)

  /** Everything the `difference` closure that is handed to fsolve
      captures. */
  datatype BreakevenProblem = BreakevenProblem(
    strike: real, premium: real, contracts: int, shares: real,
    budgetSource: string, initialCapital: real)

  /** The function whose root fsolve looks for: a large positive value for
      non-positive prices, otherwise capital now minus initial capital. */
  function Difference(prob: BreakevenProblem, p: real): (r: real)
    ensures p > 0.0 ==> (r == 0.0 <==>
      NowCapital(p, prob.strike, prob.premium, prob.contracts, prob.shares, prob.budgetSource) == prob.initialCapital)
  {
    if p <= 0.0 then 1000000.0
    else NowCapital(p, prob.strike, prob.premium, prob.contracts, prob.shares, prob.budgetSource) - prob.initialCapital
  }

  /** The root finder: for the problem and a starting guess, what fsolve
      returns. It is supplied by the caller; nothing is assumed about it. */
  type Fsolve = (BreakevenProblem, real) -> FsolveOutcome

  /** The tuple solve_breakeven returns; a missing breakeven is NaN or None
      in the source. */
  datatype Breakeven = Breakeven(lower: Option<real>, upper: Option<real>, explanation: string)

  const NoContractsText := "no contracts (contracts <= 0 or premium <= 0)"
  const CannotSellText := "Can't buy the contracts from selling your shares"
  const CannotPayCashText := "Can't buy contracts from the cash (not enough)"
  const PutOnlyLowerText := "Only lower breakeven exists (PUT-only hedge)"
  const PutOnlyUnsolvedText := "Breakeven could not be solved (PUT-only hedge)"
  const StandardText := "Standard hedge (stock + PUT)"
  const NeitherText := "Could not solve either breakeven"
  const OnlyUpperText := "Only upper breakeven exists"
  const OnlyLowerText := "Only lower breakeven exists"
  const ExceptionPrefix := "Exception occurred: "

  /** The guesses fsolve starts from for the lower and the upper root. */
  function LowerGuess(strike: real): real { strike - 50.0 }
  function UpperGuess(strike: real): real { strike + 50.0 }

  /** A root estimate kept only when it lies in the sanity window. */
  function Accept(o: FsolveOutcome): (r: Option<real>)
    requires !o.Raised?
    ensures r.Some? <==> (o.Estimate? && InWindow(o.x))
    ensures r.Some? ==> r.value == o.x
  {
    if o.Estimate? && InWindow(o.x) then Some(o.x) else None
  }

  /** The explanation picked from which slots are filled. */
  function Explain(lower: Option<real>, upper: Option<real>): string
  {
    if lower.None? && upper.None? then NeitherText
    else if lower.None? then OnlyUpperText
    else if upper.None? then OnlyLowerText
    else StandardText
  }

  /** True when the ladder gets past the three feasibility checks. */
  predicate Feasible(price: real, premium: real, contracts: int, shares: real,
                     hedgeBudget: real, budgetSource: string)
  {
    var hedgeCost := premium * (contracts as real) * SharesPerContract;
    && !(contracts <= 0 || premium <= 0.0)
    && !(budgetSource == "sell" && shares * price < hedgeCost)
    && !(budgetSource == "cash" && hedgeBudget < hedgeCost)
  }

  /** The problem the `difference` closure of one call captures. */
  function ProblemOf(price: real, strike: real, premium: real, contracts: int, shares: real,
                     avgPrice: real, hedgeBudget: real, budgetSource: string,
                     useMarketPrice: bool): BreakevenProblem
  {
    BreakevenProblem(strike, premium, contracts, shares, budgetSource,
      InitialCapital(price, shares, avgPrice, hedgeBudget, premium, contracts, budgetSource, useMarketPrice))
  }

  /** solve_breakeven: feasibility checks, then the PUT-only branch (no
      shares or no average price) or the standard branch, where `mode`
      ("both", "lower" or "upper") says which roots are sought. An
      exception raised by fsolve is returned as the explanation. */
  function SolveBreakeven(price: real, strike: real, premium: real, contracts: int, shares: real,
                          avgPrice: real, hedgeBudget: real, budgetSource: string, mode: string,
                          useMarketPrice: bool, fsolve: Fsolve): (r: Breakeven)
    ensures contracts <= 0 || premium <= 0.0 ==> r == Breakeven(None, None, NoContractsText)
    ensures r.lower.Some? ==> InWindow(r.lower.value)
    ensures r.upper.Some? ==> InWindow(r.upper.value)
    ensures shares == 0.0 || avgPrice == 0.0 ==> r.upper.None?
    ensures shares != 0.0 && avgPrice != 0.0 && mode == "lower" ==> r.upper.None?
    ensures shares != 0.0 && avgPrice != 0.0 && mode == "upper" ==> r.lower.None?
  {
    var hedgeCost := premium * (contracts as real) * SharesPerContract;
    if contracts <= 0 || premium <= 0.0 then
      Breakeven(None, None, NoContractsText)
    else if budgetSource == "sell" && shares * price < hedgeCost then
      Breakeven(None, None, CannotSellText)
    else if budgetSource == "cash" && hedgeBudget < hedgeCost then
      Breakeven(None, None, CannotPayCashText)
    else
      var prob := ProblemOf(price, strike, premium, contracts, shares, avgPrice, hedgeBudget,
                            budgetSource, useMarketPrice);
      if shares == 0.0 || avgPrice == 0.0 then
        var lowerResult := fsolve(prob, LowerGuess(strike));
        if lowerResult.Raised? then Breakeven(None, None, ExceptionPrefix + lowerResult.message)
        else if lowerResult.Estimate? && InWindow(lowerResult.x) then
          Breakeven(Some(lowerResult.x), None, PutOnlyLowerText)
        else Breakeven(None, None, PutOnlyUnsolvedText)
      else
        var wantLower := mode == "both" || mode == "lower";
        var wantUpper := mode == "both" || mode == "upper";
        var lowerResult := if wantLower then fsolve(prob, LowerGuess(strike)) else NotANumber;
        var upperResult := if wantUpper then fsolve(prob, UpperGuess(strike)) else NotANumber;
        if lowerResult.Raised? then Breakeven(None, None, ExceptionPrefix + lowerResult.message)
        else if upperResult.Raised? then Breakeven(None, None, ExceptionPrefix + upperResult.message)
        else
          var lower := Accept(lowerResult);
          var upper := Accept(upperResult);
          Breakeven(lower, upper, Explain(lower, upper))
  }

  /** True when no call the standard branch makes to fsolve raises. */
  predicate StandardCallsSucceed(prob: BreakevenProblem, strike: real, mode: string, fsolve: Fsolve)
  {
    && ((mode == "both" || mode == "lower") ==> !fsolve(prob, LowerGuess(strike)).Raised?)
    && ((mode == "both" || mode == "upper") ==> !fsolve(prob, UpperGuess(strike)).Raised?)
  }

  /** In the standard branch the explanation names exactly the slots that
      are filled: "Standard hedge" iff both, "Could not solve" iff neither,
      otherwise the "Only ... exists" text of the filled one; and a filled
      slot holds fsolve's estimate for that side. */
  lemma StandardExplanation(price: real, strike: real, premium: real, contracts: int, shares: real,
                            avgPrice: real, hedgeBudget: real, budgetSource: string, mode: string,
                            useMarketPrice: bool, fsolve: Fsolve)
    requires Feasible(price, premium, contracts, shares, hedgeBudget, budgetSource)
    requires shares != 0.0 && avgPrice != 0.0
    requires StandardCallsSucceed(ProblemOf(price, strike, premium, contracts, shares, avgPrice,
                                            hedgeBudget, budgetSource, useMarketPrice), strike, mode, fsolve)
    ensures var r := SolveBreakeven(price, strike, premium, contracts, shares, avgPrice, hedgeBudget,
                                    budgetSource, mode, useMarketPrice, fsolve);
      && (r.explanation == StandardText <==> r.lower.Some? && r.upper.Some?)
      && (r.explanation == NeitherText <==> r.lower.None? && r.upper.None?)
      && (r.explanation == OnlyUpperText <==> r.lower.None? && r.upper.Some?)
      && (r.explanation == OnlyLowerText <==> r.lower.Some? && r.upper.None?)
    ensures var r := SolveBreakeven(price, strike, premium, contracts, shares, avgPrice, hedgeBudget,
                                    budgetSource, mode, useMarketPrice, fsolve);
      var prob := ProblemOf(price, strike, premium, contracts, shares, avgPrice, hedgeBudget,
                            budgetSource, useMarketPrice);
      && (r.lower.Some? ==> fsolve(prob, LowerGuess(strike)) == Estimate(r.lower.value))
      && (r.upper.Some? ==> fsolve(prob, UpperGuess(strike)) == Estimate(r.upper.value))
  {
    var r := SolveBreakeven(price, strike, premium, contracts, shares, avgPrice, hedgeBudget,
                            budgetSource, mode, useMarketPrice, fsolve);
    assert r.explanation == Explain(r.lower, r.upper);
    ExplainDistinct(r.lower, r.upper);
  }

  /** The four explanation texts are pairwise different. */
  lemma ExplainDistinct(lower: Option<real>, upper: Option<real>)
    ensures Explain(lower, upper) == StandardText <==> lower.Some? && upper.Some?
    ensures Explain(lower, upper) == NeitherText <==> lower.None? && upper.None?
    ensures Explain(lower, upper) == OnlyUpperText <==> lower.None? && upper.Some?
    ensures Explain(lower, upper) == OnlyLowerText <==> lower.Some? && upper.None?
  {
    assert StandardText[0] != NeitherText[0];
    assert OnlyUpperText[5] != OnlyLowerText[5];
    assert StandardText[0] != OnlyUpperText[0];
    assert NeitherText[0] != OnlyUpperText[0];
  }

  /** The feasibility ladder, in its order: no contracts first, then the
      sell-side shortfall, then the cash shortfall; none of them calls
      fsolve. */
  lemma InfeasibleLadder(price: real, strike: real, premium: real, contracts: int, shares: real,
                         avgPrice: real, hedgeBudget: real, budgetSource: string, mode: string,
                         useMarketPrice: bool, fsolve: Fsolve)
    requires contracts > 0 && premium > 0.0
    ensures var r := SolveBreakeven(price, strike, premium, contracts, shares, avgPrice, hedgeBudget,
                                    budgetSource, mode, useMarketPrice, fsolve);
      var hedgeCost := premium * (contracts as real) * SharesPerContract;
      && (budgetSource == "sell" && shares * price < hedgeCost ==> r == Breakeven(None, None, CannotSellText))
      && (budgetSource == "cash" && hedgeBudget < hedgeCost ==> r == Breakeven(None, None, CannotPayCashText))
  {
  }

  /** With no shares or no average price only a lower breakeven can be
      reported, whatever `mode` asks for, and it is fsolve's estimate from
      the lower guess when that lies in the window. */
  lemma PutOnlyBranch(price: real, strike: real, premium: real, contracts: int, shares: real,
                      avgPrice: real, hedgeBudget: real, budgetSource: string, mode: string,
                      useMarketPrice: bool, fsolve: Fsolve)
    requires Feasible(price, premium, contracts, shares, hedgeBudget, budgetSource)
    requires shares == 0.0 || avgPrice == 0.0
    ensures var r := SolveBreakeven(price, strike, premium, contracts, shares, avgPrice, hedgeBudget,
                                    budgetSource, mode, useMarketPrice, fsolve);
      var o := fsolve(ProblemOf(price, strike, premium, contracts, shares, avgPrice, hedgeBudget,
                                budgetSource, useMarketPrice), LowerGuess(strike));
      && r.upper.None?
      && (o.Raised? ==> r == Breakeven(None, None, ExceptionPrefix + o.message))
      && (o.Estimate? && InWindow(o.x) ==> r == Breakeven(Some(o.x), None, PutOnlyLowerText))
      && (!o.Raised? && !(o.Estimate? && InWindow(o.x)) ==> r == Breakeven(None, None, PutOnlyUnsolvedText))
  {
  }

  /** An exception from fsolve never escapes: it comes back as the
      explanation, with both slots empty. */
  lemma ExceptionReturned(price: real, strike: real, premium: real, contracts: int, shares: real,
                          avgPrice: real, hedgeBudget: real, budgetSource: string, mode: string,
                          useMarketPrice: bool, fsolve: Fsolve)
    requires Feasible(price, premium, contracts, shares, hedgeBudget, budgetSource)
    requires mode == "both" || mode == "lower" || shares == 0.0 || avgPrice == 0.0
    requires fsolve(ProblemOf(price, strike, premium, contracts, shares, avgPrice, hedgeBudget,
                              budgetSource, useMarketPrice), LowerGuess(strike)).Raised?
    ensures var r := SolveBreakeven(price, strike, premium, contracts, shares, avgPrice, hedgeBudget,
                                    budgetSource, mode, useMarketPrice, fsolve);
      var o := fsolve(ProblemOf(price, strike, premium, contracts, shares, avgPrice, hedgeBudget,
                                budgetSource, useMarketPrice), LowerGuess(strike));
      r == Breakeven(None, None, ExceptionPrefix + o.message)
  {
  }

  /** Likewise for the upper guess: in the standard branch, when the upper
      root is sought and its call raises (the lower call, if made, having
      returned), the exception comes back as the explanation. */
  lemma UpperExceptionReturned(price: real, strike: real, premium: real, contracts: int, shares: real,
                               avgPrice: real, hedgeBudget: real, budgetSource: string, mode: string,
                               useMarketPrice: bool, fsolve: Fsolve)
    requires Feasible(price, premium, contracts, shares, hedgeBudget, budgetSource)
    requires shares != 0.0 && avgPrice != 0.0
    requires mode == "both" || mode == "upper"
    requires mode == "both" ==>
      !fsolve(ProblemOf(price, strike, premium, contracts, shares, avgPrice, hedgeBudget,
                        budgetSource, useMarketPrice), LowerGuess(strike)).Raised?
    requires fsolve(ProblemOf(price, strike, premium, contracts, shares, avgPrice, hedgeBudget,
                              budgetSource, useMarketPrice), UpperGuess(strike)).Raised?
    ensures var r := SolveBreakeven(price, strike, premium, contracts, shares, avgPrice, hedgeBudget,
                                    budgetSource, mode, useMarketPrice, fsolve);
      var o := fsolve(ProblemOf(price, strike, premium, contracts, shares, avgPrice, hedgeBudget,
                                budgetSource, useMarketPrice), UpperGuess(strike));
      r == Breakeven(None, None, ExceptionPrefix + o.message)
  {
  }

  /** A reported breakeven that fsolve really solved, a zero of the
      `difference` closure, is a price at which the capital now equals the
      initial capital. */
  lemma ReportedRootBalancesCapital(price: real, strike: real, premium: real, contracts: int, shares: real,
                                    avgPrice: real, hedgeBudget: real, budgetSource: string, mode: string,
                                    useMarketPrice: bool, fsolve: Fsolve)
    ensures var r := SolveBreakeven(price, strike, premium, contracts, shares, avgPrice, hedgeBudget,
                                    budgetSource, mode, useMarketPrice, fsolve);
      var prob := ProblemOf(price, strike, premium, contracts, shares, avgPrice, hedgeBudget,
                            budgetSource, useMarketPrice);
      && (r.lower.Some? && Difference(prob, r.lower.value) == 0.0 ==>
            NowCapital(r.lower.value, strike, premium, contracts, shares, budgetSource) == prob.initialCapital)
      && (r.upper.Some? && Difference(prob, r.upper.value) == 0.0 ==>
            NowCapital(r.upper.value, strike, premium, contracts, shares, budgetSource) == prob.initialCapital)
  {
  }

  /** The "Insufficient Budget - SELL" parameters: the hedge costs 15000,
      the shares are worth 12500, so the sell-side message comes back. */
  lemma InsufficientSellExample(fsolve: Fsolve)
    ensures SolveBreakeven(250.0, 250.0, 50.0, 3, 50.0, 200.0, 500.0, "sell", "upper", true, fsolve)
         == Breakeven(None, None, CannotSellText)
    ensures SolveBreakeven(250.0, 250.0, 50.0, 3, 50.0, 200.0, 500.0, "sell", "lower", true, fsolve)
         == Breakeven(None, None, CannotSellText)
  {
  }

  /** The "No Shares - SELL" parameters: with nothing to sell the hedge
      cannot be funded, before the PUT-only branch is reached. */
  lemma NoSharesSellExample(fsolve: Fsolve, mode: string)
    ensures SolveBreakeven(250.0, 250.0, 10.0, 2, 0.0, 0.0, 3000.0, "sell", mode, true, fsolve)
         == Breakeven(None, None, CannotSellText)
  {
  }

  /** The "No Shares - CASH" parameters reach the PUT-only branch: never an
      upper breakeven, and one of the PUT-only texts unless fsolve raises. */
  lemma NoSharesCashExample(fsolve: Fsolve, mode: string)
    ensures var r := SolveBreakeven(250.0, 250.0, 10.0, 2, 0.0, 0.0, 3000.0, "cash", mode, true, fsolve);
      && r.upper.None?
      && (r.explanation == PutOnlyLowerText || r.explanation == PutOnlyUnsolvedText
          || r.explanation[..|ExceptionPrefix|] == ExceptionPrefix)
  {
  }

  /** At a price below `strike - premium` in "sell" mode the capital now is
      linear: the stock and put legs together move by `shares - 100 *
      contracts` per unit of price. */
  lemma SellCapitalBelowBreakpoint(price: real, strike: real, premium: real, contracts: int, shares: real)
    requires 0.0 < price < strike - premium
    ensures NowCapital(price, strike, premium, contracts, shares, "sell")
         == (shares - (contracts as real) * SharesPerContract) * price
            + (strike - premium) * (contracts as real) * SharesPerContract
            - premium * (contracts as real) * SharesPerContract
  {
  }
}
