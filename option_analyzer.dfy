/** The older contract screen of src/option_analyzer.py. Its filter_puts
    adds `mid_price`, `spread` and `moneyness` columns to the CALLER's
    frame in place, then returns a filtered copy ordered by mid price
    (cheapest first) and, among equal mids, by strike (highest first). */
module OptionAnalyzer {
  import opened Common
  import Sorting

  const DefaultMaxDaysToExpiry: int := 60
  const DefaultMinVolume: int := 10
  const DefaultMaxBidAskSpread: real := 10.0
  const DefaultMoneynessLow: real := 0.8
  const DefaultMoneynessHigh: real := 1.0
  const DefaultTopN: int := 3

  /** The three columns filter_puts adds; a missing value stands for NaN
      (a missing bid or ask) or for the infinity that dividing by a zero
      current price produces. */
  datatype Metrics = Metrics(midPrice: Option<real>, spread: Option<real>, moneyness: Option<real>)

  /** A row of the caller's frame: the quote and, once filter_puts has run,
      the added columns. */
  datatype FrameRow = FrameRow(quote: PutQuote, metrics: Option<Metrics>)

  /** A row of the returned frame. */
  datatype AnalyzedPut = AnalyzedPut(quote: PutQuote, metrics: Metrics)

  function MetricsOf(q: PutQuote, currentPrice: real): (m: Metrics)
    ensures m.midPrice.Some? <==> q.bid.Some? && q.ask.Some?
    ensures m.spread.Some? <==> q.bid.Some? && q.ask.Some?
    ensures m.midPrice.Some? ==> m.midPrice.value * 2.0 == q.bid.value + q.ask.value
    ensures m.spread.Some? ==> m.spread.value + q.bid.value == q.ask.value
    ensures m.moneyness.Some? <==> currentPrice != 0.0
    ensures m.moneyness.Some? ==> m.moneyness.value * currentPrice == q.strike
  {
    var quoted := q.bid.Some? && q.ask.Some?;
    Metrics(if quoted then Some((q.bid.value + q.ask.value) / 2.0) else None,
            if quoted then Some(q.ask.value - q.bid.value) else None,
            if currentPrice != 0.0 then Some(q.strike / currentPrice) else None)
  }

  /** The filter mask: volume, spread and both moneyness bounds. A missing
      value fails its comparison. */
  predicate Keeps(a: AnalyzedPut, minVolume: int, maxSpread: real, low: real, high: real)
  {
    && a.quote.volume.Some? && a.quote.volume.value >= minVolume as real
    && a.metrics.spread.Some? && a.metrics.spread.value <= maxSpread
    && a.metrics.moneyness.Some? && low <= a.metrics.moneyness.value <= high
  }

  /** Sort order: lower mid price first, then higher strike first. A
      missing mid (which never survives the filter) sorts last. */
  predicate CheaperFirst(a: AnalyzedPut, b: AnalyzedPut)
  {
    match (a.metrics.midPrice, b.metrics.midPrice)
    case (Some(x), Some(y)) => x < y || (x == y && a.quote.strike >= b.quote.strike)
    case (Some(_), None) => true
    case (None, Some(_)) => false
    case (None, None) => a.quote.strike >= b.quote.strike
  }

  lemma CheaperFirstIsPreorder()
    ensures Sorting.TotalPreorder(CheaperFirst)
  {
  }

  function Annotate(quotes: seq<PutQuote>, currentPrice: real): (r: seq<AnalyzedPut>)
    ensures |r| == |quotes|
    ensures forall i :: 0 <= i < |r| ==> r[i] == AnalyzedPut(quotes[i], MetricsOf(quotes[i], currentPrice))
  {
    seq(|quotes|, i requires 0 <= i < |quotes| => AnalyzedPut(quotes[i], MetricsOf(quotes[i], currentPrice)))
  }

  /** The frame filter_puts returns, as a function of the quotes. The
      expiry limit is accepted and never used. */
  function FilteredView(quotes: seq<PutQuote>, currentPrice: real, maxDaysToExpiry: int, minVolume: int,
                        maxSpread: real, low: real, high: real): (r: seq<AnalyzedPut>)
    ensures Sorting.SortedBy(r, CheaperFirst)
    ensures multiset(r) == multiset(Filter(Annotate(quotes, currentPrice),
                                           (a: AnalyzedPut) => Keeps(a, minVolume, maxSpread, low, high)))
  {
    var kept := Filter(Annotate(quotes, currentPrice), (a: AnalyzedPut) => Keeps(a, minVolume, maxSpread, low, high));
    CheaperFirstIsPreorder();
    Sorting.SortBy(kept, CheaperFirst)
  }

  /** Every returned row passes the mask and has all three columns; the
      rows run from the cheapest mid up, higher strikes first among equal
      mids; and they are exactly the annotated input rows that pass, each
      as often as it occurs. */
  lemma FilteredViewSpec(quotes: seq<PutQuote>, currentPrice: real, maxDaysToExpiry: int, minVolume: int,
                         maxSpread: real, low: real, high: real)
    ensures var r := FilteredView(quotes, currentPrice, maxDaysToExpiry, minVolume, maxSpread, low, high);
      && (forall i :: 0 <= i < |r| ==> Keeps(r[i], minVolume, maxSpread, low, high))
      && (forall i :: 0 <= i < |r| ==> r[i].metrics == MetricsOf(r[i].quote, currentPrice))
      && (forall i :: 0 <= i < |r| ==> r[i].metrics.midPrice.Some?)
      && (forall i, j :: 0 <= i < j < |r| ==>
            r[i].metrics.midPrice.value <= r[j].metrics.midPrice.value
            && (r[i].metrics.midPrice.value == r[j].metrics.midPrice.value ==> r[i].quote.strike >= r[j].quote.strike))
      && (forall a :: multiset(r)[a] ==
            if Keeps(a, minVolume, maxSpread, low, high) then multiset(Annotate(quotes, currentPrice))[a] else 0)
  {
    var annotated := Annotate(quotes, currentPrice);
    var kept := Filter(annotated, (a: AnalyzedPut) => Keeps(a, minVolume, maxSpread, low, high));
    var r := FilteredView(quotes, currentPrice, maxDaysToExpiry, minVolume, maxSpread, low, high);
    assert multiset(r) == multiset(kept);
    forall i | 0 <= i < |r|
      ensures Keeps(r[i], minVolume, maxSpread, low, high)
      ensures r[i].metrics == MetricsOf(r[i].quote, currentPrice)
    {
      assert r[i] in multiset(r);
      assert r[i] in kept;
      FilterMember(annotated, (a: AnalyzedPut) => Keeps(a, minVolume, maxSpread, low, high), r[i]);
    }
  }

  /** The expiry limit has no effect on the result. */
  lemma ExpiryIgnored(quotes: seq<PutQuote>, currentPrice: real, days1: int, days2: int, minVolume: int,
                      maxSpread: real, low: real, high: real)
    ensures FilteredView(quotes, currentPrice, days1, minVolume, maxSpread, low, high)
         == FilteredView(quotes, currentPrice, days2, minVolume, maxSpread, low, high)
  {
  }

  /** The caller's frame, which filter_puts changes in place. */
  class PutsFrame {
    var rows: seq<FrameRow>

    constructor (quotes: seq<PutQuote>)
      ensures |rows| == |quotes|
      ensures forall i :: 0 <= i < |quotes| ==> rows[i] == FrameRow(quotes[i], None)
    {
      rows := seq(|quotes|, i requires 0 <= i < |quotes| => FrameRow(quotes[i], None));
    }

    function Quotes(): (q: seq<PutQuote>)
      reads this
      ensures |q| == |rows|
      ensures forall i :: 0 <= i < |q| ==> q[i] == rows[i].quote
    {
      var rs := rows;
      seq(|rs|, i requires 0 <= i < |rs| => rs[i].quote)
    }
  }

  /** filter_puts: writes the three derived columns into the caller's frame
      (replacing any earlier ones), then returns the filtered, sorted copy. */
  method FilterPuts(frame: PutsFrame, currentPrice: real, maxDaysToExpiry: int, minVolume: int,
                    maxSpread: real, low: real, high: real) returns (r: seq<AnalyzedPut>)
    modifies frame
    ensures |frame.rows| == |old(frame.rows)|
    ensures forall i :: 0 <= i < |frame.rows| ==>
      frame.rows[i] == FrameRow(old(frame.rows)[i].quote, Some(MetricsOf(old(frame.rows)[i].quote, currentPrice)))
    ensures r == FilteredView(old(frame.Quotes()), currentPrice, maxDaysToExpiry, minVolume, maxSpread, low, high)
  {
    var quotes := frame.Quotes();
    frame.rows := seq(|quotes|, i requires 0 <= i < |quotes| =>
      FrameRow(quotes[i], Some(MetricsOf(quotes[i], currentPrice))));
    r := FilteredView(quotes, currentPrice, maxDaysToExpiry, minVolume, maxSpread, low, high);
  }

  function Project(a: AnalyzedPut): Suggestion
  {
    Suggestion(a.quote.contractSymbol, a.quote.strike, a.quote.lastPrice, a.quote.bid,
               a.quote.ask, a.metrics.midPrice, a.quote.volume, a.quote.impliedVolatility)
  }

  /** suggest_put: the first `topN` rows, projected onto the fixed columns. */
  function SuggestPut(filtered: seq<AnalyzedPut>, topN: int): (r: seq<Suggestion>)
    ensures |r| <= |filtered|
    ensures 0 <= topN ==> |r| == if topN <= |filtered| then topN else |filtered|
    ensures topN < 0 ==> |r| == if |filtered| + topN >= 0 then |filtered| + topN else 0
    ensures forall i :: 0 <= i < |r| ==> r[i] == Project(filtered[i])
  {
    var top := Head(filtered, topN);
    seq(|top|, i requires 0 <= i < |top| => Project(top[i]))
  }

  /** With the default arguments: a volume of at least 10, a spread of at
      most 10, moneyness between 0.8 and 1.0, and three suggestions at
      most. */
  lemma DefaultView(quotes: seq<PutQuote>, currentPrice: real)
    ensures var r := FilteredView(quotes, currentPrice, DefaultMaxDaysToExpiry, DefaultMinVolume,
                                  DefaultMaxBidAskSpread, DefaultMoneynessLow, DefaultMoneynessHigh);
      && (forall i :: 0 <= i < |r| ==>
            && r[i].quote.volume.Some? && r[i].quote.volume.value >= 10.0
            && r[i].metrics.spread.Some? && r[i].metrics.spread.value <= 10.0
            && r[i].metrics.moneyness.Some? && 0.8 <= r[i].metrics.moneyness.value <= 1.0)
      && |SuggestPut(r, DefaultTopN)| == if |r| < 3 then |r| else 3
  {
    FilteredViewSpec(quotes, currentPrice, DefaultMaxDaysToExpiry, DefaultMinVolume,
                     DefaultMaxBidAskSpread, DefaultMoneynessLow, DefaultMoneynessHigh);
  }
}
