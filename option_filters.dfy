/** Contract screening of src/sim/option_filters.py: derive a mid price,
    add intrinsic and time value, keep the strikes inside the moneyness
    window with enough volume and a positive mid, and rank by distance
    from the money. */
module OptionFilters {
  import opened Common
  import Sorting

  const DefaultMinVolume: int := 100
  const DefaultMoneynessLow: real := 0.8
  const DefaultMoneynessHigh: real := 1.3
  const DefaultTopN: int := 5

  /** A chain together with whether it already carries a `mid_price`
      column. */
  datatype PutChain = PutChain(quotes: seq<PutQuote>, hasMidPrice: bool)

  /** A row of the working copy after the derived columns are added. */
  datatype Candidate = Candidate(
    quote: PutQuote,
    midPrice: Option<real>,
    intrinsicValue: real,
    timeValue: Option<real>,
    absDiff: real)

  /** The mid price when the chain has none: the bid/ask midpoint, then the
      last trade price where that midpoint is missing or exactly zero. */
  function DerivedMid(q: PutQuote): (r: Option<real>)
    ensures q.bid.Some? && q.ask.Some? && q.bid.value + q.ask.value != 0.0 ==>
      r == Some((q.bid.value + q.ask.value) / 2.0)
    ensures !(q.bid.Some? && q.ask.Some?) || q.bid.value + q.ask.value == 0.0 ==> r == q.lastPrice
  {
    var midpoint := if q.bid.Some? && q.ask.Some? then Some((q.bid.value + q.ask.value) / 2.0) else None;
    var filled := if midpoint.None? then q.lastPrice else midpoint;
    if filled == Some(0.0) then q.lastPrice else filled
  }

  /** The mid price of a row: the existing column, left as it is, or the
      derived one. */
  function MidOf(q: PutQuote, hasMidPrice: bool): Option<real>
  {
    if hasMidPrice then q.midPrice else DerivedMid(q)
  }

  /** Adds `mid_price`, `intrinsic_value = strike - current_price` (not
      clamped at zero here), `time_value` and `abs_diff`. */
  function Enrich(q: PutQuote, hasMidPrice: bool, currentPrice: real): (c: Candidate)
    ensures c.quote == q
    ensures c.intrinsicValue + currentPrice == q.strike
    ensures c.midPrice.Some? <==> c.timeValue.Some?
    ensures c.timeValue.Some? ==> c.timeValue.value + c.intrinsicValue == c.midPrice.value
    ensures c.absDiff == Abs(q.strike - currentPrice)
  {
    var mid := MidOf(q, hasMidPrice);
    var intrinsic := q.strike - currentPrice;
    Candidate(q, mid, intrinsic,
              if mid.Some? then Some(mid.value - intrinsic) else None,
              Abs(q.strike - currentPrice))
  }

  function EnrichAll(chain: PutChain, currentPrice: real): (r: seq<Candidate>)
    ensures |r| == |chain.quotes|
    ensures forall i :: 0 <= i < |r| ==> r[i] == Enrich(chain.quotes[i], chain.hasMidPrice, currentPrice)
  {
    seq(|chain.quotes|, i requires 0 <= i < |chain.quotes| =>
      Enrich(chain.quotes[i], chain.hasMidPrice, currentPrice))
  }

  /** Filter 1: `strike.between(cp * lo, cp * hi)`, both ends included. */
  predicate StrikeInWindow(c: Candidate, currentPrice: real, low: real, high: real)
  {
    currentPrice * low <= c.quote.strike <= currentPrice * high
  }

  /** Filter 2: enough volume (a missing volume never passes). */
  predicate EnoughVolume(c: Candidate, minVolume: int)
  {
    c.quote.volume.Some? && c.quote.volume.value >= minVolume as real
  }

  /** Filter 3: a positive mid price (a missing one never passes). */
  predicate PositiveMid(c: Candidate)
  {
    c.midPrice.Some? && c.midPrice.value > 0.0
  }

  predicate Passes(c: Candidate, currentPrice: real, minVolume: int, low: real, high: real)
  {
    StrikeInWindow(c, currentPrice, low, high) && EnoughVolume(c, minVolume) && PositiveMid(c)
  }

  /** Nearer the money first. */
  predicate CloserToMoney(a: Candidate, b: Candidate)
  {
    a.absDiff <= b.absDiff
  }

  lemma CloserToMoneyIsPreorder()
    ensures Sorting.TotalPreorder(CloserToMoney)
  {
  }

  /** The three filters of filter_puts, in turn. */
  function Screened(chain: PutChain, currentPrice: real, minVolume: int, low: real, high: real): (r: seq<Candidate>)
  {
    var enriched := EnrichAll(chain, currentPrice);
    var inWindow := Filter(enriched, (c: Candidate) => StrikeInWindow(c, currentPrice, low, high));
    var liquid := Filter(inWindow, (c: Candidate) => EnoughVolume(c, minVolume));
    Filter(liquid, PositiveMid)
  }

  /** The screened rows are exactly the enriched rows that pass all three
      filters, each as often as it occurs, and each passing row keeps the
      derived columns of its input row. */
  lemma ScreenedSpec(chain: PutChain, currentPrice: real, minVolume: int, low: real, high: real)
    ensures var r := Screened(chain, currentPrice, minVolume, low, high);
      && (forall c :: multiset(r)[c] ==
            if Passes(c, currentPrice, minVolume, low, high)
            then multiset(EnrichAll(chain, currentPrice))[c] else 0)
      && (forall c :: c in multiset(r) ==>
            Passes(c, currentPrice, minVolume, low, high)
            && c == Enrich(c.quote, chain.hasMidPrice, currentPrice))
  {
    var enriched := EnrichAll(chain, currentPrice);
    var inWindow := Filter(enriched, (c: Candidate) => StrikeInWindow(c, currentPrice, low, high));
    var liquid := Filter(inWindow, (c: Candidate) => EnoughVolume(c, minVolume));
    var r := Screened(chain, currentPrice, minVolume, low, high);
    forall c: Candidate | c in multiset(r)
      ensures c == Enrich(c.quote, chain.hasMidPrice, currentPrice)
    {
      assert c in enriched;
    }
  }

  /** filter_puts: the three filters, then the sort by `abs_diff`. */
  function FilterPuts(chain: PutChain, currentPrice: real, minVolume: int, low: real, high: real): (r: seq<Candidate>)
    ensures Sorting.SortedBy(r, CloserToMoney)
    ensures multiset(r) == multiset(Screened(chain, currentPrice, minVolume, low, high))
  {
    CloserToMoneyIsPreorder();
    Sorting.SortBy(Screened(chain, currentPrice, minVolume, low, high), CloserToMoney)
  }

  /** Every row filter_puts returns passes all three filters, carries the
      derived columns of its input row, and the rows come nearest the money
      first; they are exactly the enriched input rows that pass, each as
      often as it occurs. */
  lemma FilterPutsSpec(chain: PutChain, currentPrice: real, minVolume: int, low: real, high: real)
    ensures var r := FilterPuts(chain, currentPrice, minVolume, low, high);
      && (forall i :: 0 <= i < |r| ==> Passes(r[i], currentPrice, minVolume, low, high))
      && (forall i :: 0 <= i < |r| ==> r[i] == Enrich(r[i].quote, chain.hasMidPrice, currentPrice))
      && (forall i, j :: 0 <= i < j < |r| ==> r[i].absDiff <= r[j].absDiff)
      && (forall c :: multiset(r)[c] ==
            if Passes(c, currentPrice, minVolume, low, high)
            then multiset(EnrichAll(chain, currentPrice))[c] else 0)
  {
    ScreenedSpec(chain, currentPrice, minVolume, low, high);
    var r := FilterPuts(chain, currentPrice, minVolume, low, high);
    forall i | 0 <= i < |r|
      ensures Passes(r[i], currentPrice, minVolume, low, high)
      ensures r[i] == Enrich(r[i].quote, chain.hasMidPrice, currentPrice)
    {
      assert r[i] in multiset(r);
    }
  }

  /** The filtered rows all have a positive mid price, which is what the
      breakeven zone step divides by. */
  lemma FilteredMidsPositive(chain: PutChain, currentPrice: real, minVolume: int, low: real, high: real)
    ensures var r := FilterPuts(chain, currentPrice, minVolume, low, high);
      forall i :: 0 <= i < |r| ==> r[i].midPrice.Some? && r[i].midPrice.value > 0.0
  {
    FilterPutsSpec(chain, currentPrice, minVolume, low, high);
  }

  function Project(c: Candidate): Suggestion
  {
    Suggestion(c.quote.contractSymbol, c.quote.strike, c.quote.lastPrice, c.quote.bid,
               c.quote.ask, c.midPrice, c.quote.volume, c.quote.impliedVolatility)
  }

  /** suggest_put: the first `topN` rows, projected onto the fixed columns. */
  function SuggestPut(filtered: seq<Candidate>, topN: int): (r: seq<Suggestion>)
    ensures |r| <= |filtered|
    ensures 0 <= topN ==> |r| == if topN <= |filtered| then topN else |filtered|
    ensures topN < 0 ==> |r| == if |filtered| + topN >= 0 then |filtered| + topN else 0
    ensures forall i :: 0 <= i < |r| ==> r[i] == Project(filtered[i])
  {
    var top := Head(filtered, topN);
    seq(|top|, i requires 0 <= i < |top| => Project(top[i]))
  }

  /** With the default arguments: strikes within 80% to 130% of the current
      price, a volume of at least 100, and five suggestions at most. */
  lemma DefaultScreen(chain: PutChain, currentPrice: real)
    ensures var r := FilterPuts(chain, currentPrice, DefaultMinVolume, DefaultMoneynessLow, DefaultMoneynessHigh);
      && (forall i :: 0 <= i < |r| ==>
            && currentPrice * 0.8 <= r[i].quote.strike <= currentPrice * 1.3
            && r[i].quote.volume.Some? && r[i].quote.volume.value >= 100.0)
      && |SuggestPut(r, DefaultTopN)| == if |r| < 5 then |r| else 5
  {
    FilterPutsSpec(chain, currentPrice, DefaultMinVolume, DefaultMoneynessLow, DefaultMoneynessHigh);
  }
}
