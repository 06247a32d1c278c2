/** Values shared by every part of the hedge accounting engine: missing
    values, failures, the numeric helpers that numpy and Python supply
    (max, floor division, linspace, head), and the row types of an
    option chain. */
module Common {

  /** A value that may be missing (`None` and `np.nan` in the source). */
  datatype Option<+T> = None | Some(value: T)

  /** Either a value or the message of the exception the source raises. */
  datatype Result<+T> = Ok(value: T) | Err(message: string)

  /** Shares controlled by one option contract. */
  const SharesPerContract: real := 100.0

  function Max(a: real, b: real): (r: real)
    ensures r >= a && r >= b
    ensures r == a || r == b
  {
    if a >= b then a else b
  }

  function Abs(x: real): (r: real)
    ensures r >= 0.0
    ensures r == x || r == -x
  {
    if x >= 0.0 then x else -x
  }

  /** `a // b` on Python floats: the floor of the exact quotient. */
  function FloorDiv(a: real, b: real): int
    requires b != 0.0
  {
    (a / b).Floor
  }

  /** For a positive divisor, `a // b` is the largest whole number of `b`s
      that fit in `a`. */
  lemma FloorDivBounds(a: real, b: real)
    requires b > 0.0
    ensures (FloorDiv(a, b) as real) * b <= a < (FloorDiv(a, b) as real + 1.0) * b
    ensures a >= 0.0 ==> FloorDiv(a, b) >= 0
  {
    var k := FloorDiv(a, b);
    FloorBounds(a / b);
    ScaleBelow(a, b, k as real);
    ScaleAbove(a, b, (k as real) + 1.0);
  }

  /** `lo <= a / b` gives `lo * b <= a`. */
  lemma ScaleBelow(a: real, b: real, lo: real)
    requires b > 0.0 && lo <= a / b
    ensures lo * b <= a
  {
    DivTimes(a, b);
    MulLeftMono(lo, a / b, b);
  }

  /** `a / b < hi` gives `a < hi * b`. */
  lemma ScaleAbove(a: real, b: real, hi: real)
    requires b > 0.0 && a / b < hi
    ensures a < hi * b
  {
    DivTimes(a, b);
    MulLeftStrict(a / b, hi, b);
  }

  lemma FloorBounds(q: real)
    ensures (q.Floor as real) <= q < (q.Floor as real) + 1.0
  {
  }

  lemma DivTimes(a: real, b: real)
    requires b != 0.0
    ensures (a / b) * b == a
  {
  }

  lemma MulLeftMono(x: real, y: real, c: real)
    requires x <= y && c >= 0.0
    ensures x * c <= y * c
  {
  }

  lemma MulLeftStrict(x: real, y: real, c: real)
    requires x < y && c > 0.0
    ensures x * c < y * c
  {
  }

  /** The spacing of `np.linspace(start, stop, num)` with its endpoint
      included. */
  function LinspaceStep(start: real, stop: real, num: nat): real
  {
    if num <= 1 then 0.0 else (stop - start) / ((num - 1) as real)
  }

  /** The `i`-th of the `num` evenly spaced points from `start` to `stop`. */
  function LinspaceAt(start: real, stop: real, num: nat, i: nat): real
  {
    start + (i as real) * LinspaceStep(start, stop, num)
  }

  /** `np.linspace(start, stop, num)`. */
  function Linspace(start: real, stop: real, num: nat): (r: seq<real>)
    ensures |r| == num
    ensures forall i :: 0 <= i < num ==> r[i] == LinspaceAt(start, stop, num, i)
  {
    seq(num, i requires 0 <= i < num => LinspaceAt(start, stop, num, i))
  }

  /** The grid starts at `start` and, with two points or more, ends exactly
      at `stop`. */
  lemma LinspaceEnds(start: real, stop: real, num: nat)
    ensures num >= 1 ==> Linspace(start, stop, num)[0] == start
    ensures num >= 2 ==> Linspace(start, stop, num)[num - 1] == stop
  {
    if num >= 2 {
      var d := (num - 1) as real;
      assert d * ((stop - start) / d) == stop - start;
    }
  }

  /** For `start <= stop` the grid climbs and never leaves `[start, stop]`. */
  lemma LinspaceAscending(start: real, stop: real, num: nat)
    requires start <= stop
    ensures forall i, j :: 0 <= i <= j < num ==>
      Linspace(start, stop, num)[i] <= Linspace(start, stop, num)[j]
    ensures forall i :: 0 <= i < num ==> start <= Linspace(start, stop, num)[i] <= stop
  {
    var r := Linspace(start, stop, num);
    var h := LinspaceStep(start, stop, num);
    assert h >= 0.0;
    forall i, j | 0 <= i <= j < num ensures r[i] <= r[j] {
      MulLeftMono(i as real, j as real, h);
    }
    LinspaceEnds(start, stop, num);
    forall i | 0 <= i < num ensures start <= r[i] <= stop {
      MulLeftMono(0.0, i as real, h);
      if num >= 2 {
        MulLeftMono(i as real, (num - 1) as real, h);
        assert r[num - 1] == start + ((num - 1) as real) * h;
      }
    }
  }

  /** `DataFrame.head(n)`: the first `n` rows, or for a negative `n` every
      row but the last `-n`. */
  function Head<T>(s: seq<T>, n: int): (r: seq<T>)
    ensures |r| == if n >= 0 then (if n <= |s| then n else |s|)
                   else (if |s| + n >= 0 then |s| + n else 0)
    ensures r == s[..|r|]
  {
    if n >= 0 then (if n <= |s| then s[..n] else s)
    else (if |s| + n >= 0 then s[..|s| + n] else [])
  }

  /** The rows of `s` that satisfy `p`, in their original order (a boolean
      mask applied to a frame). */
  function Filter<T(!new)>(s: seq<T>, p: T -> bool): (r: seq<T>)
    ensures |r| <= |s|
    ensures forall i :: 0 <= i < |r| ==> p(r[i])
    ensures forall x :: multiset(r)[x] == if p(x) then multiset(s)[x] else 0
  {
    if s == [] then []
    else
      var rest := Filter(s[..|s| - 1], p);
      assert s == s[..|s| - 1] + [s[|s| - 1]];
      if p(s[|s| - 1]) then rest + [s[|s| - 1]] else rest
  }

  /** A row that survives the mask passes it and comes from the input. */
  lemma FilterMember<T(!new)>(s: seq<T>, p: T -> bool, x: T)
    requires x in Filter(s, p)
    ensures p(x) && x in s
  {
    assert x in multiset(Filter(s, p));
    assert multiset(s)[x] > 0;
  }

  /** One row of a put option chain as the market-data collaborator
      delivers it; `midPrice` is the frame's own `mid_price` column when it
      has one. A missing number stands for NaN. */
  datatype PutQuote = PutQuote(
    contractSymbol: string,
    strike: real,
    lastPrice: Option<real>,
    bid: Option<real>,
    ask: Option<real>,
    volume: Option<real>,
    impliedVolatility: Option<real>,
    midPrice: Option<real>)

  /** The fixed column list `suggest_put` projects onto. */
  datatype Suggestion = Suggestion(
    contractSymbol: string,
    strike: real,
    lastPrice: Option<real>,
    bid: Option<real>,
    ask: Option<real>,
    midPrice: Option<real>,
    volume: Option<real>,
    impliedVolatility: Option<real>)

  /** One contract a user picked for the P&L simulators, with the number of
      contracts bought. */
  datatype SelectedPut = SelectedPut(contractSymbol: string, strike: real, midPrice: real, contracts: int)

  /** One point of a simulated P&L curve. */
  datatype PnlRow = PnlRow(price: real, initialCapital: real, nowCapital: real, netPnl: real)
}
