/** The moving-average crossover strategy (src/botafuturo/domain/strategy/ma_crossover.py).

    `Crossover` is the decision the code takes on a full deque of slow+1 closes, slice by slice.
    `HistoryCross` is the same decision as a plain function of every close since the last reset. */
module Strategy {
  import opened Models

  datatype Periods = Periods(fast: int, slow: int) {
    predicate Valid() {
      0 < fast < slow
    }
  }

  function Sum(values: seq<real>): real {
    if values == [] then 0.0 else Sum(values[..|values| - 1]) + values[|values| - 1]
  }

  function Mean(values: seq<real>): real
    requires values != []
  {
    Sum(values) / (|values| as real)
  }

  function Compare(prevFast: real, prevSlow: real, currFast: real, currSlow: real): Option<Direction> {
    if prevFast <= prevSlow && currFast > currSlow then Some(CALL)
    else if prevFast >= prevSlow && currFast < currSlow then Some(PUT)
    else None
  }

  function Crossover(p: Periods, closes: seq<real>): Option<Direction>
    requires p.Valid() && |closes| == p.slow + 1
  {
    var n := |closes|;
    Compare(Mean(closes[n - p.fast - 1..n - 1]), Mean(closes[..n - 1]),
            Mean(closes[n - p.fast..]), Mean(closes[1..]))
  }

  /** Appending to a deque of bounded length drops from the left. */
  function Append(deque: seq<real>, x: real, maxlen: nat): seq<real> {
    var longer := deque + [x];
    if |longer| > maxlen then longer[|longer| - maxlen..] else longer
  }

  // ---------- the full-history specification ----------

  /** The simple moving average over the last `period` of the first `n` closes. */
  function SmaAt(h: seq<real>, n: nat, period: nat): real
    requires 0 < period <= n <= |h|
  {
    Mean(h[n - period..n])
  }

  /** How far the fast average stands above the slow one after `n` closes. */
  function Spread(p: Periods, h: seq<real>, n: nat): real
    requires p.Valid() && p.slow <= n <= |h|
  {
    SmaAt(h, n, p.fast) - SmaAt(h, n, p.slow)
  }

  function HistoryCross(p: Periods, h: seq<real>): Option<Direction>
    requires p.Valid()
  {
    if |h| <= p.slow then None
    else if Spread(p, h, |h| - 1) <= 0.0 < Spread(p, h, |h|) then Some(CALL)
    else if Spread(p, h, |h| - 1) >= 0.0 > Spread(p, h, |h|) then Some(PUT)
    else None
  }

  function Window(h: seq<real>, maxlen: nat): seq<real> {
    if |h| <= maxlen then h else h[|h| - maxlen..]
  }

  lemma AppendSlidesWindow(h: seq<real>, x: real, maxlen: nat)
    requires maxlen > 0
    ensures Append(Window(h, maxlen), x, maxlen) == Window(h + [x], maxlen)
  {
  }

  lemma CompareIsSignOfSpread(p: Periods, h: seq<real>)
    requires p.Valid() && |h| > p.slow
    ensures var n := |h|;
            HistoryCross(p, h) == Compare(SmaAt(h, n - 1, p.fast), SmaAt(h, n - 1, p.slow),
                                          SmaAt(h, n, p.fast), SmaAt(h, n, p.slow))
  {
  }

  lemma WindowSlices(p: Periods, h: seq<real>)
    requires p.Valid() && |h| > p.slow
    ensures var w, n := Window(h, p.slow + 1), |h|;
            && |w| == p.slow + 1
            && w[|w| - p.fast - 1..|w| - 1] == h[n - 1 - p.fast..n - 1]
            && w[..|w| - 1] == h[n - 1 - p.slow..n - 1]
            && w[|w| - p.fast..] == h[n - p.fast..n]
            && w[1..] == h[n - p.slow..n]
  {
  }

  lemma {:induction false} CrossoverOfWindow(p: Periods, h: seq<real>)
    requires p.Valid() && |h| > p.slow
    ensures |Window(h, p.slow + 1)| == p.slow + 1
    ensures var n := |h|;
            Crossover(p, Window(h, p.slow + 1))
            == Compare(SmaAt(h, n - 1, p.fast), SmaAt(h, n - 1, p.slow),
                       SmaAt(h, n, p.fast), SmaAt(h, n, p.slow))
  {
    hide Mean, Window, Compare;
    WindowSlices(p, h);
  }

  /** The bounded deque is enough: its decision is the decision on the whole history. */
  lemma WindowRefinesHistory(p: Periods, h: seq<real>)
    requires p.Valid()
    ensures |Window(h, p.slow + 1)| <= p.slow + 1
    ensures HistoryCross(p, h) == if |Window(h, p.slow + 1)| < p.slow + 1 then None
                                  else Crossover(p, Window(h, p.slow + 1))
  {
    if |h| > p.slow {
      hide SmaAt, Crossover;
      CrossoverOfWindow(p, h);
      CompareIsSignOfSpread(p, h);
    }
  }

  // ---------- the decision in sums ----------

  lemma {:induction false} SumConcat(a: seq<real>, b: seq<real>)
    ensures Sum(a + b) == Sum(a) + Sum(b)
  {
    if b == [] {
      assert a + b == a;
    } else {
      var n := |b| - 1;
      SumConcat(a, b[..n]);
      assert (a + b)[..|a + b| - 1] == a + b[..n];
    }
  }

  /** The mean is what spreads the sum evenly. */
  lemma MeanSpreadsSum(values: seq<real>)
    requires values != []
    ensures Mean(values) * |values| as real == Sum(values)
  {
    hide Sum;
    var n := |values| as real;
    assert Mean(values) == Sum(values) / n;
  }

  /** Every value counts in a sum, and counts alike. */
  lemma EveryValueCounts(a: seq<real>, x: real, b: seq<real>)
    ensures Sum(a + [x] + b) == Sum(a) + x + Sum(b)
  {
    SumConcat(a + [x], b);
    SumConcat(a, [x]);
    assert [x][..0] == [];
  }

  lemma MeansCompareAsSums(a: seq<real>, b: seq<real>)
    requires a != [] && b != []
    ensures Mean(a) > Mean(b) <==> Sum(a) * |b| as real > Sum(b) * |a| as real
    ensures Mean(a) < Mean(b) <==> Sum(a) * |b| as real < Sum(b) * |a| as real
  {
    hide Mean, Sum;
    MeanSpreadsSum(a);
    MeanSpreadsSum(b);
    ProductsCompare(Mean(a), Mean(b), |a| as real, |b| as real);
  }

  lemma ProductsCompare(x: real, y: real, m: real, n: real)
    requires m > 0.0 && n > 0.0
    ensures x > y <==> (x * m) * n > (y * n) * m
    ensures x < y <==> (x * m) * n < (y * n) * m
  {
    var mn := m * n;
    assert mn > 0.0;
    assert (x * m) * n == x * mn && (y * n) * m == y * mn;
    assert x > y ==> x * mn > y * mn;
    assert x < y ==> x * mn < y * mn;
  }

  /** The sum of the last `period` of the first `n` values. */
  function SumOfLast(h: seq<real>, n: nat, period: nat): real
    requires period <= n <= |h|
  {
    Sum(h[n - period..n])
  }

  /** The last fast and the last slow closes, summed up to the bar before and up to this one, and compared
      crosswise, cross in the direction `d`. */
  predicate CrossesInSums(p: Periods, h: seq<real>, d: Direction)
    requires p.Valid()
  {
    && |h| > p.slow
    && var n, fast, slow := |h|, p.fast as real, p.slow as real;
       if d == CALL then
         && SumOfLast(h, n - 1, p.fast) * slow <= SumOfLast(h, n - 1, p.slow) * fast
         && SumOfLast(h, n, p.fast) * slow > SumOfLast(h, n, p.slow) * fast
       else
         && SumOfLast(h, n - 1, p.fast) * slow >= SumOfLast(h, n - 1, p.slow) * fast
         && SumOfLast(h, n, p.fast) * slow < SumOfLast(h, n, p.slow) * fast
  }

  /** The decision without a mean or a spread. */
  lemma SignalInSums(p: Periods, h: seq<real>, d: Direction)
    requires p.Valid()
    ensures HistoryCross(p, h) == Some(d) <==> CrossesInSums(p, h, d)
  {
    if |h| > p.slow {
      SpreadInSums(p, h, |h| - 1);
      SpreadInSums(p, h, |h|);
      hide Spread, SumOfLast;
    }
  }

  lemma SpreadInSums(p: Periods, h: seq<real>, n: nat)
    requires p.Valid() && p.slow <= n <= |h|
    ensures Spread(p, h, n) > 0.0 <==>
              SumOfLast(h, n, p.fast) * p.slow as real > SumOfLast(h, n, p.slow) * p.fast as real
    ensures Spread(p, h, n) < 0.0 <==>
              SumOfLast(h, n, p.fast) * p.slow as real < SumOfLast(h, n, p.slow) * p.fast as real
  {
    hide Mean, Sum;
    MeansCompareAsSums(h[n - p.fast..n], h[n - p.slow..n]);
  }

  /** A signal names the instrument and the time of the candle it comes from. */
  lemma SignalNamesItsCandle(p: Periods, h: seq<real>, c: Candle)
    requires p.Valid()
    ensures SignalFor(p, h, c).Some? <==> HistoryCross(p, h).Some?
    ensures SignalFor(p, h, c).Some? ==>
              SignalFor(p, h, c).value == Signal(c.asset, HistoryCross(p, h).value, c.openTime, "ma_crossover")
  {
    hide HistoryCross;
  }

  class MovingAverageCrossoverStrategy {
    const periods: Periods
    var closes: seq<real>
    ghost var history: seq<real>  // every close since the last reset

    ghost predicate Valid()
      reads this
    {
      periods.Valid() && closes == Window(history, periods.slow + 1)
    }

    constructor Checked(periods: Periods)
      requires periods.Valid()
      ensures Valid() && this.periods == periods && history == []
    {
      this.periods := periods;
      closes, history := [], [];
    }

    /** `__init__` with its two range checks. */
    static method Create(fastPeriod: int, slowPeriod: int)
      returns (r: Result<MovingAverageCrossoverStrategy, Error>)
      ensures r.Ok? <==> 0 < fastPeriod < slowPeriod
      ensures r.Ok? ==> fresh(r.value) && r.value.Valid() && r.value.history == []
                        && r.value.periods == Periods(fastPeriod, slowPeriod)
      ensures r.Err? ==> r.error == BadPeriods
    {
      if fastPeriod <= 0 || slowPeriod <= 0 {
        return Err(BadPeriods);
      }
      if fastPeriod >= slowPeriod {
        return Err(BadPeriods);
      }
      var s := new MovingAverageCrossoverStrategy.Checked(Periods(fastPeriod, slowPeriod));
      return Ok(s);
    }

    function WarmupBars(): int {
      periods.slow + 1
    }

    method OnCandle(candle: Candle) returns (signal: Option<Signal>)
      requires Valid()
      modifies this
      ensures Valid() && history == old(history) + [candle.close]
      ensures signal == SignalFor(periods, history, candle)
    {
      hide Mean, HistoryCross, Window, Append;
      WindowRefinesHistory(periods, history + [candle.close]);
      AppendSlidesWindow(history, candle.close, periods.slow + 1);
      closes := Append(closes, candle.close, periods.slow + 1);
      history := history + [candle.close];
      if |closes| < WarmupBars() {
        return None;
      }
      var currFast := Mean(closes[|closes| - periods.fast..]);
      var currSlow := Mean(closes[1..]);
      var prevFast := Mean(closes[|closes| - periods.fast - 1..|closes| - 1]);
      var prevSlow := Mean(closes[..|closes| - 1]);
      var direction: Direction;
      if prevFast <= prevSlow && currFast > currSlow {
        direction := CALL;
      } else if prevFast >= prevSlow && currFast < currSlow {
        direction := PUT;
      } else {
        return None;
      }
      return Some(Signal(candle.asset, direction, candle.openTime, "ma_crossover"));
    }

    method Reset()
      requires Valid()
      modifies this
      ensures Valid() && history == []
    {
      closes := [];
      history := [];
    }
  }

  function SignalFor(p: Periods, history: seq<real>, candle: Candle): Option<Signal>
    requires p.Valid()
  {
    match HistoryCross(p, history)
    case None => None
    case Some(d) => Some(Signal(candle.asset, d, candle.openTime, "ma_crossover"))
  }

  // ---------- a discrete intermediate-value law ----------

  /** The fast average is strictly on the side that signal `d` announces. */
  predicate OnSide(d: Direction, spread: real) {
    if d == CALL then spread > 0.0 else spread < 0.0
  }

  /** Bar `k` ends a stretch opened by signal `d`: the averages touch exactly or cross back. */
  ghost predicate Stops(p: Periods, h: seq<real>, k: nat, d: Direction)
    requires p.Valid()
  {
    && p.slow <= k <= |h|
    && (Spread(p, h, k) == 0.0 || HistoryCross(p, h[..k]) == Some(Flip(d)))
  }

  /** The spread cannot leave a side without stopping on a bar in between. */
  lemma {:induction false} MustTouchOrCross(p: Periods, h: seq<real>, i: nat, j: nat, d: Direction)
    requires p.Valid() && p.slow < i < j <= |h|
    requires OnSide(d, Spread(p, h, i)) && !OnSide(d, Spread(p, h, j))
    ensures exists k :: i < k <= j && Stops(p, h, k, d)
    decreases j - i
  {
    var k := i + 1;
    if OnSide(d, Spread(p, h, k)) {
      MustTouchOrCross(p, h, k, j, d);
    } else {
      SpreadOfPrefix(p, h, k, k);
      SpreadOfPrefix(p, h, k, i);
      assert Stops(p, h, k, d);
    }
  }

  lemma SpreadOfPrefix(p: Periods, h: seq<real>, k: nat, n: nat)
    requires p.Valid() && p.slow <= n <= k <= |h|
    ensures Spread(p, h[..k], n) == Spread(p, h, n)
  {
    assert h[..k][n - p.fast..n] == h[n - p.fast..n];
    assert h[..k][n - p.slow..n] == h[n - p.slow..n];
  }

  /** Between two equal signals with no reset there is the opposite signal or an exact touch. */
  lemma SignalsAlternate(p: Periods, h: seq<real>, i: nat, j: nat, d: Direction)
    requires p.Valid() && i < j <= |h|
    requires HistoryCross(p, h[..i]) == HistoryCross(p, h[..j]) == Some(d)
    ensures exists k :: p.slow < i < k < j && Stops(p, h, k, d)
  {
    SpreadOfPrefix(p, h, i, i);
    SpreadOfPrefix(p, h, j, j - 1);
    MustTouchOrCross(p, h, i, j - 1, d);
  }

  // ---------- reflection ----------

  /** Every price reflected about `axis`. */
  function Reflect(axis: real, values: seq<real>): (r: seq<real>)
    ensures |r| == |values|
  {
    seq(|values|, i requires 0 <= i < |values| => 2.0 * axis - values[i])
  }

  lemma {:induction false} SumReflects(axis: real, values: seq<real>)
    ensures Sum(Reflect(axis, values)) == 2.0 * axis * (|values| as real) - Sum(values)
  {
    if values != [] {
      var n := |values| - 1;
      assert Reflect(axis, values)[..n] == Reflect(axis, values[..n]);
      SumReflects(axis, values[..n]);
      assert |values| as real == n as real + 1.0;
    }
  }

  lemma MeanReflects(axis: real, values: seq<real>)
    requires values != []
    ensures Mean(Reflect(axis, values)) == 2.0 * axis - Mean(values)
  {
    SumReflects(axis, values);
    var n := |values| as real;
    assert (2.0 * axis * n - Sum(values)) / n == 2.0 * axis - Sum(values) / n;
  }

  lemma SpreadReflects(p: Periods, axis: real, h: seq<real>, n: nat)
    requires p.Valid() && p.slow <= n <= |h|
    ensures Spread(p, Reflect(axis, h), n) == -Spread(p, h, n)
  {
    assert Reflect(axis, h)[n - p.fast..n] == Reflect(axis, h[n - p.fast..n]);
    assert Reflect(axis, h)[n - p.slow..n] == Reflect(axis, h[n - p.slow..n]);
    MeanReflects(axis, h[n - p.fast..n]);
    MeanReflects(axis, h[n - p.slow..n]);
  }

  function FlipSignal(d: Option<Direction>): Option<Direction> {
    match d
    case None => None
    case Some(d) => Some(Flip(d))
  }

  /** Reflecting every close flips every signal. */
  lemma SignalReflects(p: Periods, axis: real, h: seq<real>)
    requires p.Valid()
    ensures HistoryCross(p, Reflect(axis, h)) == FlipSignal(HistoryCross(p, h))
  {
    if |h| > p.slow {
      SpreadReflects(p, axis, h, |h|);
      SpreadReflects(p, axis, h, |h| - 1);
    }
  }
}
