/** Volatility indicators over a bounded history of price samples: the
    average true range (over the latest periods and over any window),
    price velocity, spike detection and the volatility percentile. Every
    division uses eight significant digits, ties away from zero. */
module Volatility {
  import opened Wrappers
  import opened Decimal

  /** One sample: price, time in epoch milliseconds, and traded volume. */
  datatype PriceData = PriceData(price: real, timestamp: int, volume: real)

  /** The spike verdict and the two average true ranges it compared. */
  datatype VolatilitySpike = VolatilitySpike(isSpike: bool, shortTermVolatility: real, longTermVolatility: real)

  function Abs(x: real): real {
    if x < 0.0 then -x else x
  }

  function Min(a: int, b: int): int {
    if a <= b then a else b
  }

  function Max(a: int, b: int): int {
    if a <= b then b else a
  }

  // ---------------------------------------------------------------------
  // The bounded history

  /** The last `capacity` elements of `s` (all of `s` when it is shorter). */
  function Recent(s: seq<PriceData>, capacity: nat): (r: seq<PriceData>)
    ensures |r| == Min(|s|, capacity)
    ensures r == s[|s| - |r|..]
  {
    if |s| <= capacity then s else s[|s| - capacity..]
  }

  /** Trimming before an append and trimming after it agree: a history
      fed one sample at a time always holds the latest `capacity` samples
      of everything it was fed, newest last. */
  lemma RecentAppend(s: seq<PriceData>, x: PriceData, capacity: nat)
    ensures Recent(Recent(s, capacity) + [x], capacity) == Recent(s + [x], capacity)
    ensures capacity > 0 ==> Recent(s + [x], capacity)[Min(|s| + 1, capacity) - 1] == x
  {
  }

  // ---------------------------------------------------------------------
  // Average true range

  /** The true range at sample i: the absolute price move from sample i-1,
      counted only for 0 < i < |h| (the loop's `i > 0` guard). */
  function Move(h: seq<PriceData>, i: int): (m: real)
    ensures m >= 0.0
  {
    if 0 < i < |h| then Abs(h[i].price - h[i - 1].price) else 0.0
  }

  /** The sum of the true ranges at lo, lo+1, ..., hi-1. */
  function SumMoves(h: seq<PriceData>, lo: int, hi: int): (s: real)
    ensures s >= 0.0
    decreases hi - lo
  {
    if hi <= lo then 0.0 else SumMoves(h, lo, hi - 1) + Move(h, hi - 1)
  }

  /** The average true range over the latest `periods` moves: zero while
      the history holds no more than `periods` samples; None for zero
      periods, where the sum is divided by zero. */
  function Atr(h: seq<PriceData>, periods: int): (r: Option<real>)
    ensures r.None? <==> periods == 0 && |h| >= 1
    ensures r.Some? ==> r.value >= 0.0
    ensures |h| < periods + 1 ==> r == Some(0.0)
  {
    if |h| < periods + 1 then Some(0.0)
    else if periods == 0 then None
    else
      var sum := SumMoves(h, |h| - periods, |h|);
      Average(sum, periods);
      Some(RoundSignificant(sum / periods as real))
  }

  /** The average of all the true ranges of a window; zero for fewer than
      two samples. */
  function AtrForSubset(s: seq<PriceData>): (r: real)
    ensures r >= 0.0
    ensures |s| < 2 ==> r == 0.0
  {
    if |s| < 2 then 0.0
    else
      var sum := SumMoves(s, 1, |s|);
      Average(sum, |s| - 1);
      RoundSignificant(sum / (|s| - 1) as real)
  }

  /** A non-negative sum over a positive count has a non-negative average;
      over a negative count the sum is empty. */
  lemma Average(sum: real, count: int)
    requires sum >= 0.0 && count != 0
    requires count < 0 ==> sum == 0.0
    ensures sum / count as real >= 0.0
  {
    if count > 0 {
      Cancel(sum, count as real);
    }
  }

  lemma Fraction(part: real, whole: real)
    requires 0.0 <= part <= whole && whole > 0.0
    ensures 0.0 <= part / whole <= 1.0
  {
    Cancel(part, whole);
    Unscale(part / whole, 1.0, whole);
  }

  lemma Unscale(a: real, b: real, unit: real)
    requires unit > 0.0 && a * unit <= b * unit
    ensures a <= b
  {
  }

  // ---------------------------------------------------------------------
  // Velocity and spikes

  /** Price change per second over the latest `periods` steps: zero while
      the history is too short or when no time passed; None for negative
      periods, which index past the end of the history. */
  function Velocity(h: seq<PriceData>, periods: int): (r: Option<real>)
    ensures r.None? <==> periods < 0
    ensures |h| < periods + 1 ==> r == Some(0.0)
  {
    if |h| < periods + 1 then Some(0.0)
    else if periods < 0 then None
    else
      var current, past := h[|h| - 1], h[|h| - 1 - periods];
      var priceChange := current.price - past.price;
      var timeChange := current.timestamp - past.timestamp;
      if timeChange == 0 then Some(0.0)
      else Some(RoundSignificant(priceChange / (timeChange as real / 1000.0)))
  }

  /** Whether the short-term average true range exceeds `threshold` times
      the long-term one; None when either range divides by zero periods. */
  function Spike(h: seq<PriceData>, shortPeriod: int, longPeriod: int, threshold: real): (r: Option<VolatilitySpike>)
    ensures |h| < longPeriod ==> r == Some(VolatilitySpike(false, 0.0, 0.0))
    ensures r.None? <==> |h| >= longPeriod && (Atr(h, shortPeriod).None? || Atr(h, longPeriod).None?)
    ensures r.Some? && |h| >= longPeriod ==>
              r.value.shortTermVolatility == Atr(h, shortPeriod).value &&
              r.value.longTermVolatility == Atr(h, longPeriod).value
    ensures r.Some? && |h| >= longPeriod ==>
              (r.value.isSpike <==>
                 r.value.longTermVolatility > 0.0 &&
                 RoundSignificant(r.value.shortTermVolatility / r.value.longTermVolatility) > threshold)
    ensures r.Some? && |h| < longPeriod ==> !r.value.isSpike
  {
    if |h| < longPeriod then Some(VolatilitySpike(false, 0.0, 0.0))
    else match (Atr(h, shortPeriod), Atr(h, longPeriod))
      case (Some(shortTerm), Some(longTerm)) =>
        if longTerm == 0.0 then Some(VolatilitySpike(false, shortTerm, longTerm))
        else Some(VolatilitySpike(RoundSignificant(shortTerm / longTerm) > threshold, shortTerm, longTerm))
      case _ => None
  }

  // ---------------------------------------------------------------------
  // Percentile

  /** The average true range of the `cp` samples before sample i. */
  function WindowRange(h: seq<PriceData>, cp: int, i: int): real
    requires 0 <= cp <= i <= |h|
  {
    AtrForSubset(h[i - cp..i])
  }

  /** The positive window ranges of windows h[i-cp..i] for cp <= i < hi, in
      order of i. */
  function Kept(h: seq<PriceData>, cp: nat, hi: int): (ks: seq<real>)
    requires hi <= |h| || hi <= cp
    decreases hi
  {
    if hi <= cp then []
    else
      var atr := WindowRange(h, cp, hi - 1);
      Kept(h, cp, hi - 1) + (if atr > 0.0 then [atr] else [])
  }

  /** How many of the ranges are strictly below `current`. */
  function CountBelow(ranges: seq<real>, current: real): (n: nat)
    ensures n <= |ranges|
  {
    if ranges == [] then 0
    else CountBelow(ranges[..|ranges| - 1], current) + (if ranges[|ranges| - 1] < current then 1 else 0)
  }

  /** The share of past window ranges below the current range, as a
      percentage; zero while the history is shorter than the lookback or
      no window moved; None when a negative window length makes the first
      window's bounds cross. */
  function Percentile(h: seq<PriceData>, lookback: int, cp: int): (r: Option<real>)
    ensures |h| < lookback ==> r == Some(0.0)
    ensures |h| >= lookback && cp >= 0 &&
            (forall i :: cp <= i < Min(|h|, lookback) ==> WindowRange(h, cp, i) == 0.0) ==>
              r == Some(0.0)
    ensures r.Some? ==> 0.0 <= r.value <= 100.0
  {
    if |h| < lookback then Some(0.0)
    else
      var end := Min(|h|, lookback);
      if cp < 0 && cp < end then None
      else
        var kept := if cp < 0 then [] else (KeptEmpty(h, cp, end); Kept(h, cp, end));
        if |kept| == 0 then Some(0.0)
        else match Atr(h, cp)
          case None => None
          case Some(current) =>
            var share := CountBelow(kept, current) as real / |kept| as real;
            Fraction(CountBelow(kept, current) as real, |kept| as real);
            RoundSignificantUnitInterval(share);
            Some(RoundSignificant(share) * 100.0)
  }

  // ---------------------------------------------------------------------
  // The indicator object

  /** The sample history, oldest first, never longer than its capacity. */
  class VolatilityIndicators {
    var history: seq<PriceData>
    const maxHistorySize: nat

    constructor(maxHistorySize: nat)
      ensures this.maxHistorySize == maxHistorySize && history == []
    {
      this.maxHistorySize := maxHistorySize;
      history := [];
    }

    /** Appends a sample, then drops the oldest ones while the history is
        over capacity. */
    method AddPriceData(price: real, timestamp: int, volume: real)
      modifies this
      ensures history == Recent(old(history) + [PriceData(price, timestamp, volume)], maxHistorySize)
      ensures |history| <= maxHistorySize
    {
      history := history + [PriceData(price, timestamp, volume)];
      ghost var arrived := history;
      while |history| > maxHistorySize
        invariant |history| <= |arrived|
        invariant history == arrived[|arrived| - |history|..]
        invariant |history| >= Min(|arrived|, maxHistorySize)
        decreases |history|
      {
        history := history[1..];
      }
    }

    method CalculateAtr(periods: int) returns (r: Option<real>)
      ensures r == Atr(history, periods)
    {
      if |history| < periods + 1 {
        return Some(0.0);
      }
      var data := history;
      var atrSum := 0.0;
      var i := |data| - periods;
      while i < |data|
        invariant |data| - periods <= i
        invariant i <= |data| || i == |data| - periods
        invariant atrSum == SumMoves(data, |data| - periods, i)
      {
        if i > 0 {
          var current, previous := data[i], data[i - 1];
          var trueRange := Abs(current.price - previous.price);
          atrSum := atrSum + trueRange;
        }
        i := i + 1;
      }
      if periods == 0 {
        return None;
      }
      return Some(RoundSignificant(atrSum / periods as real));
    }

    method CalculatePriceVelocity(periods: int) returns (r: Option<real>)
      ensures r == Velocity(history, periods)
    {
      if |history| < periods + 1 {
        return Some(0.0);
      }
      var data := history;
      if periods < 0 {
        return None;
      }
      var current, past := data[|data| - 1], data[|data| - 1 - periods];
      var priceChange := current.price - past.price;
      var timeChange := current.timestamp - past.timestamp;
      if timeChange == 0 {
        return Some(0.0);
      }
      return Some(RoundSignificant(priceChange / (timeChange as real / 1000.0)));
    }

    method DetectVolatilitySpike(shortPeriod: int, longPeriod: int, threshold: real) returns (r: Option<VolatilitySpike>)
      ensures r == Spike(history, shortPeriod, longPeriod, threshold)
    {
      if |history| < longPeriod {
        return Some(VolatilitySpike(false, 0.0, 0.0));
      }
      var shortTermAtr := CalculateAtr(shortPeriod);
      var longTermAtr := CalculateAtr(longPeriod);
      if shortTermAtr.None? || longTermAtr.None? {
        return None;
      }
      if longTermAtr.value == 0.0 {
        return Some(VolatilitySpike(false, shortTermAtr.value, longTermAtr.value));
      }
      var ratio := RoundSignificant(shortTermAtr.value / longTermAtr.value);
      return Some(VolatilitySpike(ratio > threshold, shortTermAtr.value, longTermAtr.value));
    }

    method CalculateVolatilityPercentile(lookbackPeriods: int, currentPeriods: int) returns (r: Option<real>)
      ensures r == Percentile(history, lookbackPeriods, currentPeriods)
    {
      if |history| < lookbackPeriods {
        return Some(0.0);
      }
      var data := history;
      var end := Min(|data|, lookbackPeriods);
      if currentPeriods < 0 && currentPeriods < end {
        // the first window's bounds cross: subList throws
        return None;
      }
      var historicalAtrs: seq<real> := [];
      if currentPeriods >= 0 {
        historicalAtrs := WindowRanges(data, currentPeriods, end);
      }
      if |historicalAtrs| == 0 {
        return Some(0.0);
      }
      var currentAtr := CalculateAtr(currentPeriods);
      if currentAtr.None? {
        return None;
      }
      var countBelow := CountBelow(historicalAtrs, currentAtr.value);
      return Some(RoundSignificant(countBelow as real / |historicalAtrs| as real) * 100.0);
    }
  }

  /** The ranges of the windows data[i-cp..i] for cp <= i < end that moved,
      in order of i. */
  method WindowRanges(data: seq<PriceData>, cp: nat, end: int) returns (historicalAtrs: seq<real>)
    requires end <= |data|
    ensures historicalAtrs == Kept(data, cp, end)
  {
    historicalAtrs := [];
    if end <= cp {
      return;
    }
    for i := cp to end
      invariant historicalAtrs == Kept(data, cp, i)
    {
      var atr := CalculateAtrForSubset(data[i - cp..i]);
      KeptStep(data, cp, i);
      if atr > 0.0 {
        historicalAtrs := historicalAtrs + [atr];
      }
    }
  }

  /** Only windows that moved are kept, at most one per window. */
  lemma {:induction false} KeptShape(h: seq<PriceData>, cp: nat, hi: int)
    requires hi <= |h| || hi <= cp
    ensures var ks := Kept(h, cp, hi);
            && (forall k :: 0 <= k < |ks| ==> ks[k] > 0.0)
            && |ks| <= Max(hi - cp, 0)
    decreases hi
  {
    if hi > cp {
      KeptShape(h, cp, hi - 1);
    }
  }

  /** No range is kept exactly when every window is flat. */
  lemma {:induction false} KeptEmpty(h: seq<PriceData>, cp: nat, hi: int)
    requires hi <= |h| || hi <= cp
    ensures Kept(h, cp, hi) == [] <==> forall i :: cp <= i < hi ==> WindowRange(h, cp, i) == 0.0
    decreases hi
  {
    if hi > cp {
      KeptEmpty(h, cp, hi - 1);
    }
  }

  lemma KeptStep(h: seq<PriceData>, cp: nat, i: int)
    requires cp <= i < |h|
    ensures var atr := AtrForSubset(h[i - cp..i]);
            Kept(h, cp, i + 1) == Kept(h, cp, i) + (if atr > 0.0 then [atr] else [])
  {
  }

  /** The window average: sum the true ranges of the window in order and
      divide by their number. */
  method CalculateAtrForSubset(subset: seq<PriceData>) returns (r: real)
    ensures r == AtrForSubset(subset)
  {
    if |subset| < 2 {
      return 0.0;
    }
    var sum := 0.0;
    for i := 1 to |subset|
      invariant sum == SumMoves(subset, 1, i)
    {
      var trueRange := Abs(subset[i].price - subset[i - 1].price);
      sum := sum + trueRange;
    }
    return RoundSignificant(sum / (|subset| - 1) as real);
  }

  // ---------------------------------------------------------------------
  // Lemmas

  /** The moves sum to zero exactly when every move in the range is zero. */
  lemma {:induction false} SumMovesZero(h: seq<PriceData>, lo: int, hi: int)
    ensures SumMoves(h, lo, hi) == 0.0 <==> forall i :: lo <= i < hi ==> Move(h, i) == 0.0
    decreases hi - lo
  {
    if hi > lo {
      SumMovesZero(h, lo, hi - 1);
    }
  }

  /** The average true range over the latest moves is zero exactly when the
      price did not change over them. */
  lemma AtrZeroIffFlat(h: seq<PriceData>, periods: int)
    requires 1 <= periods < |h|
    ensures Atr(h, periods).Some?
    ensures Atr(h, periods).value == 0.0 <==>
              forall i :: |h| - periods <= i < |h| ==> h[i].price == h[i - 1].price
  {
    var sum := SumMoves(h, |h| - periods, |h|);
    SumMovesZero(h, |h| - periods, |h|);
    Cancel(sum, periods as real);
    if sum / periods as real == 0.0 {
      assert sum == (sum / periods as real) * periods as real;
    }
    forall i | |h| - periods <= i < |h|
      ensures Move(h, i) == 0.0 <==> h[i].price == h[i - 1].price
    {
    }
  }

  /** Shifting the history shifts the moves: a suffix's moves from index 1
      on are the history's moves from the suffix's start + 1 on. */
  lemma {:induction false} SumMovesShift(h: seq<PriceData>, k: nat, lo: int, hi: int)
    requires k <= |h| && 1 <= lo
    ensures SumMoves(h[k..], lo, hi) == SumMoves(h, lo + k, hi + k)
    decreases hi - lo
  {
    if hi > lo {
      SumMovesShift(h, k, lo, hi - 1);
      assert Move(h[k..], hi - 1) == Move(h, hi - 1 + k);
    }
  }

  /** The average true range over the latest `periods` moves is the window
      average of the latest `periods + 1` samples. */
  lemma AtrIsLatestWindow(h: seq<PriceData>, periods: int)
    requires 1 <= periods < |h|
    ensures Atr(h, periods) == Some(AtrForSubset(h[|h| - periods - 1..]))
  {
    var k := |h| - periods - 1;
    SumMovesShift(h, k, 1, periods + 1);
    assert |h[k..]| == periods + 1;
  }

  /** A spike needs a long-term range that moved, so some price changed
      within the long window. */
  lemma SpikeNeedsMovement(h: seq<PriceData>, shortPeriod: int, longPeriod: int, threshold: real)
    requires 1 <= longPeriod < |h|
    requires Spike(h, shortPeriod, longPeriod, threshold).Some?
    requires Spike(h, shortPeriod, longPeriod, threshold).value.isSpike
    ensures exists i :: |h| - longPeriod <= i < |h| && h[i].price != h[i - 1].price
  {
    AtrZeroIffFlat(h, longPeriod);
  }

  /** The velocity has the sign of the price change times the sign of the
      time change, and is zero when either is zero. */
  lemma VelocitySign(h: seq<PriceData>, periods: int)
    requires 0 <= periods < |h|
    ensures var priceChange := h[|h| - 1].price - h[|h| - 1 - periods].price;
            var timeChange := h[|h| - 1].timestamp - h[|h| - 1 - periods].timestamp;
            var v := Velocity(h, periods).value;
            && (v > 0.0 <==> (priceChange > 0.0 && timeChange > 0) || (priceChange < 0.0 && timeChange < 0))
            && (v < 0.0 <==> (priceChange > 0.0 && timeChange < 0) || (priceChange < 0.0 && timeChange > 0))
  {
    var priceChange := h[|h| - 1].price - h[|h| - 1 - periods].price;
    var timeChange := h[|h| - 1].timestamp - h[|h| - 1 - periods].timestamp;
    if timeChange != 0 {
      var seconds := timeChange as real / 1000.0;
      QuotientSigns(priceChange, seconds);
    }
  }

  lemma QuotientSigns(n: real, d: real)
    requires d != 0.0
    ensures n / d > 0.0 <==> (n > 0.0 && d > 0.0) || (n < 0.0 && d < 0.0)
    ensures n / d < 0.0 <==> (n > 0.0 && d < 0.0) || (n < 0.0 && d > 0.0)
  {
    if d > 0.0 {
      Cancel(n, d);
      assert n == (n / d) * d;
      if n / d > 0.0 { StrictScale(0.0, n / d, d); }
      if n / d < 0.0 { StrictScale(n / d, 0.0, d); }
    } else {
      Cancel(n, -d);
      assert n / d == -(n / -d);
      assert n == (n / -d) * -d;
      if n / -d > 0.0 { StrictScale(0.0, n / -d, -d); }
      if n / -d < 0.0 { StrictScale(n / -d, 0.0, -d); }
    }
  }
}
