/**
  The four MACD signal predicates of macd_functions.py. Every argument that
  may be missing on the first bar of a series is an `Option<real>`; the
  current MACD and signal values of the two crossover rules are always
  present.
*/
module MacdSignals {
  import opened Base

  /** A fresh bullish crossover: MACD was at or below the signal line on the
      previous bar and is strictly above it now. */
  function IsBullishMacdCross(macd: real, signal: real, prevMacd: Option<real>, prevSignal: Option<real>): (r: bool)
    ensures prevMacd.None? || prevSignal.None? ==> !r
    ensures prevMacd.Some? && prevSignal.Some? ==>
              (r <==> prevMacd.value <= prevSignal.value && macd > signal)
  {
    if prevMacd.None? || prevSignal.None? then false
    else prevMacd.value <= prevSignal.value && macd > signal
  }

  /** A fresh bearish crossover: MACD was at or above the signal line on the
      previous bar and is strictly below it now. */
  function IsBearishMacdCross(macd: real, signal: real, prevMacd: Option<real>, prevSignal: Option<real>): (r: bool)
    ensures prevMacd.None? || prevSignal.None? ==> !r
    ensures prevMacd.Some? && prevSignal.Some? ==>
              (r <==> prevMacd.value >= prevSignal.value && macd < signal)
  {
    if prevMacd.None? || prevSignal.None? then false
    else prevMacd.value >= prevSignal.value && macd < signal
  }

  /** MACD above zero now, and the histogram crossing up through zero on
      this bar. */
  function IsBullishMacdZeroCombo(macd: Option<real>, prevMacd: Option<real>, hist: Option<real>, prevHist: Option<real>): (r: bool)
    ensures macd.None? || prevMacd.None? || hist.None? || prevHist.None? ==> !r
    ensures r <==> macd.Some? && prevMacd.Some? && hist.Some? && prevHist.Some? &&
                   macd.value > 0.0 && prevHist.value <= 0.0 && hist.value > 0.0
  {
    if macd.None? || prevMacd.None? || hist.None? || prevHist.None? then false
    else
      var bullishTrend := macd.value > 0.0;
      var bullishHistCross := prevHist.value <= 0.0 && hist.value > 0.0;
      bullishTrend && bullishHistCross
  }

  /** MACD below zero now, and the histogram crossing down through zero on
      this bar. */
  function IsBearishMacdZeroCombo(macd: Option<real>, prevMacd: Option<real>, hist: Option<real>, prevHist: Option<real>): (r: bool)
    ensures macd.None? || prevMacd.None? || hist.None? || prevHist.None? ==> !r
    ensures r <==> macd.Some? && prevMacd.Some? && hist.Some? && prevHist.Some? &&
                   macd.value < 0.0 && prevHist.value >= 0.0 && hist.value < 0.0
  {
    if macd.None? || prevMacd.None? || hist.None? || prevHist.None? then false
    else
      var bearishTrend := macd.value < 0.0;
      var bearishHistCross := prevHist.value >= 0.0 && hist.value < 0.0;
      bearishTrend && bearishHistCross
  }

  function Negate(v: Option<real>): Option<real>
  {
    if v.Some? then Some(-v.value) else None
  }

  /** A bar is never both a bullish and a bearish crossover. */
  lemma CrossesExclusive(macd: real, signal: real, prevMacd: Option<real>, prevSignal: Option<real>)
    ensures !(IsBullishMacdCross(macd, signal, prevMacd, prevSignal) &&
              IsBearishMacdCross(macd, signal, prevMacd, prevSignal))
  {
  }

  /** The bearish crossover is the bullish one seen in the mirror: negating
      every value turns one rule into the other. */
  lemma BearishCrossIsMirroredBullish(macd: real, signal: real, prevMacd: Option<real>, prevSignal: Option<real>)
    ensures IsBearishMacdCross(macd, signal, prevMacd, prevSignal) ==
            IsBullishMacdCross(-macd, -signal, Negate(prevMacd), Negate(prevSignal))
  {
  }

  /** A bar is never both a bullish and a bearish zero-line setup. */
  lemma ZeroCombosExclusive(macd: Option<real>, prevMacd: Option<real>, hist: Option<real>, prevHist: Option<real>)
    ensures !(IsBullishMacdZeroCombo(macd, prevMacd, hist, prevHist) &&
              IsBearishMacdZeroCombo(macd, prevMacd, hist, prevHist))
  {
  }

  /** Once present, the previous MACD value does not influence either
      zero-line rule: it is only checked for presence. */
  lemma ZeroCombosIgnorePrevMacdValue(macd: Option<real>, a: real, b: real, hist: Option<real>, prevHist: Option<real>)
    ensures IsBullishMacdZeroCombo(macd, Some(a), hist, prevHist) == IsBullishMacdZeroCombo(macd, Some(b), hist, prevHist)
    ensures IsBearishMacdZeroCombo(macd, Some(a), hist, prevHist) == IsBearishMacdZeroCombo(macd, Some(b), hist, prevHist)
  {
  }

  /** The bearish zero-line setup is the bullish one seen in the mirror. */
  lemma BearishZeroComboIsMirroredBullish(macd: Option<real>, prevMacd: Option<real>, hist: Option<real>, prevHist: Option<real>)
    ensures IsBearishMacdZeroCombo(macd, prevMacd, hist, prevHist) ==
            IsBullishMacdZeroCombo(Negate(macd), Negate(prevMacd), Negate(hist), Negate(prevHist))
  {
  }
}
