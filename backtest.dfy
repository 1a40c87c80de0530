/**
  The RSI threshold backtest of main.py (`main`): walk the bars once,
  buying with the whole trade value when RSI drops below 30 and selling
  when it rises above 70, and compare the result with buying and holding
  from the first close to the last.

  Fetching the bars and computing RSI happen before the loop; here the bars
  arrive with their RSI already attached (`None` where it is undefined).
*/
module Backtest {
  import opened Base

  /** One row of the price table: its close and its RSI14 value. */
  datatype Bar = Bar(close: real, rsi: Option<real>)

  /** The loop's state: whether a position is open, its share count and
      the current value of the trading strategy. */
  datatype Position = Position(holding: bool, shares: real, tradeValue: real)

  datatype Action = Buy | Sell | Stay

  /** `main` returns both end values, or raises when no RSI column could be
      computed, which happens exactly for an empty price table. */
  datatype Outcome = Values(tradeValue: real, holdValue: real) | NoRsiColumn

  const BuyBelow: real := 30.0
  const SellAbove: real := 70.0

  /** Every close is a positive price. */
  predicate PositivePrices(bars: seq<Bar>)
  {
    forall i :: 0 <= i < |bars| ==> bars[i].close > 0.0
  }

  /** `buyShares(value, tickerValue)`: the shares `value` buys at that price. */
  function BuyShares(value: real, tickerValue: real): (shares: real)
    requires tickerValue != 0.0
    ensures shares * tickerValue == value
  {
    value / tickerValue
  }

  /** The position before the first bar. */
  function Initial(startCapital: real): Position
  {
    Position(false, 0.0, startCapital)
  }

  /** What the loop does on bar `b` from position `p`. */
  function Decide(p: Position, b: Bar): Action
  {
    if b.rsi.Some? && b.rsi.value < BuyBelow && !p.holding then Buy
    else if b.rsi.Some? && b.rsi.value > SellAbove && p.holding then Sell
    else Stay
  }

  /** One iteration of the loop: re-mark the open position at this bar's
      close, then buy or sell as `Decide` says. */
  function Step(p: Position, b: Bar): (q: Position)
    requires b.close > 0.0
    ensures p.holding ==> q.tradeValue == p.shares * b.close
    ensures !p.holding ==> q.tradeValue == p.tradeValue
    ensures q.holding == (Decide(p, b) == Buy || (p.holding && Decide(p, b) != Sell))
    ensures Decide(p, b) == Buy ==> q.shares * b.close == q.tradeValue
    ensures Decide(p, b) != Buy ==> q.shares == p.shares
  {
    var tradeValue := if p.holding then p.shares * b.close else p.tradeValue;
    match Decide(p, b)
    case Buy => Position(true, BuyShares(tradeValue, b.close), tradeValue)
    case Sell => Position(false, p.shares, tradeValue)
    case Stay => Position(p.holding, p.shares, tradeValue)
  }

  /** The position after the loop has seen all of `bars`. */
  function Run(p: Position, bars: seq<Bar>): Position
    requires PositivePrices(bars)
  {
    if bars == [] then p
    else Step(Run(p, bars[..|bars| - 1]), bars[|bars| - 1])
  }

  /** What the loop did on each bar. */
  function Actions(p: Position, bars: seq<Bar>): (acts: seq<Action>)
    requires PositivePrices(bars)
    ensures |acts| == |bars|
  {
    if bars == [] then []
    else Actions(p, bars[..|bars| - 1]) + [Decide(Run(p, bars[..|bars| - 1]), bars[|bars| - 1])]
  }

  /** The action on bar k is what `Decide` says from the position the loop
      reached after the first k bars. */
  lemma {:induction false} ActionsAreDecisions(p: Position, bars: seq<Bar>, k: nat)
    requires PositivePrices(bars) && k < |bars|
    ensures PositivePrices(bars[..k])
    ensures Actions(p, bars)[k] == Decide(Run(p, bars[..k]), bars[k])
  {
    var prefix := bars[..|bars| - 1];
    if k < |prefix| {
      ActionsAreDecisions(p, prefix, k);
      assert prefix[..k] == bars[..k];
      assert prefix[k] == bars[k];
    } else {
      assert prefix == bars[..k];
    }
  }

  /** The buys and sells among `acts`, in order. */
  function Trades(acts: seq<Action>): seq<Action>
  {
    if acts == [] then []
    else Trades(acts[..|acts| - 1]) + (if acts[|acts| - 1] == Stay then [] else [acts[|acts| - 1]])
  }

  /** Buys and sells alternate, beginning with a buy. */
  predicate Alternating(trades: seq<Action>)
  {
    forall i :: 0 <= i < |trades| ==> trades[i] == if i % 2 == 0 then Buy else Sell
  }

  /** The buy-and-hold value: all of `startCapital` buys at the first close
      and is valued at the last close. */
  function HoldValue(startCapital: real, bars: seq<Bar>): (v: real)
    requires |bars| > 0 && PositivePrices(bars)
    ensures v * bars[0].close == startCapital * bars[|bars| - 1].close
  {
    BuyShares(startCapital, bars[0].close) * bars[|bars| - 1].close
  }

  /** Buys and sells strictly alternate and the first trade is a buy; a
      position is open at the end exactly when the number of trades is odd. */
  lemma {:induction false} TradesAlternate(p: Position, bars: seq<Bar>)
    requires !p.holding && PositivePrices(bars)
    ensures Alternating(Trades(Actions(p, bars)))
    ensures Run(p, bars).holding <==> |Trades(Actions(p, bars))| % 2 == 1
  {
    if bars != [] {
      var prefix := bars[..|bars| - 1];
      var last := bars[|bars| - 1];
      TradesAlternate(p, prefix);
      var acts := Actions(p, prefix);
      var a := Decide(Run(p, prefix), last);
      assert Actions(p, bars) == acts + [a];
      assert (acts + [a])[..|acts + [a]| - 1] == acts;
      assert Trades(acts + [a]) == Trades(acts) + (if a == Stay then [] else [a]);
    }
  }

  /** A bar without an RSI value never causes a trade. */
  lemma MissingRsiNeverTrades(p: Position, bar: Bar)
    requires bar.rsi.None?
    ensures Decide(p, bar) == Stay
  {
  }

  /** A buy happens only below the lower threshold while flat; a sell only
      above the upper threshold while holding. */
  lemma TradeConditions(p: Position, bar: Bar)
    ensures Decide(p, bar) == Buy <==> bar.rsi.Some? && bar.rsi.value < BuyBelow && !p.holding
    ensures Decide(p, bar) == Sell <==> bar.rsi.Some? && bar.rsi.value > SellAbove && p.holding
  {
  }

  /** With positive capital and positive prices the strategy's value stays
      positive, and an open position always holds a positive share count. */
  lemma {:induction false} RunStaysPositive(p: Position, bars: seq<Bar>)
    requires PositivePrices(bars)
    requires p.tradeValue > 0.0 && (p.holding ==> p.shares > 0.0)
    ensures Run(p, bars).tradeValue > 0.0
    ensures Run(p, bars).holding ==> Run(p, bars).shares > 0.0
  {
    if bars != [] {
      var prefix := bars[..|bars| - 1];
      RunStaysPositive(p, prefix);
      var q := Run(p, prefix);
      var b := bars[|bars| - 1];
      if Decide(q, b) == Buy {
        var r := Step(q, b);
        assert r.shares * b.close == r.tradeValue;
      }
    }
  }

  /** While no position is open the strategy's value does not move. */
  lemma {:induction false} FlatValueUnchanged(p: Position, bars: seq<Bar>)
    requires PositivePrices(bars) && !p.holding
    requires forall i :: 0 <= i < |bars| ==> Decide(Run(p, bars[..i]), bars[i]) != Buy
    ensures Run(p, bars) == p
  {
    if bars != [] {
      var prefix := bars[..|bars| - 1];
      forall i | 0 <= i < |prefix|
        ensures Decide(Run(p, prefix[..i]), prefix[i]) != Buy
      {
        assert prefix[..i] == bars[..i];
      }
      FlatValueUnchanged(p, prefix);
      assert bars[..|bars| - 1] == prefix;
    }
  }

  /** `main(start, end, interval, startCapital, index)` after the price table
      has been fetched and RSI attached to it. */
  method BacktestRsi(bars: seq<Bar>, startCapital: real) returns (r: Outcome)
    requires PositivePrices(bars)
    ensures |bars| == 0 <==> r == NoRsiColumn
    ensures |bars| > 0 ==>
              r == Values(Run(Initial(startCapital), bars).tradeValue, HoldValue(startCapital, bars))
  {
    if |bars| == 0 {
      return NoRsiColumn;
    }
    var tradeValue := startCapital;
    var holdValue := startCapital;
    var shares := 0.0;
    var holding := false;
    for i := 0 to |bars|
      invariant Position(holding, shares, tradeValue) == Run(Initial(startCapital), bars[..i])
    {
      var price := bars[i].close;
      var rsi := bars[i].rsi;
      if holding {
        tradeValue := shares * price;
      }
      if rsi.Some? && rsi.value < BuyBelow && !holding {
        holding := true;
        shares := BuyShares(tradeValue, price);
      } else if rsi.Some? && rsi.value > SellAbove && holding {
        holding := false;
      }
      assert bars[..i + 1][..i] == bars[..i];
    }
    assert bars[..|bars|] == bars;
    var sharesHold := BuyShares(holdValue, bars[0].close);
    holdValue := sharesHold * bars[|bars| - 1].close;
    return Values(tradeValue, holdValue);
  }
}
