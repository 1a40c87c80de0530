/**
  The records of trading_models.py: the two strategy parameter records and
  `TradeInstance`, the object that carries one backtest's configuration and
  the results written into it.
*/
module TradingModels {
  import opened Base

  /** Parameters of the RSI threshold strategy (strategy number 1). */
  datatype RsiTradeStrat = RsiTradeStrat(lowerBound: int, upperBound: int)
  {
    const Num: int := 1
  }

  /** Parameters of the MACD strategy (strategy number 2). `macdStrat`
      selects the rule: 1 signal-line crossing, 2 zero-line crossing,
      3 overbought/oversold levels, 4 divergence of price and MACD. */
  datatype MacdTradeStrat = MacdTradeStrat(macdStrat: int)
  {
    const Num: int := 2
  }

  /** What a backtest is configured with; `reset` never touches it. */
  datatype TradeConfig = TradeConfig(
    ticker: string, start: string, end: string, interval: string,
    startCapital: int, monthlyInvesting: int)

  /** One entry of a history: a timestamp and the value recorded at it
      (the two columns "Date" and value the plots read). */
  datatype DatedValue = DatedValue(date: string, value: real)

  /** What a backtest writes back: end values, the buy-and-hold share count
      and five histories. */
  datatype TradeResults = TradeResults(
    endValueTrade: real, endValueHold: real, sharesHold: Option<real>,
    priceDataTrade: seq<DatedValue>, priceDataHold: seq<DatedValue>, priceSeries: seq<DatedValue>,
    buyData: seq<DatedValue>, sellData: seq<DatedValue>)

  /** The results of an instance that has not run yet. */
  const NoResults := TradeResults(0.0, 0.0, None, [], [], [], [], [])

  class TradeInstance {
    // configuration, stored under both the current and the legacy names
    var start: string
    var end: string
    var startDate: string
    var endDate: string
    var ticker: string
    var index: string
    var interval: string
    var startCapital: int
    var monthlyInvesting: int

    // results
    var endValueTrade: real
    var endValueHold: real
    var sharesHold: Option<real>
    var priceDataTrade: seq<DatedValue>
    var priceDataHold: seq<DatedValue>
    var priceSeries: seq<DatedValue>
    var buyData: seq<DatedValue>
    var sellData: seq<DatedValue>

    /** The legacy attribute names always hold the same values as the
        current ones. */
    ghost predicate Valid()
      reads this
    {
      startDate == start && endDate == end && index == ticker
    }

    function Config(): TradeConfig
      reads this
    {
      TradeConfig(ticker, start, end, interval, startCapital, monthlyInvesting)
    }

    function Results(): TradeResults
      reads this
    {
      TradeResults(endValueTrade, endValueHold, sharesHold,
                   priceDataTrade, priceDataHold, priceSeries, buyData, sellData)
    }

    constructor (ticker: string, start: string, end: string, interval: string,
                 startCapital: int, monthlyInvesting: int)
      ensures Valid()
      ensures this.start == start && this.startDate == start
      ensures this.end == end && this.endDate == end
      ensures this.ticker == ticker && this.index == ticker
      ensures Config() == TradeConfig(ticker, start, end, interval, startCapital, monthlyInvesting)
      ensures Results() == NoResults
    {
      this.start := start;
      this.end := end;
      this.startDate := start;
      this.endDate := end;
      this.ticker := ticker;
      this.index := ticker;
      this.interval := interval;
      this.startCapital := startCapital;
      this.monthlyInvesting := monthlyInvesting;
      endValueTrade := 0.0;
      endValueHold := 0.0;
      sharesHold := None;
      priceDataTrade := [];
      priceDataHold := [];
      priceSeries := [];
      buyData := [];
      sellData := [];
    }

    /** The number of shares `value` buys at price `tickerValue`. */
    function BuyShares(value: real, tickerValue: real): (shares: real)
      requires tickerValue != 0.0
      ensures shares * tickerValue == value
    {
      value / tickerValue
    }

    /** Clears the five histories and zeroes the results; the configuration,
        under both of its names, stays as it was. */
    method Reset()
      modifies this
      ensures ticker == old(ticker) && start == old(start) && end == old(end) && interval == old(interval)
      ensures startCapital == old(startCapital) && monthlyInvesting == old(monthlyInvesting)
      ensures startDate == old(startDate) && endDate == old(endDate) && index == old(index)
      ensures endValueTrade == 0.0 && endValueHold == 0.0 && sharesHold == None
      ensures priceDataTrade == [] && priceDataHold == [] && priceSeries == [] && buyData == [] && sellData == []
    {
      endValueTrade, endValueHold, sharesHold := 0.0, 0.0, None;
      priceDataTrade, priceDataHold, priceSeries, buyData, sellData := [], [], [], [], [];
    }
  }

  /** After `reset` an instance holds the same configuration and results
      as a freshly constructed one; `other` is that fresh instance. */
  method ResetMatchesFresh(t: TradeInstance) returns (other: TradeInstance)
    requires t.Valid()
    modifies t
    ensures fresh(other) && other.Valid() && t.Valid()
    ensures t.Config() == old(t.Config())
    ensures other.Config() == t.Config() && other.Results() == t.Results()
  {
    t.Reset();
    other := new TradeInstance(t.ticker, t.start, t.end, t.interval, t.startCapital, t.monthlyInvesting);
  }

  /** Resetting an instance that is already reset changes nothing. */
  method ResetIsIdempotent(t: TradeInstance)
    requires t.Valid() && t.Results() == NoResults
    modifies t
    ensures t.Valid()
    ensures t.Config() == old(t.Config()) && t.Results() == old(t.Results())
    ensures t.startDate == old(t.startDate) && t.endDate == old(t.endDate) && t.index == old(t.index)
  {
    t.Reset();
  }
}
