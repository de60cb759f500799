/**
 * The strategy base: its default parameters, the watchlist it trades, and the
 * "is the market positive today?" signal.
 */
module Strategy {
  import opened Wrappers
  import opened PyList
  import Alpaca
  import Finnhub

  /** The fields of a quote that the signal reads. */
  datatype Quote = Quote(open: real, latestPrice: real)

  /** Exit price factors and the risk share of the portfolio per position. */
  const DefaultStopLossPct: real := 0.95
  const DefaultTakeProfitPct: real := 1.05
  const DefaultRiskPct: real := 0.1

  /** The percent change over the previous close above which the market counts as positive. */
  const DefaultMarketPositiveThresholdPct: real := 0.0

  /** SPY, DIA and QQQ track the S&P 500, the Dow Jones and the Nasdaq 100. */
  const MarketSymbols: seq<string> := ["SPY", "DIA", "QQQ"]
  const MarketSymbol: seq<string> := ["SPY"]

  /**
   * `check_change_positive_daily`, given the two numbers it fetches: positive
   * only when the change over the previous close exceeds the threshold and the
   * price has also risen above today's open.
   */
  function CheckChangePositiveDaily(changePrevDayPct: real, quote: Quote, thresholdPct: real): (positive: bool)
    ensures positive ==> changePrevDayPct > thresholdPct
    ensures positive ==> quote.latestPrice > quote.open
    ensures changePrevDayPct > thresholdPct && quote.latestPrice > quote.open ==> positive
  {
    if (changePrevDayPct > thresholdPct) && (quote.latestPrice > quote.open) then true else false
  }

  /** Both comparisons are strict, and a gain over the previous close is not enough on its own. */
  lemma SignalNeedsBothStrictRises(changePrevDayPct: real, quote: Quote, thresholdPct: real)
    ensures changePrevDayPct == thresholdPct ==> !CheckChangePositiveDaily(changePrevDayPct, quote, thresholdPct)
    ensures quote.latestPrice <= quote.open ==> !CheckChangePositiveDaily(changePrevDayPct, quote, thresholdPct)
  {
  }

  /**
   * Fed with Finnhub's change over the previous close (a positive previous
   * close), the default signal is a rise over both the previous close and the open.
   */
  lemma DefaultSignalOnFinnhubChange(finnhubQuote: Finnhub.Quote, quote: Quote)
    requires 0.0 < finnhubQuote.pc
    ensures CheckChangePositiveDaily(Finnhub.ChangePctPrevDay(finnhubQuote), quote, DefaultMarketPositiveThresholdPct)
      <==> finnhubQuote.c > finnhubQuote.pc && quote.latestPrice > quote.open
  {
  }

  class Strategy {
    var stopLossPct: real
    var takeProfitPct: real
    var riskPct: real
    var marketPositiveThresholdPct: real
    var symbolsWatchlist: seq<string>
    var symbolsMarket: seq<string>
    var symbolMarket: seq<string>
    var cash: real

    /**
     * `__init__`: `watchlist` is what the watchlist table returns for the
     * trading-enabled symbols, and `valid` stands for the broker's asset lookup.
     * `'GOOG'` is taken out of the watchlist (only `'GOOGL'` is traded); the
     * source raises `ValueError` when it is missing, so it must be there.
     */
    constructor (watchlist: seq<string>, valid: string -> bool)
      requires "GOOG" in watchlist
      ensures stopLossPct == DefaultStopLossPct && takeProfitPct == DefaultTakeProfitPct
      ensures riskPct == DefaultRiskPct && marketPositiveThresholdPct == DefaultMarketPositiveThresholdPct
      ensures Some(symbolsWatchlist) == Remove(watchlist, "GOOG")
      ensures symbolsMarket == Alpaca.CheckedSymbols(MarketSymbols, valid)
      ensures symbolMarket == Alpaca.CheckedSymbols(MarketSymbol, valid)
      ensures cash == 0.0
    {
      var market := Alpaca.CheckSymbols(MarketSymbols, valid);
      var spy := Alpaca.CheckSymbols(MarketSymbol, valid);
      stopLossPct := DefaultStopLossPct;
      takeProfitPct := DefaultTakeProfitPct;
      riskPct := DefaultRiskPct;
      marketPositiveThresholdPct := DefaultMarketPositiveThresholdPct;
      symbolsWatchlist := Remove(watchlist, "GOOG").value;
      symbolsMarket := market;
      symbolMarket := spy;
      cash := 0.0;
    }
  }
}
