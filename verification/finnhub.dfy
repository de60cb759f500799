/**
 * The Finnhub adapter: what it does to the responses of the Finnhub client and
 * websocket. Each response is an input; `toLocal` converts an instant to the
 * wall-clock fields of a zone (see `PyDatetime`).
 */
module Finnhub {
  import opened Wrappers
  import opened PyDatetime

  /**
   * `finnhub_seconds_since_epoch`: whole seconds since the epoch, truncated
   * toward zero (the doc-comment's "milliseconds" notwithstanding).
   */
  function SecondsSinceEpoch(dt: Datetime): (seconds: int)
    ensures dt.micros >= 0 ==> seconds == dt.micros / MicrosPerSecond
    ensures dt.micros < 0 ==> seconds == -((-dt.micros) / MicrosPerSecond)
    ensures dt == Epoch ==> seconds == 0
  {
    TruncOfQuotient(dt.micros, MicrosPerSecond);
    Trunc(TotalSeconds(Sub(dt, Epoch)))
  }

  // ---------------------------------------------------------------------------
  // Last trade over the websocket

  /** One trade of a websocket `trade` message; `t` is in milliseconds. */
  datatype Trade = Trade(p: real, s: string, t: int, v: real)

  /** The first message received after subscribing; `kind` is its `type`, absent or not. */
  datatype WsMessage = WsMessage(kind: Option<string>, data: seq<Trade>)

  /** The trade `finnhub_get_last_trade` returns: `t` now in seconds, plus its rendering. */
  datatype LastTrade = LastTrade(p: real, s: string, t: real, v: real, datetimeUtc: string)

  /**
   * `finnhub_get_last_trade`: the first trade of a `trade` message with its time
   * converted from milliseconds to seconds and rendered by `fromtimestamp` in
   * the system's zone; `None` for any other message. A `trade` message without
   * trades makes the source fail on `data[0]`.
   */
  function GetLastTrade(message: WsMessage, toLocal: (Zone, real) -> LocalTime): (trade: Option<LastTrade>)
    requires message.kind == Some("trade") ==> 1 <= |message.data|
    ensures trade.Some? <==> message.kind == Some("trade")
    ensures trade.Some? ==>
      var raw := message.data[0];
      && trade.value.p == raw.p && trade.value.s == raw.s && trade.value.v == raw.v
      && trade.value.t * 1000.0 == raw.t as real
      && trade.value.datetimeUtc == Render(toLocal, SystemLocal, trade.value.t)
  {
    if message.kind.Some? && message.kind.value == "trade" then
      var raw := message.data[0];
      var seconds := raw.t as real / 1000.0;
      Some(LastTrade(raw.p, raw.s, seconds, raw.v, Render(toLocal, SystemLocal, seconds)))
    else None
  }

  // ---------------------------------------------------------------------------
  // Quote, candles, change over the previous close

  /** `quote(symbol)`: open, high, low, current, previous close, and a UNIX time in seconds. */
  datatype Quote = Quote(o: real, h: real, l: real, c: real, pc: real, t: int)

  /** A quote with the `datetime_utc` key added. */
  datatype QuoteWithTime = QuoteWithTime(quote: Quote, datetimeUtc: string)

  /** `finnhub_get_quote`: the quote unchanged, plus its time rendered in the system's zone. */
  function GetQuote(quote: Quote, toLocal: (Zone, real) -> LocalTime): (r: QuoteWithTime)
    ensures r.quote == quote
    ensures r.datetimeUtc == Render(toLocal, SystemLocal, quote.t as real)
  {
    QuoteWithTime(quote, Render(toLocal, SystemLocal, quote.t as real))
  }

  /** `stock_candles(...)`: parallel arrays, one element per candle, and a status. */
  datatype Candles = Candles(t: seq<int>, o: seq<real>, h: seq<real>, l: seq<real>,
                             c: seq<real>, v: seq<int>, s: string)

  /** `finnhub_get_stock_candles`: the response when its status is `'ok'`, `None` otherwise. */
  function GetStockCandles(response: Candles): (candles: Option<Candles>)
    ensures candles.Some? <==> response.s == "ok"
    ensures candles.Some? ==> candles.value == response
  {
    if response.s != "no_data" && response.s == "ok" then Some(response) else None
  }

  /**
   * `finnhub_get_change_pct_prev_day`: the percent change of the current price
   * over the previous close. A zero previous close makes the source divide by zero.
   */
  function ChangePctPrevDay(quote: Quote): (pct: real)
    requires quote.pc != 0.0
    ensures pct * quote.pc == (quote.c - quote.pc) * 100.0
    ensures pct == 0.0 <==> quote.c == quote.pc
    ensures 0.0 < quote.pc ==> (0.0 < pct <==> quote.pc < quote.c)
    ensures 0.0 < quote.pc ==> (pct < 0.0 <==> quote.c < quote.pc)
  {
    var pct := (-1.0 + quote.c / quote.pc) * 100.0;
    ChangeSign(quote.c, quote.pc, pct);
    pct
  }

  lemma ChangeSign(c: real, pc: real, pct: real)
    requires pc != 0.0 && pct == (-1.0 + c / pc) * 100.0
    ensures pct * pc == (c - pc) * 100.0
    ensures pct == 0.0 <==> c == pc
    ensures 0.0 < pc ==> (0.0 < pct <==> pc < c)
    ensures 0.0 < pc ==> (pct < 0.0 <==> c < pc)
  {
    var q := c / pc;
    assert q * pc == c;
    assert pct * pc == (q * pc - pc) * 100.0;
    if 0.0 < pc {
      assert 0.0 < pct <==> 1.0 < q;
      assert 1.0 < q <==> pc < c by {
        if 1.0 < q {
          assert q * pc - pc == (q - 1.0) * pc;
        }
        if pc < c {
          assert (q - 1.0) * pc == c - pc;
        }
      }
      assert q < 1.0 <==> c < pc by {
        if q < 1.0 {
          assert pc - q * pc == (1.0 - q) * pc;
        }
        if c < pc {
          assert (1.0 - q) * pc == pc - c;
        }
      }
    }
  }
}
