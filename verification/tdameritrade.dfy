/**
 * The TD Ameritrade adapter: epoch milliseconds, the gate on the client's
 * price history, and the enrichment of every candle of the raw price history
 * with its New York and Zurich date and time. HTTP responses are inputs.
 */
module TDAmeritrade {
  import opened Wrappers
  import opened PyDatetime
  import opened Http

  /**
   * `tdameritrade_millis_since_epoch`: whole milliseconds since the epoch,
   * truncated toward zero.
   */
  function MillisSinceEpoch(dt: Datetime): (millis: int)
    ensures dt.micros >= 0 ==> millis == dt.micros / 1000
    ensures dt.micros < 0 ==> millis == -((-dt.micros) / 1000)
    ensures dt == Epoch ==> millis == 0
  {
    var seconds := TotalSeconds(Sub(dt, Epoch));
    assert seconds * 1000.0 == dt.micros as real / 1000 as real;
    TruncOfQuotient(dt.micros, 1000);
    Trunc(seconds * 1000.0)
  }

  /** The three keys the enrichment adds for one zone: timestamp, day and time. */
  datatype ZoneTimes = ZoneTimes(timestamp: string, day: string, time: string)

  /** The keys added for New York (`timestamp`, `day`, `time`) and for Zurich (the `_zurich` keys). */
  datatype CandleTimes = CandleTimes(newYork: ZoneTimes, zurich: ZoneTimes)

  /** One element of `candles`; `datetime` is in milliseconds, `times` the keys added, if any. */
  datatype Candle = Candle(open: real, high: real, low: real, close: real, volume: int, datetime: int,
                           times: Option<CandleTimes>)

  /** The decoded price-history body. */
  datatype PriceHistory = PriceHistory(candles: seq<Candle>, empty: bool, symbol: string)

  /**
   * `tdameritrade_client_get_price_history`: the body, unless the status is an
   * HTTP error or the body says it is empty; `None` in both of those cases.
   */
  function ClientGetPriceHistory(response: Response<PriceHistory>): (content: Option<PriceHistory>)
    ensures content.Some? <==> !RaisesForStatus(response.status) && !response.body.empty
    ensures content.Some? ==> content.value == response.body
  {
    if RaisesForStatus(response.status) then None
    else if response.body.empty then None
    else Some(response.body)
  }

  /** The three renderings of one local time; the timestamp is the day, a space and the time. */
  function TimesOf(t: LocalTime): (times: ZoneTimes)
    ensures times.timestamp == Strftime(t, DateTimeFormat)
    ensures times.timestamp == times.day + " " + times.time
  {
    DateTimeIsDateSpaceTime(t);
    ZoneTimes(Strftime(t, DateTimeFormat), Strftime(t, DateFormat), Strftime(t, TimeFormat))
  }

  /**
   * The keys the loop adds to one candle, from the instant `datetime / 1000`
   * seconds after the epoch; all other fields stay as they are.
   */
  function Enrich(candle: Candle, toLocal: (Zone, real) -> LocalTime): (enriched: Candle)
    ensures enriched.(times := candle.times) == candle
    ensures enriched.times.Some?
    ensures var seconds := candle.datetime as real / 1000.0;
      && enriched.times.value.newYork.timestamp == Render(toLocal, UsEastern, seconds)
      && enriched.times.value.zurich.timestamp == Render(toLocal, EuropeZurich, seconds)
  {
    var seconds := candle.datetime as real / 1000.0;
    candle.(times := Some(CandleTimes(TimesOf(toLocal(UsEastern, seconds)), TimesOf(toLocal(EuropeZurich, seconds)))))
  }

  /**
   * `tdameritrade_get_price_history`, given the response of the GET request:
   * `None` on an HTTP error; otherwise the body with every candle enriched in
   * place. An empty body only draws a warning and is enriched like any other.
   */
  method GetPriceHistory(response: Response<PriceHistory>, toLocal: (Zone, real) -> LocalTime)
    returns (content: Option<PriceHistory>)
    ensures content.Some? <==> !RaisesForStatus(response.status)
    ensures content.Some? ==>
      && content.value.empty == response.body.empty
      && content.value.symbol == response.body.symbol
      && |content.value.candles| == |response.body.candles|
      && forall i :: 0 <= i < |response.body.candles| ==>
           content.value.candles[i] == Enrich(response.body.candles[i], toLocal)
  {
    if RaisesForStatus(response.status) {
      return None;
    }
    var candles := response.body.candles;
    var i := 0;
    while i < |candles|
      invariant 0 <= i <= |candles| == |response.body.candles|
      invariant forall j :: 0 <= j < i ==> candles[j] == Enrich(response.body.candles[j], toLocal)
      invariant forall j :: i <= j < |candles| ==> candles[j] == response.body.candles[j]
    {
      candles := candles[i := Enrich(candles[i], toLocal)];
      i := i + 1;
    }
    content := Some(response.body.(candles := candles));
  }
}
