/**
 * The data provider that aggregates the vendor adapters, and its two mappers
 * from a vendor's candle response to the common candle record.
 */
module DataProvider {
  import opened Wrappers
  import opened PyDatetime
  import Finnhub
  import TDAmeritrade

  /** The common candle record; `ts` is as the vendor gives it, the three strings its renderings. */
  datatype Candle = Candle(ts: int, tsUtc: string, tsNy: string, tsZurich: string,
                           symbol: string, frequency: string,
                           open: real, high: real, close: real, volume: int)

  /** A candle whose instant is `seconds` after the epoch, rendered in UTC, New York and Zurich. */
  function MakeCandle(ts: int, seconds: real, symbol: string, frequency: string, open: real, high: real,
                      close: real, volume: int, toLocal: (Zone, real) -> LocalTime): Candle
  {
    Candle(ts, Render(toLocal, Utc, seconds), Render(toLocal, UsEastern, seconds), Render(toLocal, EuropeZurich, seconds),
           symbol, frequency, open, high, close, volume)
  }

  /** The candle for one TD Ameritrade element: `ts` in milliseconds, rendered at `datetime / 1000` seconds. */
  function FromTdAmeritrade(e: TDAmeritrade.Candle, symbol: string, frequency: string,
                            toLocal: (Zone, real) -> LocalTime): Candle
  {
    MakeCandle(e.datetime, e.datetime as real / 1000.0, symbol, frequency, e.open, e.high, e.close, e.volume, toLocal)
  }

  /** The arrays the Finnhub mapper checks: times, opens, highs, closes and volumes (not lows). */
  predicate SameLengths(response: Finnhub.Candles)
  {
    |response.t| == |response.o| == |response.h| == |response.c| == |response.v|
  }

  /** The candle for position `i` of the Finnhub arrays: `ts` in seconds, rendered as it is. */
  function FromFinnhub(response: Finnhub.Candles, i: nat, symbol: string, frequency: string,
                       toLocal: (Zone, real) -> LocalTime): Candle
    requires SameLengths(response) && i < |response.t|
  {
    MakeCandle(response.t[i], response.t[i] as real, symbol, frequency,
               response.o[i], response.h[i], response.c[i], response.v[i], toLocal)
  }

  /**
   * `map_finnhub_response`: zips the parallel arrays into candles, `t` being in
   * seconds. When the checked arrays differ in length the source's assertion
   * fails and nothing is produced: `None`.
   */
  method MapFinnhubResponse(response: Finnhub.Candles, symbol: string, frequency: string,
                            toLocal: (Zone, real) -> LocalTime)
    returns (candles: Option<seq<Candle>>)
    ensures candles.Some? <==> SameLengths(response)
    ensures candles.Some? ==>
      && |candles.value| == |response.t|
      && forall i :: 0 <= i < |response.t| ==> candles.value[i] == FromFinnhub(response, i, symbol, frequency, toLocal)
  {
    if !SameLengths(response) {
      return None;
    }
    var result: seq<Candle> := [];
    var i := 0;
    while i < |response.t|
      invariant 0 <= i <= |response.t|
      invariant |result| == i
      invariant forall j :: 0 <= j < i ==> result[j] == FromFinnhub(response, j, symbol, frequency, toLocal)
    {
      var candle := FromFinnhub(response, i, symbol, frequency, toLocal);
      result := result + [candle];
      i := i + 1;
    }
    return Some(result);
  }

  /**
   * `map_tdameritrade_response`: one candle per element, in order; `ts` stays in
   * milliseconds, and the renderings are of `datetime / 1000` seconds.
   */
  method MapTdAmeritradeResponse(response: TDAmeritrade.PriceHistory, symbol: string, frequency: string,
                                 toLocal: (Zone, real) -> LocalTime)
    returns (candles: seq<Candle>)
    ensures |candles| == |response.candles|
    ensures forall i :: 0 <= i < |response.candles| ==>
      candles[i] == FromTdAmeritrade(response.candles[i], symbol, frequency, toLocal)
  {
    candles := [];
    for i := 0 to |response.candles|
      invariant |candles| == i
      invariant forall j :: 0 <= j < i ==>
        candles[j] == FromTdAmeritrade(response.candles[j], symbol, frequency, toLocal)
    {
      var element := response.candles[i];
      var candle := FromTdAmeritrade(element, symbol, frequency, toLocal);
      candles := candles + [candle];
    }
  }

  /**
   * The same instant from both vendors, at the second: the renderings agree,
   * but the TD Ameritrade candle's `ts` is a thousand times the Finnhub one's.
   */
  lemma TimestampUnitsDiffer(seconds: int, symbol: string, frequency: string, open: real, high: real,
                             close: real, volume: int, toLocal: (Zone, real) -> LocalTime)
    ensures var finnhub := MakeCandle(seconds, seconds as real, symbol, frequency, open, high, close, volume, toLocal);
      var td := MakeCandle(1000 * seconds, (1000 * seconds) as real / 1000.0, symbol, frequency,
                           open, high, close, volume, toLocal);
      && td.tsUtc == finnhub.tsUtc && td.tsNy == finnhub.tsNy && td.tsZurich == finnhub.tsZurich
      && td.ts == 1000 * finnhub.ts
  {
    assert (1000 * seconds) as real / 1000.0 == seconds as real;
  }

  /**
   * The two epoch conversions agree for instants at or after the epoch: the
   * seconds are the milliseconds divided by 1000, rounded down.
   */
  lemma SecondsAreMillisOverThousand(dt: Datetime)
    requires dt.micros >= 0
    ensures Finnhub.SecondsSinceEpoch(dt) == TDAmeritrade.MillisSinceEpoch(dt) / 1000
  {
    var m := dt.micros;
    var q, r := m / 1000, m % 1000;
    var q2, r2 := q / 1000, q % 1000;
    assert m == q2 * 1_000_000 + (r2 * 1000 + r);
    assert m / MicrosPerSecond == q2;
  }
}
