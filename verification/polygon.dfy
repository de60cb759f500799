/**
 * The Polygon adapter: the market status of one exchange, and whether today is
 * one of its market holidays. HTTP responses are inputs, already decoded; the
 * local date of today is an input too.
 */
module Polygon {
  import opened Wrappers
  import opened PyDatetime
  import opened Http

  /** The `exchanges` object of `/v1/marketstatus/now`. */
  datatype Exchanges = Exchanges(nasdaq: string, nyse: string)

  /**
   * `polygon_get_market_status`: the status of NASDAQ or of NYSE; `None` for
   * any other exchange and for a response whose status is not 200.
   */
  function GetMarketStatus(response: Response<Exchanges>, exchange: string): (status: Option<string>)
    ensures status.Some? <==> response.status == 200 && (exchange == "NASDAQ" || exchange == "NYSE")
    ensures status.Some? && exchange == "NASDAQ" ==> status.value == response.body.nasdaq
    ensures status.Some? && exchange == "NYSE" ==> status.value == response.body.nyse
  {
    if response.status == 200 then
      if exchange == "NASDAQ" then Some(response.body.nasdaq)
      else if exchange == "NYSE" then Some(response.body.nyse)
      else None
    else None
  }

  /** One element of `/v1/marketstatus/upcoming`; either key may be missing. */
  datatype Upcoming = Upcoming(exchange: Option<string>, date: Option<string>)

  /** Whether an element names a holiday of `exchange`: it has both keys and the exchange matches. */
  predicate IsHolidayOf(element: Upcoming, exchange: string)
  {
    element.exchange.Some? && element.date.Some? && element.exchange.value == exchange
  }

  /** The dates of the holidays of `exchange`, in the order the response lists them. */
  function HolidayDates(elements: seq<Upcoming>, exchange: string): (dates: seq<string>)
    ensures |dates| <= |elements|
    ensures forall d :: d in dates <==>
      exists e :: e in elements && IsHolidayOf(e, exchange) && e.date.value == d
  {
    if elements == [] then []
    else
      var init, last := elements[..|elements| - 1], elements[|elements| - 1];
      var before := HolidayDates(init, exchange);
      assert forall e :: e in elements <==> e in init || e == last;
      if IsHolidayOf(last, exchange) then before + [last.date.value] else before
  }

  /** The loop of `polygon_market_holiday` that collects the holiday dates. */
  method CollectHolidays(elements: seq<Upcoming>, exchange: string) returns (holidays: seq<string>)
    ensures holidays == HolidayDates(elements, exchange)
  {
    holidays := [];
    var i := 0;
    while i < |elements|
      invariant 0 <= i <= |elements|
      invariant holidays == HolidayDates(elements[..i], exchange)
    {
      var element := elements[i];
      if element.exchange.Some? && element.date.Some? {
        if element.exchange.value == exchange {
          holidays := holidays + [element.date.value];
        }
      }
      assert elements[..i + 1][..i] == elements[..i];
      i := i + 1;
    }
    assert elements[..i] == elements;
  }

  /**
   * `polygon_market_holiday`: whether today's date, as `'%Y-%m-%d'`, is a listed
   * holiday of `exchange`; `false` for a response whose status is not 200.
   */
  method MarketHoliday(response: Response<seq<Upcoming>>, exchange: string, today: LocalTime)
    returns (holiday: bool)
    ensures holiday <==> (response.status == 200 &&
      exists e :: e in response.body && IsHolidayOf(e, exchange) && e.date.value == Strftime(today, DateFormat))
  {
    if response.status == 200 {
      var holidays := CollectHolidays(response.body, exchange);
      if Strftime(today, DateFormat) in holidays {
        return true;
      } else {
        return false;
      }
    } else {
      return false;
    }
  }
}
