/**
 * The broker base class: the interface the strategies call, and the waiting
 * rule that holds trading back until some minutes after the market opens.
 */
module Broker {
  import opened Wrappers
  import opened PyDatetime

  /** One call `broker.order_asset(symbol=..., qty=..., side=...)` as the strategies issue it. */
  datatype OrderCall = OrderCall(symbol: string, qty: int, side: string)

  /** The broker's clock: whether the market is open now, the current time and the next open. */
  datatype Clock = Clock(isOpen: bool, timestamp: Datetime, nextOpen: Datetime)

  /** Minutes to wait after the open before trading (09:30 + 90 minutes = 11:00 New York time). */
  const DefaultTimeDelayMin: int := 90

  /** The time left until the next open plus the extra delay. */
  function TimeToWait(clock: Clock, timeDelayMin: int): Timedelta
  {
    Add(Sub(clock.nextOpen, clock.timestamp), Minutes(timeDelayMin))
  }

  /**
   * `wait_to_trade`: how many seconds it sleeps, or `None` when the market is
   * already open and it returns at once. The sleep itself is left to the caller.
   */
  function WaitToTrade(clock: Clock, timeDelayMin: int): (sleepSeconds: Option<int>)
    ensures clock.isOpen <==> sleepSeconds.None?
    ensures sleepSeconds.Some? ==>
      var wait := TotalSeconds(TimeToWait(clock, timeDelayMin));
      // always sleeps strictly past the computed wait ...
      && wait < sleepSeconds.value as real
      // ... and, for a wait that lies ahead, by at most one second more
      && (0.0 <= wait ==> sleepSeconds.value as real <= wait + 1.0)
  {
    if clock.isOpen then None
    else Some(Trunc(TotalSeconds(TimeToWait(clock, timeDelayMin))) + 1)
  }

  /**
   * With the default delay, a closed market means sleeping until at least
   * 90 minutes after the next open.
   */
  lemma DefaultWaitReachesElevenOClock(clock: Clock)
    requires !clock.isOpen
    ensures var s := WaitToTrade(clock, DefaultTimeDelayMin);
      s.Some? &&
      clock.timestamp.micros + s.value * MicrosPerSecond > clock.nextOpen.micros + 90 * 60 * MicrosPerSecond
  {
    var s := WaitToTrade(clock, DefaultTimeDelayMin).value;
    var w := TimeToWait(clock, DefaultTimeDelayMin);
    assert w.micros == clock.nextOpen.micros - clock.timestamp.micros + 90 * 60 * MicrosPerSecond;
    assert TotalSeconds(w) < s as real;
    assert w.micros as real < s as real * 1_000_000.0;
  }
}
