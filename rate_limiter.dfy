/** lib/rate-limiter.ts: an in-memory limiter that keeps successive calls to
    a service at least `minInterval` milliseconds apart. It remembers the
    clock reading taken after its last wait; a call that comes too soon sleeps
    for the rest of the interval. One sequential caller is modelled. */
module RateLimiting {

  /** The wall clock as the limiter sees it: `Date.now()` reads `millis`, and
      a timer set for `ms` milliseconds resumes no earlier than `ms` later. */
  class Clock {
    var millis: int

    constructor (start: int)
      ensures millis == start
    {
      millis := start;
    }

    /** `await new Promise((resolve) => setTimeout(resolve, ms))`: resumes at
        the first whole millisecond at least `ms` later. */
    method Sleep(ms: real)
      modifies this
      ensures millis >= old(millis)
      ensures millis as real >= old(millis) as real + ms
    {
      if ms > 0.0 {
        var whole := ms.Floor;
        millis := millis + if whole as real < ms then whole + 1 else whole;
      }
    }

    /** Time that passes outside the limiter, between two of its calls. */
    method Advance(d: nat)
      modifies this
      ensures millis == old(millis) + d
    {
      millis := millis + d;
    }
  }

  /** How long a call made at time `now` has to wait: nothing once
      `minInterval` has passed since `lastRequestTime`, otherwise exactly the
      rest of the interval, so that it resumes at `lastRequestTime + minInterval`. */
  function WaitTime(lastRequestTime: int, minInterval: real, now: int): (w: real)
    ensures w >= 0.0
    ensures w == 0.0 <==> (now - lastRequestTime) as real >= minInterval
    ensures w > 0.0 ==> now as real + w == lastRequestTime as real + minInterval
  {
    var sinceLast := (now - lastRequestTime) as real;
    if sinceLast < minInterval then minInterval - sinceLast else 0.0
  }

  /** After `reset` (or on a fresh limiter) the next call waits exactly when
      the clock itself reads less than `minInterval`. */
  lemma ResetWaitsOnlyEarly(minInterval: real, now: int)
    ensures WaitTime(0, minInterval, now) > 0.0 <==> (now as real) < minInterval
  {
  }

  class RateLimiter {
    var lastRequestTime: int
    var minInterval: real

    /** `new RateLimiter(requestsPerSecond)`; a rate of zero would make the
        interval infinite. */
    constructor (requestsPerSecond: real)
      requires requestsPerSecond != 0.0
      ensures lastRequestTime == 0
      ensures minInterval == 1000.0 / requestsPerSecond
    {
      lastRequestTime := 0;
      minInterval := 1000.0 / requestsPerSecond;
    }

    /** `waitIfNeeded`: sleeps for `WaitTime` and records the clock reading
        taken afterwards. Any two recorded readings are at least
        `minInterval` apart; nothing but `lastRequestTime` (and the clock)
        changes. */
    method WaitIfNeeded(clock: Clock) returns (waited: real)
      modifies this`lastRequestTime, clock
      ensures waited == WaitTime(old(lastRequestTime), minInterval, old(clock.millis))
      ensures clock.millis as real >= old(clock.millis) as real + waited
      ensures lastRequestTime == clock.millis
      ensures lastRequestTime as real >= old(lastRequestTime) as real + minInterval
    {
      var now := clock.millis;
      var sinceLast := now - lastRequestTime;
      if (sinceLast as real) < minInterval {
        waited := minInterval - sinceLast as real;
        clock.Sleep(waited);
      } else {
        waited := 0.0;
      }
      lastRequestTime := clock.millis;
    }

    /** `reset`: back to the initial state. */
    method Reset()
      modifies this`lastRequestTime
      ensures lastRequestTime == 0
    {
      lastRequestTime := 0;
    }
  }

  /** `createRateLimiter(requestsPerSecond = 1)`: a new limiter with its own state. */
  method CreateRateLimiter(requestsPerSecond: real) returns (limiter: RateLimiter)
    requires requestsPerSecond != 0.0
    ensures fresh(limiter)
    ensures limiter.lastRequestTime == 0 && limiter.minInterval == 1000.0 / requestsPerSecond
  {
    limiter := new RateLimiter(requestsPerSecond);
  }

  /** The rate of the limiter shared by all Semantic Scholar calls. */
  const SemanticScholarRequestsPerSecond: real := 1.0

  /** The shared limiter: one request per second, that is 1000 ms apart. */
  method NewSemanticScholarRateLimiter() returns (limiter: RateLimiter)
    ensures fresh(limiter)
    ensures limiter.lastRequestTime == 0 && limiter.minInterval == 1000.0
  {
    limiter := new RateLimiter(SemanticScholarRequestsPerSecond);
  }

  /** Two consecutive calls on a limiter of two requests per second record
      readings at least 500 ms apart, however much time passes between them. */
  method TwoCallsAtTwoPerSecond(start: int, pause: nat) returns (first: int, second: int)
    ensures (second - first) as real >= 500.0
  {
    var clock := new Clock(start);
    var limiter := CreateRateLimiter(2.0);
    var _ := limiter.WaitIfNeeded(clock);
    first := limiter.lastRequestTime;
    clock.Advance(pause);
    var _ := limiter.WaitIfNeeded(clock);
    second := limiter.lastRequestTime;
  }

  /** Limiters made by the factory do not share state: waiting on one leaves
      the other's recorded time where it was. */
  method FactoryLimitersAreIndependent(start: int) returns (otherLast: int)
    ensures otherLast == 0
  {
    var clock := new Clock(start);
    var a := CreateRateLimiter(1.0);
    var b := CreateRateLimiter(1.0);
    var _ := a.WaitIfNeeded(clock);
    otherLast := b.lastRequestTime;
  }
}
