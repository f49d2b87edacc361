/**
 * The OkHttp rate-limit interceptor: a sliding window over the timestamps of the last
 * `permits` admitted requests. The clock reading `now` is an input; sleeping, locking and
 * forwarding the request are not modelled (the wait time is returned instead).
 */
module RateLimit {
  import opened Text

  // ---------------------------------------------------------------------------
  // java.util.concurrent.TimeUnit conversions (64-bit, saturating, truncating)

  datatype TimeUnit = Nanoseconds | Microseconds | Milliseconds | Seconds | Minutes | Hours | Days

  /** Length of one unit in nanoseconds. */
  function Scale(u: TimeUnit): (r: nat)
    ensures r >= 1
  {
    match u
    case Nanoseconds => 1
    case Microseconds => 1_000
    case Milliseconds => 1_000_000
    case Seconds => 1_000_000_000
    case Minutes => 60_000_000_000
    case Hours => 3_600_000_000_000
    case Days => 86_400_000_000_000
  }

  /** `dst.convert(d, src)`: exact multiplication clamped to the long range, or truncating division. */
  function Convert(d: int, src: TimeUnit, dst: TimeUnit): int
  {
    if Scale(src) == Scale(dst) then d
    else if Scale(src) < Scale(dst) then TruncDiv(d, Scale(dst) / Scale(src))
    else
      var r := Scale(src) / Scale(dst);
      var max := LONG_MAX / r;
      if d > max then LONG_MAX else if d < -max then LONG_MIN else d * r
  }

  function Min(a: int, b: int): int { if a <= b then a else b }

  /** The initialiser of `rateLimitMillis`. With the optimisation on, the limit is made at
    * most as harsh as `permits` requests per `permits` seconds. */
  function WindowMillis(permits: int, period: int, unit: TimeUnit, allowOptimization: bool): int
  {
    if allowOptimization then
      Convert(Min(permits, Convert(period, unit, Seconds)), Seconds, Milliseconds)
    else Convert(period, unit, Milliseconds)
  }

  /** Whole seconds in `period` units, for a non-negative period. */
  function WholeSeconds(period: nat, unit: TimeUnit): nat
  {
    match unit
    case Nanoseconds => period / 1_000_000_000
    case Microseconds => period / 1_000_000
    case Milliseconds => period / 1_000
    case Seconds => period
    case Minutes => period * 60
    case Hours => period * 3_600
    case Days => period * 86_400
  }

  /** Whole milliseconds in `period` units, for a non-negative period. */
  function WholeMillis(period: nat, unit: TimeUnit): nat
  {
    match unit
    case Nanoseconds => period / 1_000_000
    case Microseconds => period / 1_000
    case Milliseconds => period
    case Seconds => period * 1_000
    case Minutes => period * 60_000
    case Hours => period * 3_600_000
    case Days => period * 86_400_000
  }

  /** With the optimisation on and no overflow possible, the window is
    * min(permits, whole seconds of the period) * 1000 ms; off, it is the period in ms. */
  lemma WindowMillisValue(permits: nat, period: nat, unit: TimeUnit)
    requires permits <= INT_MAX && period <= INT_MAX
    ensures WindowMillis(permits, period, unit, true) == Min(permits, WholeSeconds(period, unit)) * 1000
    ensures WindowMillis(permits, period, unit, false) == WholeMillis(period, unit)
  {
    assert Convert(period, unit, Seconds) == WholeSeconds(period, unit);
    assert 0 <= Min(permits, WholeSeconds(period, unit)) <= INT_MAX;
  }

  /** The parameter sets of the interceptor's unit test: 50/min and 50/5 min give 50 s,
    * 1/2 s and 1/1 s give 1 s, 4/3 s gives 3 s. */
  lemma WindowMillisExamples()
    ensures WindowMillis(50, 1, Minutes, true) == 50000
    ensures WindowMillis(50, 5, Minutes, true) == 50000
    ensures WindowMillis(1, 2, Seconds, true) == 1000
    ensures WindowMillis(4, 3, Seconds, true) == 3000
    ensures WindowMillis(1, 1, Seconds, true) == 1000
  {
  }

  // ---------------------------------------------------------------------------
  // The queue of admission timestamps

  /** The remaining wait before a request may go out; 0 while the queue is not full or
    * when its newest and oldest entries are more than a window apart. */
  function WaitTime(q: seq<int>, permits: nat, window: int, now: int): int
    requires |q| <= permits
    requires |q| == permits ==> permits > 0
  {
    if |q| < permits then 0
    else if q[permits - 1] - q[0] > window then 0
    else q[0] + window - now
  }

  /** The timestamp recorded for an admitted request. */
  function Slot(wait: int, now: int): int
  {
    if wait > 0 then now + wait else now
  }

  /** The queue after admitting a request: a full queue drops its oldest entry first. */
  function Admitted(q: seq<int>, permits: nat, slot: int): seq<int>
  {
    (if |q| == permits && |q| > 0 then q[1..] else q) + [slot]
  }

  /** The last `n` entries of the admission history. */
  function LastN(h: seq<int>, n: nat): (r: seq<int>)
    ensures |r| <= n
  {
    if |h| <= n then h else h[|h| - n..]
  }

  predicate NonDecreasing(h: seq<int>)
  {
    forall i, j :: 0 <= i < j < |h| ==> h[i] <= h[j]
  }

  /** The sliding-window guarantee: a request is never recorded less than one window
    * after the request `permits` places before it. */
  predicate Spaced(h: seq<int>, permits: nat, window: int)
  {
    forall i :: 0 <= i && i + permits < |h| ==> h[i] + window <= h[i + permits]
  }

  /** Admitting a request keeps the queue bounded by `permits` and appends exactly one
    * entry, which is `now` for a zero or negative wait and `now + wait` otherwise. */
  lemma AdmittedShape(q: seq<int>, permits: nat, window: int, now: int)
    requires |q| <= permits && permits > 0
    ensures var w := WaitTime(q, permits, window, now);
            var r := Admitted(q, permits, Slot(w, now));
            && |r| <= permits
            && |r| == (if |q| == permits then permits else |q| + 1)
            && r[..|r| - 1] == (if |q| == permits then q[1..] else q)
            && r[|r| - 1] == (if w > 0 then now + w else now)
            && r[|r| - 1] >= now
  {
  }

  /** A full queue whose wait is positive records exactly one window after its oldest entry. */
  lemma FullQueueWait(q: seq<int>, permits: nat, window: int, now: int)
    requires |q| == permits > 0
    ensures var w := WaitTime(q, permits, window, now);
            w > 0 <==> (q[permits - 1] - q[0] <= window && now < q[0] + window)
    ensures var w := WaitTime(q, permits, window, now);
            w > 0 ==> Slot(w, now) == q[0] + window
  {
  }

  /** The queue is always the last `permits` entries of the admission history, and as
    * long as the clock has passed the last recorded slot (the interceptor sleeps until
    * then while holding the lock) the history stays ordered and spaced. */
  lemma {:induction false} AdmissionKeepsSpacing(h: seq<int>, permits: nat, window: int, now: int)
    requires permits > 0
    requires NonDecreasing(h) && Spaced(h, permits, window)
    requires |h| > 0 ==> h[|h| - 1] <= now
    ensures var q := LastN(h, permits);
            var h' := h + [Slot(WaitTime(q, permits, window, now), now)];
            && Admitted(q, permits, h'[|h'| - 1]) == LastN(h', permits)
            && NonDecreasing(h')
            && Spaced(h', permits, window)
  {
    var q := LastN(h, permits);
    var w := WaitTime(q, permits, window, now);
    var s := Slot(w, now);
    var h' := h + [s];
    assert s >= now;
    if |h| >= permits {
      assert q == h[|h| - permits..];
      assert q[0] == h[|h| - permits];
      assert q[permits - 1] == h[|h| - 1];
      assert q[0] + window <= s;
      assert q[1..] + [s] == h'[|h'| - permits..];
    }
    forall i, j | 0 <= i < j < |h'|
      ensures h'[i] <= h'[j]
    {
      if j < |h| {
        assert h'[i] == h[i] && h'[j] == h[j];
      } else {
        assert h'[i] == h[i] <= h[|h| - 1];
      }
    }
    forall i | 0 <= i && i + permits < |h'|
      ensures h'[i] + window <= h'[i + permits]
    {
      if i + permits < |h| {
        assert h'[i] == h[i] && h'[i + permits] == h[i + permits];
      } else {
        assert i == |h| - permits;
      }
    }
  }

  // ---------------------------------------------------------------------------
  // The interceptor

  /** Why `intercept` did not let a request through. */
  datatype Outcome =
    | Proceed(waitTime: int)  // the request goes on after sleeping `waitTime` ms if positive
    | Canceled                // IOException for a call canceled at either check
    | IndexOutOfBounds        // `requestQueue[0]` on the empty queue when `permits` is 0

  class RateLimitInterceptor {
    const permits: nat
    const rateLimitMillis: int
    /** The timestamps of the last `permits` admitted requests, oldest first. */
    var requestQueue: seq<int>
    /** Every timestamp ever recorded, oldest first. */
    ghost var admitted: seq<int>

    ghost predicate Valid()
      reads this
    {
      permits <= INT_MAX && requestQueue == LastN(admitted, permits)
    }

    /** `ArrayList(permits)` rejects a negative capacity, so `permits` is a nat. */
    constructor (permits: nat, period: int, unit: TimeUnit, allowOptimization: bool)
      requires permits <= INT_MAX
      ensures Valid()
      ensures this.permits == permits
      ensures rateLimitMillis == WindowMillis(permits, period, unit, allowOptimization)
      ensures requestQueue == [] && admitted == []
    {
      this.permits := permits;
      rateLimitMillis := WindowMillis(permits, period, unit, allowOptimization);
      requestQueue := [];
      admitted := [];
    }

    /** One call of `intercept` at clock reading `now`; `canceledAtStart` and
      * `canceledAtFinalCheck` are what `isCanceled()` returns at the two checks. */
    method Intercept(now: int, canceledAtStart: bool, canceledAtFinalCheck: bool) returns (r: Outcome)
      requires Valid()
      modifies this`requestQueue, this`admitted
      ensures Valid()
      ensures canceledAtStart ==> r == Canceled
      ensures !canceledAtStart && permits == 0 ==> r == IndexOutOfBounds
      ensures !canceledAtStart && permits > 0 && canceledAtFinalCheck ==> r == Canceled
      ensures !r.Proceed? ==> requestQueue == old(requestQueue) && admitted == old(admitted)
      ensures !canceledAtStart && permits > 0 && !canceledAtFinalCheck ==>
                && r == Proceed(WaitTime(old(requestQueue), permits, rateLimitMillis, now))
                && requestQueue == Admitted(old(requestQueue), permits, Slot(r.waitTime, now))
                && admitted == old(admitted) + [Slot(r.waitTime, now)]
    {
      if canceledAtStart {
        return Canceled;
      }
      var waitTime := 0;
      if |requestQueue| < permits {
        waitTime := 0;
      } else {
        if |requestQueue| == 0 {
          return IndexOutOfBounds;
        }
        var oldestReq := requestQueue[0];
        var newestReq := requestQueue[permits - 1];
        if newestReq - oldestReq > rateLimitMillis {
          waitTime := 0;
        } else {
          waitTime := oldestReq + rateLimitMillis - now;
        }
      }
      if canceledAtFinalCheck {
        return Canceled;
      }
      ghost var q0 := requestQueue;
      if |requestQueue| == permits {
        requestQueue := requestQueue[1..];
      }
      var slot := if waitTime > 0 then now + waitTime else now;
      requestQueue := requestQueue + [slot];
      admitted := admitted + [slot];
      assert requestQueue == Admitted(q0, permits, slot);
      LastNAppend(old(admitted), permits, slot);
      r := Proceed(waitTime);
    }
  }

  lemma LastNAppend(h: seq<int>, n: nat, x: int)
    requires n > 0
    ensures Admitted(LastN(h, n), n, x) == LastN(h + [x], n)
  {
    if |h| >= n {
      assert LastN(h, n)[1..] + [x] == (h + [x])[|h| + 1 - n..];
    }
  }
}
